/**
 * The offset committer of the Kafka consumer: a counter that starts at 1,
 * so the very first event does not trigger a commit, and then every 100th
 * event does.
 */
module KafkaOffsetCommitter {
  import opened ByteCodec
  import opened CommitCadence

  class OffsetCommitter {
    var counter: U32

    constructor New()
      ensures counter == 1
    {
      counter := 1;
    }

    /** `should_commit`: commit when the value before the wrapping bump is a multiple of 100. */
    method ShouldCommit() returns (b: bool)
      modifies this
      ensures b <==> old(counter) % BATCH_SIZE == 0
      ensures counter == Next(old(counter))
    {
      var prev := counter;
      counter := Next(counter);
      b := Commits(prev);
    }
  }

  /**
   * From the starting value, call `i` (counting from 0) commits exactly when
   * `i + 1` is a multiple of 100: the first call does not, the 100th does.
   */
  lemma CommitsEveryHundredth(k: nat, i: nat)
    requires i < k && i + 1 < TWO_32
    ensures Answers(1, k)[i] <==> (i + 1) % BATCH_SIZE == 0
    ensures i == 0 ==> !Answers(1, k)[i]
  {
    AnswersAt(1, k, i);
    NoWrap(1, i);
  }
}
