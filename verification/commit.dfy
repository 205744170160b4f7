/**
 * The committer of the index writer: a counter that starts at 0, so the
 * very first event triggers a commit, and then every 100th event after it.
 */
module KafkaCommit {
  import opened ByteCodec
  import opened CommitCadence

  class OffsetCommitter {
    var counter: U32

    constructor New()
      ensures counter == 0
    {
      counter := 0;
    }

    /** `should_commit`: commit when the value before the wrapping bump is a multiple of 100. */
    method ShouldCommit() returns (b: bool)
      modifies this
      ensures b <==> old(counter) % BATCH_SIZE == 0
      ensures counter == Next(old(counter))
    {
      var prev := counter;
      counter := Next(counter);
      b := Commits(prev);
    }
  }

  /**
   * From the starting value, call `i` (counting from 0) commits exactly when
   * `i` is a multiple of 100: the first call does, and so does the 101st.
   */
  lemma CommitsFromFirst(k: nat, i: nat)
    requires i < k && i < TWO_32
    ensures Answers(0, k)[i] <==> i % BATCH_SIZE == 0
    ensures i == 0 ==> Answers(0, k)[i]
  {
    AnswersAt(0, k, i);
    NoWrap(0, i);
  }
}
