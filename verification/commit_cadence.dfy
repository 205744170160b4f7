/**
 * The cadence both offset committers share: a 32-bit counter, bumped with
 * wrap-around on every call, and a commit whenever the value before the
 * bump is a multiple of the batch size.
 */
module CommitCadence {
  import opened ByteCodec

  const BATCH_SIZE: int := 100

  type U32 = x: int | 0 <= x < TWO_32

  /** The atomic fetch-and-add: one more, wrapping at 2^32. */
  function Next(c: U32): (r: U32)
    ensures c < U32_MAX ==> r == c + 1
    ensures c == U32_MAX ==> r == 0
  {
    (c + 1) % TWO_32
  }

  /** A call that sees `prev` before the bump commits. */
  predicate Commits(prev: U32)
  {
    prev % BATCH_SIZE == 0
  }

  /** The counter value the call `i` places after one seeing `start` sees. */
  function CounterAfter(start: U32, i: nat): U32
  {
    (start + i) % TWO_32
  }

  lemma CounterAfterNext(start: U32, i: nat)
    ensures CounterAfter(Next(start), i) == CounterAfter(start, i + 1)
  {
  }

  /** The answers of `k` calls in a row from counter value `start`. */
  function Answers(start: U32, k: nat): (r: seq<bool>)
    ensures |r| == k
    decreases k
  {
    if k == 0 then []
    else [Commits(start)] + Answers(Next(start), k - 1)
  }

  /** Call `i` of a run commits exactly when the counter it sees is a multiple of 100. */
  lemma {:induction false} AnswersAt(start: U32, k: nat, i: nat)
    requires i < k
    ensures Answers(start, k)[i] == Commits(CounterAfter(start, i))
    decreases i
  {
    var a := Answers(start, k);
    assert a == [Commits(start)] + Answers(Next(start), k - 1);
    if i > 0 {
      assert a[i] == Answers(Next(start), k - 1)[i - 1];
      AnswersAt(Next(start), k - 1, i - 1);
      CounterAfterNext(start, i - 1);
    }
  }

  lemma NoWrap(start: U32, i: nat)
    requires start + i < TWO_32
    ensures CounterAfter(start, i) == start + i
  {
  }

  /** Two multiples of 100 less than 100 apart are equal. */
  lemma MultiplesApart(x: int, y: int)
    requires x % BATCH_SIZE == 0 && y % BATCH_SIZE == 0 && x <= y < x + BATCH_SIZE
    ensures x == y
  {
  }

  /** The first multiple of 100 at or after `x` is less than 100 away. */
  lemma NextMultiple(x: nat)
    ensures (x + (BATCH_SIZE - x % BATCH_SIZE) % BATCH_SIZE) % BATCH_SIZE == 0
  {
  }

  /**
   * Away from wrap-around, any 100 calls in a row commit exactly once: some
   * call in the window commits, and no two do.
   */
  lemma OnePerWindow(start: U32, k: nat, m: nat)
    requires m + BATCH_SIZE <= k && start + m + BATCH_SIZE <= TWO_32
    ensures exists i :: m <= i < m + BATCH_SIZE && Answers(start, k)[i]
    ensures forall i, j :: m <= i < m + BATCH_SIZE && m <= j < m + BATCH_SIZE && Answers(start, k)[i] && Answers(start, k)[j] ==> i == j
  {
    var w := m + (BATCH_SIZE - (start + m) % BATCH_SIZE) % BATCH_SIZE;
    NextMultiple(start + m);
    NoWrap(start, w);
    AnswersAt(start, k, w);
    forall i, j | m <= i < m + BATCH_SIZE && m <= j < m + BATCH_SIZE && Answers(start, k)[i] && Answers(start, k)[j]
      ensures i == j
    {
      AnswersAt(start, k, i);
      AnswersAt(start, k, j);
      NoWrap(start, i);
      NoWrap(start, j);
      if i <= j {
        MultiplesApart(start + i, start + j);
      } else {
        MultiplesApart(start + j, start + i);
      }
    }
  }

  /** Counter values from the last multiple of 100 up to the wrap. */
  lemma BelowWrap(i: nat)
    requires i < 96
    ensures (TWO_32 - 96 + i) % BATCH_SIZE == i
  {
    assert TWO_32 - 96 + i == 42949672 * BATCH_SIZE + i;
  }

  /**
   * Across the wrap the window is shorter: from the last multiple of 100
   * below 2^32, the call 96 later (which sees 0) commits again, with none
   * in between.
   */
  lemma WrapCommitsEarly(i: nat)
    requires i <= 96
    ensures Answers(TWO_32 - 96, BATCH_SIZE)[i] <==> i == 0 || i == 96
  {
    AnswersAt(TWO_32 - 96, BATCH_SIZE, i);
    if i < 96 {
      NoWrap(TWO_32 - 96, i);
      BelowWrap(i);
    } else {
      assert CounterAfter(TWO_32 - 96, i) == 0;
    }
  }
}
