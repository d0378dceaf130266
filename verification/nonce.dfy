/** The per-account nonce rule: a zero counter is seeded from the clock,
    any other value is incremented by one. The counter is a Go `int64`, so
    the increment wraps at the top of the range. */
module Nonce {
  import opened GeminiTypes

  /** Go's `n + 1` on `int64`. */
  function Inc64(n: Int64): (r: Int64)
    ensures n < MaxInt64 ==> r == n + 1
    ensures n == MaxInt64 ==> r == MinInt64
  {
    if n == MaxInt64 then MinInt64 else n + 1
  }

  /** The counter after one authenticated call that got past the
      credentials gate; `clock` is the wall clock in nanoseconds. */
  function NextNonce(n: Int64, clock: Int64): (r: Int64)
    ensures n == 0 ==> r == clock
    ensures n != 0 && n < MaxInt64 ==> r == n + 1 && r > n
  {
    if n == 0 then clock else Inc64(n)
  }

  /** The counter values issued by successive calls, one clock reading per
      call: every value the venue sees, in order. */
  function IssuedNonces(n: Int64, clocks: seq<Int64>): (r: seq<Int64>)
    ensures |r| == |clocks|
    ensures |clocks| > 0 ==> r[0] == NextNonce(n, clocks[0])
    decreases |clocks|
  {
    if |clocks| == 0 then []
    else
      var n' := NextNonce(n, clocks[0]);
      [n'] + IssuedNonces(n', clocks[1..])
  }

  /** Once the first issued value is positive, and as long as the range is
      not exhausted, the issued values are consecutive integers: later
      clock readings are ignored. */
  lemma {:induction false} IssuedNoncesConsecutive(n: Int64, clocks: seq<Int64>)
    requires |clocks| > 0
    requires NextNonce(n, clocks[0]) > 0
    requires NextNonce(n, clocks[0]) + |clocks| - 1 <= MaxInt64
    ensures forall i :: 0 <= i < |clocks| ==>
              IssuedNonces(n, clocks)[i] == NextNonce(n, clocks[0]) + i
    decreases |clocks|
  {
    var first := NextNonce(n, clocks[0]);
    var rest := clocks[1..];
    if |rest| > 0 {
      assert NextNonce(first, rest[0]) == first + 1;
      IssuedNoncesConsecutive(first, rest);
      forall i | 1 <= i < |clocks|
        ensures IssuedNonces(n, clocks)[i] == first + i
      {
        assert IssuedNonces(n, clocks)[i] == IssuedNonces(first, rest)[i - 1];
      }
    }
  }

  /** Replay protection: under the same conditions the issued values
      strictly increase, so none is ever issued twice. */
  lemma NoncesStrictlyIncrease(n: Int64, clocks: seq<Int64>)
    requires |clocks| > 0
    requires NextNonce(n, clocks[0]) > 0
    requires NextNonce(n, clocks[0]) + |clocks| - 1 <= MaxInt64
    ensures var ns := IssuedNonces(n, clocks);
            forall i, j :: 0 <= i < j < |ns| ==> ns[i] < ns[j]
  {
    IssuedNoncesConsecutive(n, clocks);
  }

  /** At the top of the int64 range the increment wraps to the most
      negative value, so the issued sequence decreases there. */
  lemma NonceWrapsAtMax(clock: Int64)
    ensures NextNonce(MaxInt64, clock) == MinInt64 < MaxInt64
  {
  }

  /** A clock reading of zero leaves a fresh counter at zero, so the next
      call seeds again from the clock instead of incrementing. */
  lemma ZeroClockLeavesCounterUnseeded(clock: Int64)
    ensures NextNonce(NextNonce(0, 0), clock) == clock
  {
  }
}
