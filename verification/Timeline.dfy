/**
 Counting over a run of timed events. A run is a sequence of call times, in nanoseconds,
 beside a sequence of flags saying which calls were admitted. The limiters state their
 bounds both over a stretch of calls and over an interval of time; the lemmas here turn
 the first kind into the second.
 */
module Timeline {

  const SECOND: int := 1_000_000_000
  const MINUTE: int := 60 * SECOND

  ghost predicate Nondecreasing(times: seq<int>) {
    forall i, j :: 0 <= i < j < |times| ==> times[i] <= times[j]
  }

  function Max0(x: int): int {
    if x < 0 then 0 else x
  }

  /** How many of flags[i..j] are set. */
  function CountTrue(flags: seq<bool>, i: nat, j: nat): (c: nat)
    requires i <= j <= |flags|
    ensures c <= j - i
    decreases j
  {
    if i == j then 0 else CountTrue(flags, i, j - 1) + (if flags[j - 1] then 1 else 0)
  }

  /** How many set flags lie at a time in [from, to). */
  function CountWithin(flags: seq<bool>, times: seq<int>, from: int, to: int): (c: nat)
    requires |flags| == |times|
    decreases |flags|
  {
    if flags == [] then 0
    else
      var n := |flags| - 1;
      CountWithin(flags[..n], times[..n], from, to) + (if flags[n] && from <= times[n] < to then 1 else 0)
  }

  /** How far the clock moved forwards between call i and call j - 1, steps back not subtracted. */
  function Advance(times: seq<int>, i: nat, j: nat): (a: nat)
    requires i < j <= |times|
    decreases j
  {
    if j == i + 1 then 0 else Advance(times, i, j - 1) + Max0(times[j - 1] - times[j - 2])
  }

  lemma {:induction false} AdvanceOfNondecreasing(times: seq<int>, i: nat, j: nat)
    requires i < j <= |times|
    requires Nondecreasing(times)
    ensures Advance(times, i, j) == times[j - 1] - times[i]
    decreases j
  {
    if j > i + 1 {
      AdvanceOfNondecreasing(times, i, j - 1);
    }
  }

  lemma {:induction false} CountTrueOfPrefix(flags: seq<bool>, i: nat, j: nat, n: nat)
    requires i <= j <= n <= |flags|
    ensures CountTrue(flags[..n], i, j) == CountTrue(flags, i, j)
    decreases j
  {
    if i < j {
      CountTrueOfPrefix(flags, i, j - 1, n);
    }
  }

  /** Where an interval that starts at `from` cuts a nondecreasing run. */
  function Cut(times: seq<int>, from: int): (i: nat)
    ensures i <= |times|
    ensures Nondecreasing(times) ==> forall n :: 0 <= n < i ==> times[n] < from
    ensures Nondecreasing(times) ==> forall n :: i <= n < |times| ==> from <= times[n]
  {
    if times != [] && from <= times[|times| - 1] then
      var shorter := times[..|times| - 1];
      assert forall n :: 0 <= n < |shorter| ==> times[n] == shorter[n];
      Cut(shorter, from)
    else
      |times|
  }

  lemma {:induction false} WithinPrefix(flags: seq<bool>, times: seq<int>, from: int, to: int, n: nat)
    requires |flags| == |times| && Nondecreasing(times) && from <= to && n <= |flags|
    ensures Cut(times, from) <= Cut(times, to)
    ensures CountWithin(flags[..n], times[..n], from, to)
         == var i, j := Cut(times, from), Cut(times, to);
            if n <= i then 0 else if n <= j then CountTrue(flags, i, n) else CountTrue(flags, i, j)
  {
    var i, j := Cut(times, from), Cut(times, to);
    assert j < |times| ==> from <= to <= times[j];
    if n > 0 {
      WithinPrefix(flags, times, from, to, n - 1);
      assert flags[..n][..n - 1] == flags[..n - 1] && times[..n][..n - 1] == times[..n - 1];
    }
  }

  /** The set flags in a time interval are the set flags of a stretch of the run that lies in it. */
  lemma IntervalIsStretch(flags: seq<bool>, times: seq<int>, from: int, to: int) returns (i: nat, j: nat)
    requires |flags| == |times| && Nondecreasing(times) && from <= to
    ensures i <= j <= |flags|
    ensures forall n :: i <= n < j ==> from <= times[n] < to
    ensures CountWithin(flags, times, from, to) == CountTrue(flags, i, j)
  {
    i, j := Cut(times, from), Cut(times, to);
    WithinPrefix(flags, times, from, to, |flags|);
    assert flags[..|flags|] == flags && times[..|flags|] == times;
  }
}
