/**
 One authenticated trigger asks for a refresh of every instance of a template. The instances are
 the listed names in a store; a patch may fail, and then the rest are left for a retry.
 */
module RefreshFanOut {
  import opened RefreshProtocol

  datatype Instance = Instance(annotation: string, observed: string, suspend: bool)
  type Store = map<string, Instance>

  /** Neither suspended nor with a request outstanding. */
  predicate Eligible(i: Instance) {
    !i.suspend && !Outstanding(i.annotation, i.observed)
  }

  /** What a list of a store looks like. */
  ghost predicate Listed(objs: Store, names: seq<string>) {
    && (forall i :: 0 <= i < |names| ==> names[i] in objs)
    && (forall i, j :: 0 <= i < j < |names| ==> names[i] != names[j])
  }

  datatype Result = Result(n: nat, failed: bool)

  class Instances {
    var objs: Store

    method Refresh(names: seq<string>, stamp: string, fails: string -> bool) returns (r: Result)
      requires Listed(objs, names)
      modifies this
      ensures (objs, r) == FanOut(old(objs), names, stamp, fails)
    {
      var n := 0;
      for i := 0 to |names|
        invariant Listed(objs, names)
        invariant FanOut(old(objs), names, stamp, fails) == More(n, FanOut(objs, names[i..], stamp, fails))
      {
        var name := names[i];
        var pending := objs[name].annotation;
        assert names[i..][0] == name && names[i..][1..] == names[i + 1..];
        if objs[name].suspend || (pending != "" && pending != objs[name].observed) {
          continue;
        }
        if fails(name) {
          return Result(n, true);
        }
        objs := objs[name := objs[name].(annotation := stamp)];
        n := n + 1;
      }
      return Result(n, false);
    }
  }

  function More(n: nat, o: (Store, Result)): (Store, Result) {
    (o.0, Result(n + o.1.n, o.1.failed))
  }

  function FanOut(objs: Store, names: seq<string>, stamp: string, fails: string -> bool): (Store, Result)
    requires forall i :: 0 <= i < |names| ==> names[i] in objs
  {
    if names == [] then (objs, Result(0, false))
    else if !Eligible(objs[names[0]]) then FanOut(objs, names[1..], stamp, fails)
    else if fails(names[0]) then (objs, Result(0, true))
    else More(1, FanOut(objs[names[0] := objs[names[0]].(annotation := stamp)], names[1..], stamp, fails))
  }

  /** How many of the listed instances are eligible. */
  function EligibleCount(objs: Store, names: seq<string>): nat
    requires forall i :: 0 <= i < |names| ==> names[i] in objs
  {
    if names == [] then 0 else EligibleCount(objs, names[1..]) + if Eligible(objs[names[0]]) then 1 else 0
  }

  /** The whole fan-out at once. */
  function Stamped(objs: Store, names: seq<string>, stamp: string): Store {
    map k | k in objs :: if k in names && Eligible(objs[k]) then objs[k].(annotation := stamp) else objs[k]
  }

  lemma {:induction false} CountSame(objs: Store, other: Store, names: seq<string>)
    requires forall i :: 0 <= i < |names| ==> names[i] in objs && names[i] in other && objs[names[i]] == other[names[i]]
    ensures EligibleCount(objs, names) == EligibleCount(other, names)
  {
    if names != [] {
      CountSame(objs, other, names[1..]);
    }
  }

  lemma ListedRest(objs: Store, names: seq<string>, i: Instance)
    requires Listed(objs, names) && names != []
    ensures Listed(objs, names[1..]) && Listed(objs[names[0] := i], names[1..]) && names[0] !in names[1..]
  {
  }

  /** A call that does not fail stamps exactly the listed eligible instances and returns how many;
      suspended, pending and unlisted ones are untouched. */
  lemma {:induction false} FanOutStamps(objs: Store, names: seq<string>, stamp: string, fails: string -> bool)
    requires Listed(objs, names)
    ensures var (after, r) := FanOut(objs, names, stamp, fails);
            !r.failed ==> after == Stamped(objs, names, stamp) && r.n == EligibleCount(objs, names)
  {
    if names != [] {
      var first := objs[names[0]];
      ListedRest(objs, names, first.(annotation := stamp));
      if !Eligible(first) {
        FanOutStamps(objs, names[1..], stamp, fails);
        assert Stamped(objs, names[1..], stamp) == Stamped(objs, names, stamp);
      } else if !fails(names[0]) {
        var next := objs[names[0] := first.(annotation := stamp)];
        FanOutStamps(next, names[1..], stamp, fails);
        CountSame(objs, next, names[1..]);
        assert Stamped(next, names[1..], stamp) == Stamped(objs, names, stamp);
      }
    }
  }

  /** The time is a value none of the eligible instances has answered before. */
  ghost predicate NewTo(objs: Store, names: seq<string>, stamp: string)
    requires Listed(objs, names)
  {
    forall i :: 0 <= i < |names| && Eligible(objs[names[i]]) ==> stamp != "" && stamp != objs[names[i]].observed
  }

  lemma {:induction false} NoneEligible(objs: Store, names: seq<string>)
    requires Listed(objs, names)
    ensures EligibleCount(objs, names) == 0 <==> forall i :: 0 <= i < |names| ==> !Eligible(objs[names[i]])
  {
    if names != [] {
      ListedRest(objs, names, objs[names[0]]);
      NoneEligible(objs, names[1..]);
      assert forall i :: 0 < i < |names| ==> names[i] == names[1..][i - 1];
      assert forall i :: 0 <= i < |names| - 1 ==> names[1..][i] == names[i + 1];
    }
  }

  /** Every listed instance that is not suspended has a request outstanding. */
  ghost predicate AllOutstanding(objs: Store, names: seq<string>)
    requires Listed(objs, names)
  {
    forall i :: 0 <= i < |names| ==>
      objs[names[i]].suspend || Outstanding(objs[names[i]].annotation, objs[names[i]].observed)
  }

  /** Then a call writes nothing and cannot fail. */
  lemma {:induction false} NothingToDo(objs: Store, names: seq<string>, stamp: string, fails: string -> bool)
    requires Listed(objs, names) && AllOutstanding(objs, names)
    ensures FanOut(objs, names, stamp, fails) == (objs, Result(0, false))
  {
    if names != [] {
      ListedRest(objs, names, objs[names[0]]);
      assert forall i :: 0 <= i < |names| - 1 ==> names[1..][i] == names[i + 1];
      NothingToDo(objs, names[1..], stamp, fails);
    }
  }

  lemma StampedOutstanding(objs: Store, names: seq<string>, stamp: string)
    requires Listed(objs, names)
    ensures Listed(Stamped(objs, names, stamp), names)
    ensures NewTo(objs, names, stamp) <==> AllOutstanding(Stamped(objs, names, stamp), names)
    ensures AllOutstanding(Stamped(objs, names, stamp), names)
       <==> EligibleCount(Stamped(objs, names, stamp), names) == 0
  {
    var after := Stamped(objs, names, stamp);
    assert forall i :: 0 <= i < |names| ==> names[i] in names;
    NoneEligible(after, names);
    assert forall i :: 0 <= i < |names| ==>
      (Eligible(after[names[i]]) <==> Eligible(objs[names[i]]) && !(stamp != "" && stamp != objs[names[i]].observed));
  }

  /** After a successful call every listed instance that is not suspended has a request
      outstanding, and an immediate replay writes none, whatever its time and whichever patches
      would fail, exactly when the time was new to the eligible ones. */
  lemma ReplayWritesNone(objs: Store, names: seq<string>, stamp: string, fails: string -> bool)
    requires Listed(objs, names) && !FanOut(objs, names, stamp, fails).1.failed
    ensures var after := FanOut(objs, names, stamp, fails).0;
            && Listed(after, names)
            && (NewTo(objs, names, stamp) <==> AllOutstanding(after, names))
            && (NewTo(objs, names, stamp) <==>
                  forall again: string, fails': string -> bool ::
                    FanOut(after, names, again, fails') == (after, Result(0, false)))
  {
    var after := FanOut(objs, names, stamp, fails).0;
    FanOutStamps(objs, names, stamp, fails);
    StampedOutstanding(objs, names, stamp);
    if AllOutstanding(after, names) {
      forall again: string, fails': string -> bool
        ensures FanOut(after, names, again, fails') == (after, Result(0, false))
      {
        NothingToDo(after, names, again, fails');
      }
    } else {
      var never := (name: string) => false;
      NeverFails(after, names, stamp, never);
      FanOutStamps(after, names, stamp, never);
      assert FanOut(after, names, stamp, never).1.n > 0;
    }
  }

  lemma {:induction false} NeverFails(objs: Store, names: seq<string>, stamp: string, fails: string -> bool)
    requires Listed(objs, names) && forall name :: !fails(name)
    ensures !FanOut(objs, names, stamp, fails).1.failed
  {
    if names != [] {
      var first := objs[names[0]];
      ListedRest(objs, names, first.(annotation := stamp));
      var next := if Eligible(first) then objs[names[0] := first.(annotation := stamp)] else objs;
      NeverFails(next, names[1..], stamp, fails);
    }
  }

  // ---------- Failure and retry ----------

  /** The patch of the i-th listed instance is tried and fails. */
  predicate FailsAt(objs: Store, names: seq<string>, fails: string -> bool, i: int) {
    0 <= i < |names| && names[i] in objs && Eligible(objs[names[i]]) && fails(names[i])
  }

  /** Past a first instance that does not fail, the others fail as they would have. */
  lemma FailsAfter(objs: Store, next: Store, names: seq<string>, fails: string -> bool, done: nat)
    requires Listed(objs, names) && names != [] && done < |names| && !FailsAt(objs, names, fails, 0)
    requires next.Keys == objs.Keys && forall k :: k in objs && k != names[0] ==> next[k] == objs[k]
    requires forall i :: 0 <= i < done ==> !FailsAt(next, names[1..], fails, i)
    ensures FailsAt(next, names[1..], fails, done) <==> FailsAt(objs, names, fails, done + 1)
    ensures forall i :: 0 <= i < done + 1 ==> !FailsAt(objs, names, fails, i)
  {
    forall i | 0 <= i < |names| - 1
      ensures FailsAt(next, names[1..], fails, i) <==> FailsAt(objs, names, fails, i + 1)
    {
      assert names[1..][i] == names[i + 1] && names[0] != names[i + 1];
    }
    forall i | 0 <= i < done + 1
      ensures !FailsAt(objs, names, fails, i)
    {
      assert i > 0 ==> !FailsAt(next, names[1..], fails, i - 1);
    }
  }

  /** How far a call got before a patch failed. */
  lemma {:induction false} FailedPart(objs: Store, names: seq<string>, stamp: string, fails: string -> bool)
    returns (done: nat)
    requires Listed(objs, names)
    ensures done <= |names|
    ensures var (after, r) := FanOut(objs, names, stamp, fails);
            && after == Stamped(objs, names[..done], stamp)
            && r.n == EligibleCount(objs, names[..done])
            && (if r.failed then FailsAt(objs, names, fails, done) else done == |names|)
    ensures forall i :: 0 <= i < done ==> !FailsAt(objs, names, fails, i)
  {
    if names == [] {
      done := 0;
      assert Stamped(objs, [], stamp) == objs;
    } else {
      var first := objs[names[0]];
      ListedRest(objs, names, first.(annotation := stamp));
      if Eligible(first) && fails(names[0]) {
        done := 0;
        assert Stamped(objs, [], stamp) == objs;
      } else {
        var next := if Eligible(first) then objs[names[0] := first.(annotation := stamp)] else objs;
        done := FailedPart(next, names[1..], stamp, fails);
        FailsAfter(objs, next, names, fails, done);
        assert names[..done + 1] == [names[0]] + names[1..][..done];
        StampedFirst(objs, names, stamp, done);
        CountSame(objs, next, names[1..][..done]);
        assert names[..done + 1][1..] == names[1..][..done];
        done := done + 1;
      }
    }
  }

  /** The listed instances that are neither suspended nor pending. */
  function EligibleAmong(objs: Store, names: seq<string>): set<string> {
    set k | && k in objs && k in names && !objs[k].suspend
            && (objs[k].annotation == "" || objs[k].annotation == objs[k].observed)
  }

  lemma {:induction false} CountIsNumber(objs: Store, names: seq<string>)
    requires Listed(objs, names)
    ensures EligibleCount(objs, names) == |EligibleAmong(objs, names)|
  {
    if names != [] {
      ListedRest(objs, names, objs[names[0]]);
      CountIsNumber(objs, names[1..]);
      var rest := EligibleAmong(objs, names[1..]);
      assert forall k :: k in names <==> k == names[0] || k in names[1..];
      assert EligibleAmong(objs, names) == if Eligible(objs[names[0]]) then rest + {names[0]} else rest;
    }
  }

  /** A call fails exactly when the patch of some listed instance fails that is neither suspended
      nor pending. Up to the first such instance every one that is neither has the new time, and
      nothing else has changed; the count says how many those are. */
  lemma FanOutExactly(objs: Store, names: seq<string>, stamp: string, fails: string -> bool) returns (done: nat)
    requires Listed(objs, names)
    ensures var (after, r) := FanOut(objs, names, stamp, fails);
            && (r.failed <==> exists i :: FailsAt(objs, names, fails, i))
            && done <= |names| && (forall i :: 0 <= i < done ==> !FailsAt(objs, names, fails, i))
            && (if r.failed then FailsAt(objs, names, fails, done) else done == |names|)
            && r.n == |EligibleAmong(objs, names[..done])| && after.Keys == objs.Keys
            && forall k :: k in objs ==>
                 var i := objs[k];
                 after[k] == if k in names[..done] && !i.suspend && (i.annotation == "" || i.annotation == i.observed)
                             then Instance(stamp, i.observed, false) else i
  {
    done := FailedPart(objs, names, stamp, fails);
    assert Listed(objs, names[..done]);
    CountIsNumber(objs, names[..done]);
    if !FanOut(objs, names, stamp, fails).1.failed {
      assert forall i :: !FailsAt(objs, names, fails, i);
    }
  }

  lemma StampedFirst(objs: Store, names: seq<string>, stamp: string, done: nat)
    requires Listed(objs, names) && names != [] && done < |names|
    ensures var first := objs[names[0]];
            var next := if Eligible(first) then objs[names[0] := first.(annotation := stamp)] else objs;
            Stamped(next, names[1..][..done], stamp)
            == Stamped(objs, names[..done + 1], stamp)
  {
    assert names[..done + 1] == [names[0]] + names[1..][..done];
    ListedRest(objs, names, objs[names[0]]);
  }

  lemma {:induction false} CountSplit(objs: Store, names: seq<string>, done: nat)
    requires Listed(objs, names) && done <= |names|
    ensures EligibleCount(objs, names) == EligibleCount(objs, names[..done]) + EligibleCount(objs, names[done..])
  {
    if done > 0 {
      ListedRest(objs, names, objs[names[0]]);
      CountSplit(objs, names[1..], done - 1);
      assert names[..done][1..] == names[1..][..done - 1] && names[1..][done - 1..] == names[done..];
    }
  }

  /** Stamping a part and then all of it, each at its own new time, leaves each instance with the
      time of the call that reached it; with one time it is the same as stamping all at once. */
  lemma StampTwice(objs: Store, names: seq<string>, done: nat, stamp: string, again: string)
    requires Listed(objs, names) && done <= |names| && NewTo(objs, names, stamp)
    ensures Listed(objs, names[..done])
    ensures var part := Stamped(objs, names[..done], stamp);
            Stamped(part, names, again) == Retried(objs, names, done, stamp, again)
    ensures Retried(objs, names, done, stamp, stamp) == Stamped(objs, names, stamp)
  {
    var part := Stamped(objs, names[..done], stamp);
    forall k | k in objs && k in names[..done] && Eligible(objs[k])
      ensures !Eligible(part[k])
    {
      var i :| 0 <= i < done && names[..done][i] == k;
      assert names[i] == k;
    }
    assert forall k :: k in names[..done] ==> k in names;
  }

  /** What a call that got as far as `done` and a retry that succeeds leave behind: the instances
      the first call reached have its time, the others eligible at first the retry's. */
  function Retried(objs: Store, names: seq<string>, done: nat, stamp: string, again: string): Store
    requires done <= |names|
  {
    map k | k in objs ::
      if k in names && Eligible(objs[k])
      then objs[k].(annotation := if k in names[..done] then stamp else again)
      else objs[k]
  }

  /** After a failure part-way, a retry that succeeds at its own time reaches exactly the instances
      one successful call would have, the two counts add up to the instances eligible at first, and
      every listed instance that is not suspended is left with a request outstanding if the second
      time is new too. */
  lemma RetryCompletes(objs: Store, names: seq<string>, stamp: string, again: string, fails: string -> bool,
                       fails': string -> bool)
    returns (done: nat)
    requires Listed(objs, names) && NewTo(objs, names, stamp)
    ensures done <= |names|
    ensures var (part, r) := FanOut(objs, names, stamp, fails);
            && Listed(part, names) && part == Stamped(objs, names[..done], stamp) && (r.failed || done == |names|)
            && var (after, r') := FanOut(part, names, again, fails');
               !r'.failed ==>
                 && r.n + r'.n == EligibleCount(objs, names)
                 && after == Retried(objs, names, done, stamp, again)
                 && Listed(after, names) && (NewTo(part, names, again) <==> AllOutstanding(after, names))
  {
    done := FailedPart(objs, names, stamp, fails);
    var part := FanOut(objs, names, stamp, fails).0;
    FanOutStamps(part, names, again, fails');
    StampTwice(objs, names, done, stamp, again);
    RetryCount(objs, names, done, stamp);
    StampedOutstanding(part, names, again);
  }

  lemma RetryCount(objs: Store, names: seq<string>, done: nat, stamp: string)
    requires Listed(objs, names) && done <= |names| && NewTo(objs, names, stamp)
    ensures var part := Stamped(objs, names[..done], stamp);
            EligibleCount(objs, names[..done]) + EligibleCount(part, names) == EligibleCount(objs, names)
  {
    var part := Stamped(objs, names[..done], stamp);
    CountSplit(objs, names, done);
    CountSplit(part, names, done);
    assert Listed(objs, names[..done]) && NewTo(objs, names[..done], stamp);
    StampedOutstanding(objs, names[..done], stamp);
    CountSame(objs, part, names[done..]);
  }
}
