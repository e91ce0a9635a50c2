/**
 All the Subscriptions a webhook serves, each with its own refresh protocol, and the one counter
 of the writes made for any of them.
 */
module RefreshFleet {
  import opened RefreshProtocol

  datatype Fleet = Fleet(subs: map<string, State>, refreshes: nat)

  /** A step of one Subscription's protocol; a write it makes may be refused by the API server. */
  datatype Event = Event(name: string, step: Step, fails: bool)

  predicate Writes(s: State, step: Step) {
    step.Deliver? && !s.Open()
  }

  function Move(f: Fleet, e: Event): Fleet {
    if e.name !in f.subs || (Writes(f.subs[e.name], e.step) && e.fails) then f
    else
      var s := f.subs[e.name];
      Fleet(f.subs[e.name := Apply(s, e.step)], f.refreshes + One(Writes(s, e.step)))
  }

  /** What the annotation and the status of one Subscription were at first. */
  datatype Found = Found(annotation: string, last: string)

  function Launch(init: map<string, Found>): Fleet {
    Fleet(map k | k in init :: Start(init[k].annotation, init[k].last), 0)
  }

  function FleetAfter(init: map<string, Found>, events: seq<Event>): Fleet {
    if events == [] then Launch(init) else Move(FleetAfter(init, events[..|events| - 1]), events[|events| - 1])
  }

  // ---------- Sums ----------

  ghost function Sum(m: map<string, nat>): nat {
    if m == map[] then 0
    else
      var k :| k in m;
      m[k] + Sum(m - {k})
  }

  lemma {:induction false} SumWithout(m: map<string, nat>, k: string)
    requires k in m
    ensures Sum(m) == m[k] + Sum(m - {k})
    decreases |m|
  {
    var j :| j in m && Sum(m) == m[j] + Sum(m - {j});
    if j != k {
      SumWithout(m - {j}, k);
      SumWithout(m - {k}, j);
      assert m - {j} - {k} == m - {k} - {j};
    }
  }

  lemma SumUpdate(m: map<string, nat>, k: string, v: nat)
    requires k in m
    ensures Sum(m[k := v]) + m[k] == Sum(m) + v
  {
    SumWithout(m, k);
    SumWithout(m[k := v], k);
    assert m[k := v] - {k} == m - {k};
  }

  lemma {:induction false} SumOfZeros(m: map<string, nat>)
    requires forall k :: k in m ==> m[k] == 0
    ensures Sum(m) == 0
    decreases |m|
  {
    if m != map[] {
      var k :| k in m;
      SumWithout(m, k);
      SumOfZeros(m - {k});
    }
  }

  lemma {:induction false} SumBound(m: map<string, nat>, n: map<string, nat>)
    requires m.Keys == n.Keys && forall k :: k in m ==> m[k] <= n[k] + 1
    ensures Sum(m) <= Sum(n) + |m|
    decreases |m|
  {
    if m != map[] {
      var k :| k in m;
      SumWithout(m, k);
      SumWithout(n, k);
      assert (m - {k}).Keys == m.Keys - {k} && (n - {k}).Keys == n.Keys - {k};
      SumBound(m - {k}, n - {k});
    }
  }

  function WritesOf(subs: map<string, State>): map<string, nat> {
    map k | k in subs :: subs[k].writes
  }

  function AnsweredOf(subs: map<string, State>): map<string, nat> {
    map k | k in subs :: subs[k].answered
  }

  // ---------- Every run ----------

  lemma MoveCounts(f: Fleet, e: Event)
    requires f.refreshes == Sum(WritesOf(f.subs))
    ensures Move(f, e).refreshes == Sum(WritesOf(Move(f, e).subs))
  {
    if e.name in f.subs {
      var s := f.subs[e.name];
      SumUpdate(WritesOf(f.subs), e.name, Apply(s, e.step).writes);
      assert WritesOf(f.subs[e.name := Apply(s, e.step)]) == WritesOf(f.subs)[e.name := Apply(s, e.step).writes];
    }
  }

  /** On every run of deliveries, failed writes and polls of any number of Subscriptions, the
      counter is the number of annotation writes. */
  lemma {:induction false} RefreshesAreWrites(init: map<string, Found>, events: seq<Event>)
    ensures var f := FleetAfter(init, events); f.refreshes == Sum(WritesOf(f.subs)) && f.subs.Keys == init.Keys
  {
    if events == [] {
      SumOfZeros(WritesOf(Launch(init).subs));
    } else {
      RefreshesAreWrites(init, events[..|events| - 1]);
      MoveCounts(FleetAfter(init, events[..|events| - 1]), events[|events| - 1]);
    }
  }

  /** The clock never gives a Subscription the same time twice. */
  ghost predicate FreshEvents(init: map<string, Found>, events: seq<Event>) {
    forall i :: 0 <= i < |events| && events[i].name in FleetAfter(init, events[..i]).subs ==>
      FreshStep(FleetAfter(init, events[..i]).subs[events[i].name], events[i].step)
  }

  lemma FreshBefore(init: map<string, Found>, events: seq<Event>, n: nat)
    requires n <= |events| && FreshEvents(init, events)
    ensures FreshEvents(init, events[..n])
  {
    assert forall i :: 0 <= i < n ==> events[..n][..i] == events[..i] && events[..n][i] == events[i];
  }

  /** One Subscription's writes are answered or outstanding. */
  ghost predicate Balanced(s: State, found: Found) {
    Inv(s) && s.writes + One(Outstanding(found.annotation, found.last)) == s.answered + One(s.Open())
  }

  lemma {:induction false} EachBalances(init: map<string, Found>, events: seq<Event>)
    requires FreshEvents(init, events)
    ensures var f := FleetAfter(init, events);
            f.subs.Keys == init.Keys && forall k :: k in f.subs ==> Balanced(f.subs[k], init[k])
  {
    if events != [] {
      var n := |events| - 1;
      var f, e := FleetAfter(init, events[..n]), events[n];
      FreshBefore(init, events, n);
      EachBalances(init, events[..n]);
      if e.name in f.subs {
        StepKeeps(f.subs[e.name], e.step);
      }
    }
  }

  /** So it never exceeds the requests the reconciler answered by more than one a Subscription. */
  lemma RefreshesBounded(init: map<string, Found>, events: seq<Event>)
    requires FreshEvents(init, events)
    ensures var f := FleetAfter(init, events); f.refreshes <= Sum(AnsweredOf(f.subs)) + |init|
  {
    var f := FleetAfter(init, events);
    RefreshesAreWrites(init, events);
    EachBalances(init, events);
    SumBound(WritesOf(f.subs), AnsweredOf(f.subs));
    assert WritesOf(f.subs).Keys == init.Keys;
    assert |WritesOf(f.subs)| == |WritesOf(f.subs).Keys| == |init.Keys|;
  }
}
