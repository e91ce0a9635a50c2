/**
 The limiter in its fast form, as a refinement of SlotSpec. `spaces` splits the one queue by
 namespace; `ready` holds candidates, among them always the one SlotSpec would pick next, and also
 outdated ones. Every operation is proved equal to its step in SlotSpec.
 */
module SlotLimiter {
  import opened SlotSpec

  datatype NsQueue = NsQueue(used: int, queue: seq<Waiter>)
  type Spaces = map<string, NsQueue>
  datatype Entry = Entry(ns: string, arrived: nat)

  function QueueIn(spaces: Spaces, n: string): seq<Waiter> {
    if n in spaces then spaces[n].queue else []
  }

  function UsedIn(spaces: Spaces, n: string): int {
    if n in spaces then spaces[n].used else 0
  }

  predicate Eligible(c: Caps, q: NsQueue) {
    q.used < c.perNs && q.queue != []
  }

  // ---------- How the fields stand for the one queue ----------

  ghost predicate Counts(spaces: Spaces, total: int, s: Slots) {
    total == InUse(s) && forall n :: UsedIn(spaces, n) == Load(s, n)
  }

  /** A namespace's part of the one queue. */
  ghost predicate PartOf(q: seq<Waiter>, ws: seq<Waiter>, n: string) {
    Arriving(q) && forall w :: w in q <==> w in ws && w.key.ns == n
  }

  /** Each namespace's queue is its part of the one queue. */
  ghost predicate Linked(spaces: Spaces, s: Slots) {
    forall n :: PartOf(QueueIn(spaces, n), s.waiters, n)
  }

  /** The index finds every waiter by its key. */
  ghost predicate Indexed(waiting: map<Key, nat>, s: Slots) {
    && (forall w :: w in s.waiters ==> w.key in waiting && waiting[w.key] == w.arrived)
    && (forall k :: k in waiting ==> Waiter(k, waiting[k]) in s.waiters)
  }

  /** `ready` misses nobody: the head of every eligible queue is in it. */
  ghost predicate Covered(c: Caps, spaces: Spaces, ready: multiset<Entry>) {
    forall n :: n in spaces && Eligible(c, spaces[n]) ==> Entry(n, spaces[n].queue[0].arrived) in ready
  }

  predicate InEmpty(q: NsQueue) {
    q.used == 0 && q.queue == []
  }

  /** No entry of `spaces` is empty, except perhaps this one. */
  ghost predicate TidyBut(spaces: Spaces, name: string) {
    forall n :: n in spaces && n != name ==> !InEmpty(spaces[n])
  }

  // ---------- The heap ----------

  predicate Least(ready: multiset<Entry>, e: Entry) {
    e in ready && forall f :: f in ready ==> e.arrived <= f.arrived
  }

  lemma {:induction false} LeastExists(ready: multiset<Entry>)
    requires ready != multiset{}
    ensures exists e :: Least(ready, e)
    decreases |ready|
  {
    var f :| f in ready;
    var rest := ready - multiset{f};
    assert forall g :: g in ready ==> g == f || g in rest;
    if rest == multiset{} {
      assert Least(ready, f);
    } else {
      LeastExists(rest);
      var e :| Least(rest, e);
      assert Least(ready, if f.arrived < e.arrived then f else e);
    }
  }

  /** The least entry, unless outdated, is the waiter SlotSpec picks. */
  lemma FrontIsNext(c: Caps, spaces: Spaces, total: int, ready: multiset<Entry>, s: Slots, e: Entry)
    requires Orderly(s) && Counts(spaces, total, s) && Linked(spaces, s) && Covered(c, spaces, ready) && Least(ready, e)
    requires e.ns in spaces && Eligible(c, spaces[e.ns]) && spaces[e.ns].queue[0].arrived == e.arrived
    ensures Next(c, s, 0) < |s.waiters| && s.waiters[Next(c, s, 0)] == spaces[e.ns].queue[0]
  {
    var w, n := spaces[e.ns].queue[0], Next(c, s, 0);
    FrontMayGo(c, spaces, total, s, e.ns);
    var i :| 0 <= i < |s.waiters| && s.waiters[i] == w;
    assert n <= i;
    EntryNotLater(c, spaces, total, ready, s, e, s.waiters[n]);
    SameArrival(s, n, i);
  }

  lemma FrontMayGo(c: Caps, spaces: Spaces, total: int, s: Slots, ns: string)
    requires Counts(spaces, total, s) && Linked(spaces, s) && ns in spaces && Eligible(c, spaces[ns])
    ensures spaces[ns].queue[0] in s.waiters && spaces[ns].queue[0].key.ns == ns && Under(c, s, ns)
  {
    assert PartOf(QueueIn(spaces, ns), s.waiters, ns);
    assert spaces[ns].queue[0] in QueueIn(spaces, ns);
    assert UsedIn(spaces, ns) == Load(s, ns);
  }

  lemma EntryNotLater(c: Caps, spaces: Spaces, total: int, ready: multiset<Entry>, s: Slots, e: Entry, x: Waiter)
    requires Counts(spaces, total, s) && Linked(spaces, s) && Covered(c, spaces, ready) && Least(ready, e)
    requires x in s.waiters && Under(c, s, x.key.ns)
    ensures e.arrived <= x.arrived
  {
    UnderIsEligible(c, spaces, total, s, x);
    FrontFirst(spaces, x);
    assert Entry(x.key.ns, spaces[x.key.ns].queue[0].arrived) in ready;
  }

  lemma SameArrival(s: Slots, n: nat, i: nat)
    requires Orderly(s) && n <= i < |s.waiters| && s.waiters[i].arrived <= s.waiters[n].arrived
    ensures n == i
  {
  }

  lemma UnderIsEligible(c: Caps, spaces: Spaces, total: int, s: Slots, x: Waiter)
    requires Counts(spaces, total, s) && Linked(spaces, s) && x in s.waiters && Under(c, s, x.key.ns)
    ensures x.key.ns in spaces && Eligible(c, spaces[x.key.ns]) && x in spaces[x.key.ns].queue &&
            Arriving(spaces[x.key.ns].queue)
  {
    assert PartOf(QueueIn(spaces, x.key.ns), s.waiters, x.key.ns);
    assert UsedIn(spaces, x.key.ns) == Load(s, x.key.ns);
  }

  lemma FrontFirst(spaces: Spaces, x: Waiter)
    requires x.key.ns in spaces && x in spaces[x.key.ns].queue && Arriving(spaces[x.key.ns].queue)
    ensures spaces[x.key.ns].queue[0].arrived <= x.arrived
  {
    var q := spaces[x.key.ns].queue;
    var j :| 0 <= j < |q| && q[j] == x;
    assert j == 0 || q[0].arrived < q[j].arrived;
  }

  /** With no entry left nobody can take a slot. */
  lemma NoneReady(c: Caps, spaces: Spaces, total: int, s: Slots)
    requires Counts(spaces, total, s) && Linked(spaces, s) && Covered(c, spaces, multiset{})
    ensures !Dispatchable(c, s)
  {
    var n := Next(c, s, 0);
    if n < |s.waiters| {
      UnderIsEligible(c, spaces, total, s, s.waiters[n]);
      assert false;
    }
  }

  // ---------- How one namespace's change carries over ----------

  lemma CountsMore(spaces: Spaces, total: int, s: Slots, t: Slots, n: string, q: NsQueue)
    requires Counts(spaces, total, s) && Taken(s, t, n) && q.used == UsedIn(spaces, n) + 1
    ensures Counts(spaces[n := q], total + 1, t)
  {
    forall m
      ensures UsedIn(spaces[n := q], m) == Load(t, m)
    {
      assert UsedIn(spaces, m) == Load(s, m);
    }
  }

  lemma CountsLess(spaces: Spaces, total: int, s: Slots, t: Slots, n: string, q: NsQueue)
    requires Counts(spaces, total, s) && Taken(t, s, n) && q.used == UsedIn(spaces, n) - 1
    ensures Counts(spaces[n := q], total - 1, t)
  {
    forall m
      ensures UsedIn(spaces[n := q], m) == Load(t, m)
    {
      assert UsedIn(spaces, m) == Load(s, m);
    }
  }

  lemma CountsSame(spaces: Spaces, total: int, s: Slots, t: Slots, n: string, q: NsQueue)
    requires Counts(spaces, total, s) && t.running == s.running && t.reserved == s.reserved &&
             q.used == UsedIn(spaces, n)
    ensures Counts(spaces[n := q], total, t)
  {
    SameUse(s, t);
    forall m
      ensures UsedIn(spaces[n := q], m) == Load(t, m)
    {
      assert UsedIn(spaces, m) == Load(s, m);
    }
  }

  /** One waiter is gone from the one queue. */
  ghost predicate Gone(s: Slots, t: Slots, w: Waiter) {
    forall x :: x in t.waiters <==> x in s.waiters && x != w
  }

  lemma WithoutIsGone(s: Slots, t: Slots, i: nat)
    requires Orderly(s) && i < |s.waiters| && t.waiters == Without(s.waiters, i)
    ensures Gone(s, t, s.waiters[i])
  {
    var ws, w := t.waiters, s.waiters[i];
    assert forall j :: 0 <= j < |ws| ==> ws[j] == s.waiters[if j < i then j else j + 1];
    forall x | x in s.waiters && x != w
      ensures x in ws
    {
      StillWaits(s, i, x);
    }
  }

  lemma LinkedGone(spaces: Spaces, s: Slots, t: Slots, w: Waiter, q: NsQueue)
    requires Linked(spaces, s) && Gone(s, t, w) && Arriving(q.queue)
    requires forall x :: x in q.queue <==> x in QueueIn(spaces, w.key.ns) && x != w
    ensures Linked(spaces[w.key.ns := q], t)
  {
    var spaces' := spaces[w.key.ns := q];
    forall n
      ensures PartOf(QueueIn(spaces', n), t.waiters, n)
    {
      assert PartOf(QueueIn(spaces, n), s.waiters, n);
    }
  }

  lemma SortedMore(q: seq<Waiter>, s: Slots, w: Waiter)
    requires PartOf(q, s.waiters, w.key.ns) && Orderly(s) && w.arrived > s.clock
    ensures PartOf(q + [w], s.waiters + [w], w.key.ns)
  {
    forall i | 0 <= i < |q|
      ensures q[i].arrived < w.arrived
    {
      assert q[i] in q;
      var j :| 0 <= j < |s.waiters| && s.waiters[j] == q[i];
    }
  }

  lemma LinkedMore(spaces: Spaces, s: Slots, t: Slots, w: Waiter, q: NsQueue)
    requires Linked(spaces, s) && Orderly(s) && w.arrived > s.clock
    requires t.waiters == s.waiters + [w] && q.queue == QueueIn(spaces, w.key.ns) + [w]
    ensures Linked(spaces[w.key.ns := q], t)
  {
    var spaces' := spaces[w.key.ns := q];
    forall n
      ensures PartOf(QueueIn(spaces', n), t.waiters, n)
    {
      assert PartOf(QueueIn(spaces, n), s.waiters, n);
      if n == w.key.ns {
        SortedMore(QueueIn(spaces, n), s, w);
      }
    }
  }

  lemma LinkedSame(spaces: Spaces, s: Slots, t: Slots, n: string, q: NsQueue)
    requires Linked(spaces, s) && t.waiters == s.waiters && q.queue == QueueIn(spaces, n)
    ensures Linked(spaces[n := q], t)
  {
    var spaces' := spaces[n := q];
    forall m
      ensures PartOf(QueueIn(spaces', m), t.waiters, m)
    {
      assert PartOf(QueueIn(spaces, m), s.waiters, m);
    }
  }

  lemma IndexedGone(waiting: map<Key, nat>, s: Slots, t: Slots, w: Waiter)
    requires Indexed(waiting, s) && Gone(s, t, w) && Orderly(s) && w in s.waiters
    ensures Indexed(waiting - {w.key}, t)
  {
    forall x | x in t.waiters
      ensures x.key != w.key
    {
      assert x in s.waiters && x != w;
      assert waiting[x.key] == x.arrived && waiting[w.key] == w.arrived;
    }
  }

  lemma CoveredUpdate(c: Caps, spaces: Spaces, ready: multiset<Entry>, n: string, q: NsQueue, ready': multiset<Entry>)
    requires Covered(c, spaces, ready) && forall e :: e in ready && e.ns != n ==> e in ready'
    requires Eligible(c, q) ==> Entry(n, q.queue[0].arrived) in ready'
    ensures Covered(c, spaces[n := q], ready')
  {
  }

  /** The entry is no longer the head of an eligible queue. */
  predicate Stale(c: Caps, spaces: Spaces, e: Entry) {
    e.ns !in spaces || spaces[e.ns].used >= c.perNs || |spaces[e.ns].queue| == 0 ||
      spaces[e.ns].queue[0].arrived != e.arrived
  }

  lemma NotEmptyAgain(spaces: Spaces, n: string, name: string)
    requires TidyBut(spaces, name) && n in spaces && spaces[n].queue != [] && spaces[n].used >= 0
    ensures TidyBut(spaces[n := NsQueue(spaces[n].used + 1, spaces[n].queue[1..])], name)
  {
  }

  lemma StaleDropped(c: Caps, spaces: Spaces, ready: multiset<Entry>, e: Entry)
    requires Covered(c, spaces, ready) && Stale(c, spaces, e)
    ensures Covered(c, spaces, ready - multiset{e})
  {
  }

  /** Forgetting an empty namespace changes nothing. */
  lemma Forgotten(c: Caps, spaces: Spaces, total: int, ready: multiset<Entry>, s: Slots, n: string)
    requires n in spaces && InEmpty(spaces[n])
    requires Counts(spaces, total, s) && Linked(spaces, s) && Covered(c, spaces, ready)
    ensures Counts(spaces - {n}, total, s) && Linked(spaces - {n}, s) && Covered(c, spaces - {n}, ready)
  {
    forall m
      ensures UsedIn(spaces - {n}, m) == Load(s, m) && PartOf(QueueIn(spaces - {n}, m), s.waiters, m)
    {
      assert UsedIn(spaces, m) == Load(s, m) && PartOf(QueueIn(spaces, m), s.waiters, m);
    }
  }

  // ---------- The fields as one value ----------

  datatype Fields = Fields(clock: nat, total: int, spaces: Spaces, waiting: map<Key, nat>, reserved: map<Key, nat>,
                           grants: map<nat, Key>, tickets: nat)

  /** What the fields stand for. */
  ghost predicate Stands(f: Fields, s: Slots) {
    && f.clock == s.clock && f.reserved == s.reserved && f.grants == s.running && f.tickets == s.tickets
    && Orderly(s) && Counts(f.spaces, f.total, s) && Linked(f.spaces, s) && Indexed(f.waiting, s)
  }

  function FrontReserved(f: Fields, n: string): Fields
    requires n in f.spaces && f.spaces[n].queue != []
  {
    var q := f.spaces[n];
    var key := q.queue[0].key;
    f.(spaces := f.spaces[n := NsQueue(q.used + 1, q.queue[1..])], waiting := f.waiting - {key},
       total := f.total + 1, clock := f.clock + 1, reserved := f.reserved[key := f.clock + 1])
  }

  lemma FrontStands(f: Fields, s: Slots, n: string, i: nat)
    requires Stands(f, s) && n in f.spaces && f.spaces[n].queue != [] && i < |s.waiters| &&
             s.waiters[i] == f.spaces[n].queue[0]
    ensures Stands(FrontReserved(f, n), Reserve(s, i))
  {
    var q, t := f.spaces[n], Reserve(s, i);
    var w, q' := q.queue[0], NsQueue(q.used + 1, q.queue[1..]);
    assert PartOf(QueueIn(f.spaces, n), s.waiters, n);
    assert w.key.ns == n;
    ReserveTakes(s, i);
    CountsMore(f.spaces, f.total, s, t, n, q');
    WithoutIsGone(s, t, i);
    RestOf(q.queue);
    LinkedGone(f.spaces, s, t, w, q');
    IndexedGone(f.waiting, s, t, w);
  }

  /** The heap after a namespace is marked, if it could take a slot. */
  function Marked(c: Caps, spaces: Spaces, ready: multiset<Entry>, n: string): multiset<Entry>
    requires n in spaces
  {
    if Eligible(c, spaces[n]) then ready + multiset{Entry(n, spaces[n].queue[0].arrived)} else ready
  }

  /** What holds between the steps of one operation, which may leave one namespace untidy. */
  ghost predicate Good(c: Caps, f: Fields, ready: multiset<Entry>, s: Slots, name: string) {
    Stands(f, s) && Covered(c, f.spaces, ready) && TidyBut(f.spaces, name)
  }

  /** And what holds between operations. */
  ghost predicate Rests(c: Caps, f: Fields, ready: multiset<Entry>, s: Slots) {
    && Stands(f, s) && Covered(c, f.spaces, ready) && Inv(c, s)
    && (forall n :: n in f.spaces ==> !InEmpty(f.spaces[n]))
  }

  /** The fields with one slot of the namespace given back. */
  function SlotFreed(f: Fields, n: string, t: Slots): Fields
    requires n in f.spaces
  {
    f.(spaces := f.spaces[n := NsQueue(f.spaces[n].used - 1, f.spaces[n].queue)], total := f.total - 1,
       reserved := t.reserved, grants := t.running)
  }

  /** t is s with one slot of the namespace given back. */
  ghost predicate GivenBack(s: Slots, t: Slots, n: string) {
    Taken(t, s, n) && Orderly(t) && t == s.(running := t.running, reserved := t.reserved)
  }

  lemma FreedGood(c: Caps, f: Fields, ready: multiset<Entry>, s: Slots, t: Slots, n: string)
    requires Rests(c, f, ready, s) && GivenBack(s, t, n)
    ensures n in f.spaces && Capped(c, t)
    ensures Good(c, SlotFreed(f, n, t), Marked(c, SlotFreed(f, n, t).spaces, ready, n), t, n)
  {
    assert UsedIn(f.spaces, n) == Load(s, n) == Load(t, n) + 1;
    var g, q := SlotFreed(f, n, t), NsQueue(f.spaces[n].used - 1, f.spaces[n].queue);
    CountsLess(f.spaces, f.total, s, t, n, q);
    LinkedSame(f.spaces, s, t, n, q);
    CoveredUpdate(c, f.spaces, ready, n, q, Marked(c, g.spaces, ready, n));
    FewerCapped(c, s, t, n);
  }

  /** A namespace forgotten if it is empty. */
  function Collected(f: Fields, n: string): Fields
    requires n in f.spaces
  {
    if InEmpty(f.spaces[n]) then f.(spaces := f.spaces - {n}) else f
  }

  lemma CollectedRests(c: Caps, f: Fields, ready: multiset<Entry>, s: Slots, n: string)
    requires Good(c, f, ready, s, n) && n in f.spaces && Inv(c, s)
    ensures Rests(c, Collected(f, n), ready, s)
  {
    if InEmpty(f.spaces[n]) {
      Forgotten(c, f.spaces, f.total, ready, s, n);
    }
  }

  lemma FreeRests(c: Caps, f: Fields, ready: multiset<Entry>, t: Slots, s: Slots, n: string)
    requires Good(c, f, ready, s, n) && n in f.spaces && s == SlotSpec.Dispatch(c, t) && Orderly(t) && Capped(c, t)
    ensures Rests(c, Collected(f, n), ready, s)
  {
    DispatchKeeps(c, t);
    CollectedRests(c, f, ready, s, n);
  }

  lemma DroppedGood(c: Caps, f: Fields, ready: multiset<Entry>, s: Slots, name: string, e: Entry)
    requires Good(c, f, ready, s, name) && Stale(c, f.spaces, e)
    ensures Good(c, f, ready - multiset{e}, s, name)
  {
    StaleDropped(c, f.spaces, ready, e);
  }

  lemma ServedStands(c: Caps, f: Fields, ready: multiset<Entry>, s: Slots, e: Entry)
    requires Stands(f, s) && Covered(c, f.spaces, ready) && Least(ready, e) && !Stale(c, f.spaces, e)
    ensures var i := Next(c, s, 0);
            && i < |s.waiters| && s.waiters[i] == f.spaces[e.ns].queue[0]
            && Stands(FrontReserved(f, e.ns), Reserve(s, i))
    ensures f.spaces[e.ns].used >= 0
  {
    FrontIsNext(c, f.spaces, f.total, ready, s, e);
    FrontStands(f, s, e.ns, Next(c, s, 0));
    assert UsedIn(f.spaces, e.ns) == Load(s, e.ns);
  }

  lemma ServedGood(c: Caps, f: Fields, ready: multiset<Entry>, s: Slots, name: string, e: Entry)
    requires Good(c, f, ready, s, name) && Least(ready, e) && !Stale(c, f.spaces, e)
    ensures var i, g := Next(c, s, 0), FrontReserved(f, e.ns);
            && i < |s.waiters| && s.waiters[i] == f.spaces[e.ns].queue[0]
            && Good(c, g, Marked(c, g.spaces, ready - multiset{e}, e.ns), Reserve(s, i), name)
  {
    var g := FrontReserved(f, e.ns);
    ServedStands(c, f, ready, s, e);
    NotEmptyAgain(f.spaces, e.ns, name);
    CoveredUpdate(c, f.spaces, ready, e.ns, g.spaces[e.ns], Marked(c, g.spaces, ready - multiset{e}, e.ns));
  }

  // ---------- The operations on values ----------

  lemma RunningBack(s: Slots, ticket: nat)
    requires Orderly(s) && ticket in s.running
    ensures GivenBack(s, s.(running := s.running - {ticket}), s.running[ticket].ns)
  {
    WithoutRunning(s, ticket);
  }

  lemma ReservedBack(s: Slots, key: Key)
    requires Orderly(s) && key in s.reserved
    ensures GivenBack(s, s.(reserved := s.reserved - {key}), key.ns)
  {
    WithoutReserved(s, key);
  }

  /** A reservation claimed. */
  function Claimed(f: Fields, key: Key): Fields {
    f.(reserved := f.reserved - {key}, grants := f.grants[f.tickets := key], tickets := f.tickets + 1)
  }

  lemma ClaimedRests(c: Caps, f: Fields, ready: multiset<Entry>, s: Slots, key: Key)
    requires Rests(c, f, ready, s) && key in s.reserved
    ensures Rests(c, Claimed(f, key), ready, Apply(c, s, Step.TryAcquire(key)))
  {
    var u, t := s.(reserved := s.reserved - {key}), Apply(c, s, Step.TryAcquire(key));
    AcquireKeeps(c, s, key);
    WithoutReserved(s, key);
    RunningTakes(u, t, s.tickets, key);
    forall n
      ensures UsedIn(f.spaces, n) == Load(t, n)
    {
      assert UsedIn(f.spaces, n) == Load(s, n);
    }
  }

  /** A free slot taken at once. */
  function TakenAtOnce(f: Fields, key: Key): Fields {
    var n := key.ns;
    f.(spaces := f.spaces[n := NsQueue(UsedIn(f.spaces, n) + 1, QueueIn(f.spaces, n))], total := f.total + 1,
       grants := f.grants[f.tickets := key], tickets := f.tickets + 1)
  }

  lemma TakenRests(c: Caps, f: Fields, ready: multiset<Entry>, s: Slots, key: Key)
    requires Rests(c, f, ready, s) && key !in s.reserved && !Waits(s, key)
    requires f.total < c.global && UsedIn(f.spaces, key.ns) < c.perNs
    ensures Rests(c, TakenAtOnce(f, key), ready, Apply(c, s, Step.TryAcquire(key)))
  {
    assert UsedIn(f.spaces, key.ns) == Load(s, key.ns);
    AcquireKeeps(c, s, key);
    TakenStands(f, s, key);
    CoveredUpdate(c, f.spaces, ready, key.ns, TakenAtOnce(f, key).spaces[key.ns], ready);
  }

  lemma TakenStands(f: Fields, s: Slots, key: Key)
    requires Stands(f, s)
    ensures Stands(TakenAtOnce(f, key), Granted(s, key))
  {
    var n, t := key.ns, Granted(s, key);
    var q := NsQueue(UsedIn(f.spaces, n) + 1, QueueIn(f.spaces, n));
    RunningTakes(s, t, s.tickets, key);
    CountsMore(f.spaces, f.total, s, t, n, q);
    LinkedSame(f.spaces, s, t, n, q);
  }

  /** A place at the end of the queue. */
  function QueuedUp(f: Fields, key: Key): Fields {
    var n := key.ns;
    f.(spaces := f.spaces[n := NsQueue(UsedIn(f.spaces, n), QueueIn(f.spaces, n) + [Waiter(key, f.clock + 1)])],
       waiting := f.waiting[key := f.clock + 1], clock := f.clock + 1)
  }

  function ReadyQueued(c: Caps, f: Fields, ready: multiset<Entry>, key: Key): multiset<Entry> {
    if QueueIn(f.spaces, key.ns) == [] then Marked(c, QueuedUp(f, key).spaces, ready, key.ns) else ready
  }

  lemma QueuedStands(f: Fields, s: Slots, key: Key)
    requires Stands(f, s) && key !in s.reserved && !Waits(s, key)
    ensures Stands(QueuedUp(f, key), Queued(s, key))
  {
    var n, t, w := key.ns, Queued(s, key), Waiter(key, s.clock + 1);
    var q := NsQueue(UsedIn(f.spaces, n), QueueIn(f.spaces, n) + [w]);
    OrderlyQueued(s, key);
    CountsSame(f.spaces, f.total, s, t, n, q);
    LinkedMore(f.spaces, s, t, w, q);
    IndexedMore(f.waiting, s, t, w);
  }

  lemma IndexedMore(waiting: map<Key, nat>, s: Slots, t: Slots, w: Waiter)
    requires Indexed(waiting, s) && t.waiters == s.waiters + [w] && !Waits(s, w.key)
    ensures Indexed(waiting[w.key := w.arrived], t)
  {
    forall x | x in s.waiters
      ensures x.key != w.key
    {
      var i :| 0 <= i < |s.waiters| && s.waiters[i] == x;
    }
  }

  lemma QueuedRests(c: Caps, f: Fields, ready: multiset<Entry>, s: Slots, key: Key)
    requires Rests(c, f, ready, s) && key !in s.reserved && !Waits(s, key)
    requires f.total >= c.global || UsedIn(f.spaces, key.ns) >= c.perNs
    ensures Rests(c, QueuedUp(f, key), ReadyQueued(c, f, ready, key), Apply(c, s, Step.TryAcquire(key)))
  {
    var n := key.ns;
    assert UsedIn(f.spaces, n) == Load(s, n);
    AcquireKeeps(c, s, key);
    QueuedStands(f, s, key);
    CoveredUpdate(c, f.spaces, ready, n, QueuedUp(f, key).spaces[n], ReadyQueued(c, f, ready, key));
  }

  lemma UsedIsLoad(f: Fields, s: Slots, n: string)
    requires Stands(f, s)
    ensures UsedIn(f.spaces, n) == Load(s, n) && f.total == InUse(s)
  {
  }

  /** The place of a waiter in its namespace's queue. */
  function IndexOf(q: seq<Waiter>, arrived: nat): (j: nat)
    ensures j <= |q|
    ensures j < |q| ==> q[j].arrived == arrived
    ensures (exists i :: 0 <= i < |q| && q[i].arrived == arrived) ==> j < |q|
  {
    if q == [] || q[0].arrived == arrived then 0 else 1 + IndexOf(q[1..], arrived)
  }

  function LeftQueue(f: Fields, key: Key, j: nat): Fields
    requires key.ns in f.spaces && j < |f.spaces[key.ns].queue|
  {
    var q := f.spaces[key.ns];
    f.(spaces := f.spaces[key.ns := NsQueue(q.used, SlotSpec.Without(q.queue, j))], waiting := f.waiting - {key})
  }

  function ReadyLeft(c: Caps, f: Fields, ready: multiset<Entry>, key: Key, j: nat): multiset<Entry>
    requires key.ns in f.spaces && j < |f.spaces[key.ns].queue|
  {
    if j == 0 then Marked(c, LeftQueue(f, key, j).spaces, ready, key.ns) else ready
  }

  /** The index leads to the waiter. */
  lemma WaiterFound(f: Fields, s: Slots, key: Key)
    requires Stands(f, s) && key in f.waiting
    ensures Waits(s, key) && PlaceOf(s.waiters, key) < |s.waiters| &&
            s.waiters[PlaceOf(s.waiters, key)] == Waiter(key, f.waiting[key])
    ensures key.ns in f.spaces && Waiter(key, f.waiting[key]) in f.spaces[key.ns].queue &&
            Arriving(f.spaces[key.ns].queue)
  {
    var w := Waiter(key, f.waiting[key]);
    assert w in s.waiters;
    var i :| 0 <= i < |s.waiters| && s.waiters[i] == w;
    PlaceFound(s, key);
    assert PartOf(QueueIn(f.spaces, key.ns), s.waiters, key.ns);
  }

  lemma SortedWithout(q: seq<Waiter>, w: Waiter, j: nat)
    requires Arriving(q) && w in q && j < |q| && q[j].arrived == w.arrived
    ensures q[j] == w && Arriving(SlotSpec.Without(q, j))
    ensures forall x :: x in SlotSpec.Without(q, j) <==> x in q && x != w
  {
    var i :| 0 <= i < |q| && q[i] == w;
    assert i == j;
    var rest := SlotSpec.Without(q, j);
    forall x | x in q && x != w
      ensures x in rest
    {
      var k :| 0 <= k < |q| && q[k] == x;
      assert rest[if k < j then k else k - 1] == x;
    }
  }

  lemma LeftStands(f: Fields, s: Slots, key: Key, j: nat)
    requires Stands(f, s) && key in f.waiting && key.ns in f.spaces
    requires j < |f.spaces[key.ns].queue| && f.spaces[key.ns].queue[j].arrived == f.waiting[key]
    ensures PlaceOf(s.waiters, key) < |s.waiters|
    ensures Stands(LeftQueue(f, key, j), s.(waiters := SlotSpec.Without(s.waiters, PlaceOf(s.waiters, key))))
  {
    WaiterFound(f, s, key);
    var i, w, q := PlaceOf(s.waiters, key), Waiter(key, f.waiting[key]), f.spaces[key.ns];
    var t, q' := s.(waiters := SlotSpec.Without(s.waiters, i)), NsQueue(q.used, SlotSpec.Without(q.queue, j));
    SortedWithout(q.queue, w, j);
    OrderlyWithout(s, t, i);
    CountsSame(f.spaces, f.total, s, t, key.ns, q');
    LinkedGone(f.spaces, s, t, w, q');
    IndexedGone(f.waiting, s, t, w);
  }

  lemma OrderlyWithout(s: Slots, t: Slots, i: nat)
    requires Orderly(s) && i < |s.waiters| && t == s.(waiters := SlotSpec.Without(s.waiters, i))
    ensures Orderly(t) && Gone(s, t, s.waiters[i])
  {
    WithoutIsGone(s, t, i);
  }

  lemma LeftGood(c: Caps, f: Fields, ready: multiset<Entry>, s: Slots, key: Key, j: nat)
    requires Rests(c, f, ready, s) && key in f.waiting && key.ns in f.spaces
    requires j < |f.spaces[key.ns].queue| && f.spaces[key.ns].queue[j].arrived == f.waiting[key]
    ensures Waits(s, key) && Inv(c, Apply(c, s, Step.Cancel(key)))
    ensures Good(c, LeftQueue(f, key, j), ReadyLeft(c, f, ready, key, j), Apply(c, s, Step.Cancel(key)), key.ns)
  {
    WaiterFound(f, s, key);
    LeftStands(f, s, key, j);
    CancelKeeps(c, s, key);
    var g := LeftQueue(f, key, j);
    CoveredUpdate(c, f.spaces, ready, key.ns, g.spaces[key.ns], ReadyLeft(c, f, ready, key, j));
  }

  lemma LeftRests(c: Caps, f: Fields, ready: multiset<Entry>, s: Slots, key: Key, j: nat)
    requires Rests(c, f, ready, s) && key in f.waiting && key.ns in f.spaces
    requires j < |f.spaces[key.ns].queue| && f.spaces[key.ns].queue[j].arrived == f.waiting[key]
    ensures Rests(c, Collected(LeftQueue(f, key, j), key.ns), ReadyLeft(c, f, ready, key, j),
                  Apply(c, s, Step.Cancel(key)))
  {
    LeftGood(c, f, ready, s, key, j);
    CollectedRests(c, LeftQueue(f, key, j), ReadyLeft(c, f, ready, key, j), Apply(c, s, Step.Cancel(key)), key.ns);
  }

  lemma NotWaiting(f: Fields, s: Slots, key: Key)
    requires Stands(f, s) && key !in f.waiting
    ensures !Waits(s, key)
  {
  }

  // ---------- The limiter ----------

  class Limiter {
    const caps: Caps
    var clock: nat
    var total: int
    var spaces: Spaces
    var waiting: map<Key, nat>       // the arrival of the key's element in its queue
    var reserved: map<Key, nat>
    var ready: multiset<Entry>
    var grants: map<nat, Key>        // the release functions handed out and not called yet
    var tickets: nat
    ghost var spec: Slots

    constructor (caps: Caps)
      ensures this.caps == caps && Valid() && spec == EMPTY
    {
      this.caps := caps;
      clock, total, tickets := 0, 0, 0;
      spaces, waiting, reserved, ready, grants := map[], map[], map[], multiset{}, map[];
      spec := EMPTY;
      new;
      EmptyIsIdle(caps);
    }

    function View(): Fields
      reads this
    {
      Fields(clock, total, spaces, waiting, reserved, grants, tickets)
    }

    ghost predicate Valid()
      reads this
    {
      Rests(caps, View(), ready, spec)
    }

    /** Adds the head of the queue to `ready` if the queue is eligible. */
    method MarkReady(n: string)
      requires n in spaces
      modifies this`ready
      ensures ready == Marked(caps, spaces, old(ready), n)
    {
      var q := spaces[n];
      if q.used < caps.perNs && |q.queue| > 0 {
        ready := ready + multiset{Entry(n, q.queue[0].arrived)};
      }
    }

    method Pop() returns (e: Entry)
      requires ready != multiset{}
      modifies this`ready
      ensures Least(old(ready), e) && ready == old(ready) - multiset{e}
    {
      LeastExists(ready);
      e :| e in ready && Least(ready, e);
      ready := ready - multiset{e};
    }

    /** Moves the head of the queue to `reserved`. */
    method ReserveFront(n: string) returns (key: Key)
      requires n in spaces && spaces[n].queue != []
      modifies this`spaces, this`waiting, this`total, this`clock, this`reserved, this`ready
      ensures View() == FrontReserved(old(View()), n) && key == old(spaces[n].queue[0].key)
      ensures ready == Marked(caps, View().spaces, old(ready), n)
    {
      var q := spaces[n];
      key := q.queue[0].key;
      waiting := waiting - {key};
      spaces := spaces[n := NsQueue(q.used + 1, q.queue[1..])];
      total := total + 1;
      clock := clock + 1;
      reserved := reserved[key := clock];
      MarkReady(n);
    }

    /** One turn of the loop: the least entry is popped, and dropped or served. */
    method Turn(ghost name: string) returns (wake: seq<Key>)
      requires Good(caps, View(), ready, spec, name) && ready != multiset{}
      modifies this
      ensures Good(caps, View(), ready, spec, name) && spaces.Keys == old(spaces).Keys
      ensures Turned(caps, old(spec), spec, wake) && (wake == [] ==> |ready| < |old(ready)|)
    {
      ghost var f, before, s := View(), ready, spec;
      var e := Pop();
      if Stale(caps, spaces, e) {
        DroppedGood(caps, f, before, s, name, e);
        return [];
      }
      wake := Serve(e, before, name);
    }

    method Serve(e: Entry, ghost before: multiset<Entry>, ghost name: string) returns (wake: seq<Key>)
      requires Good(caps, View(), before, spec, name)
      requires Least(before, e) && ready == before - multiset{e} && !Stale(caps, spaces, e)
      modifies this
      ensures Good(caps, View(), ready, spec, name) && spaces.Keys == old(spaces).Keys
      ensures Turned(caps, old(spec), spec, wake) && wake != []
    {
      ServedGood(caps, View(), before, spec, name, e);
      spec := Reserve(spec, Next(caps, spec, 0));
      var key := ReserveFront(e.ns);
      wake := [key];
    }

    /** Ends in the state, and with the list of keys, that SlotSpec.Dispatch gives. */
    method Dispatch(ghost name: string) returns (wake: seq<Key>)
      requires Good(caps, View(), ready, spec, name)
      modifies this
      ensures Good(caps, View(), ready, spec, name) && spaces.Keys == old(spaces).Keys
      ensures spec == SlotSpec.Dispatch(caps, old(spec)) && wake == Woken(caps, old(spec))
    {
      wake := [];
      while total < caps.global && ready != multiset{}
        invariant Good(caps, View(), ready, spec, name) && spaces.Keys == old(spaces).Keys
        invariant Leads(caps, old(spec), wake, spec)
        decreases |spec.waiters|, |ready|
      {
        TotalIsUse(View(), spec);
        ghost var s := spec;
        var woken := Turn(name);
        LeadsOn(caps, old(spec), wake, s, spec, woken);
        wake := wake + woken;
      }
      DispatchDone(caps, View(), ready, spec, name);
    }

    /** Drops the entry of `spaces` if it is empty. */
    method Collect(n: string)
      requires n in spaces
      modifies this`spaces
      ensures View() == Collected(old(View()), n)
    {
      var q := spaces[n];
      if q.used == 0 && |q.queue| == 0 {
        spaces := spaces - {n};
      }
    }

    /** The second half of every operation that ends a holding: `spec` has lost the holder already,
        `s` and `f` still have it; the counts follow, and then the dispatch. */
    method Free(n: string, ghost f: Fields, ghost s: Slots) returns (wake: seq<Key>)
      requires Rests(caps, f, ready, s) && GivenBack(s, spec, n) &&
               View() == f.(reserved := spec.reserved, grants := spec.running)
      modifies this
      ensures Valid() && spec == SlotSpec.Dispatch(caps, old(spec)) && wake == Woken(caps, old(spec))
    {
      ghost var t := spec;
      FreedGood(caps, f, ready, s, t, n);
      GiveBack(n);
      wake := Dispatch(n);
      FreeRests(caps, View(), ready, t, spec, n);
      Collect(n);
    }

    /** One step of SlotSpec, TryAcquire; a new ticket says that it succeeded. */
    method TryAcquire(key: Key) returns (ok: bool, ticket: nat)
      requires Valid()
      modifies this
      ensures Valid() && spec == Apply(caps, old(spec), Step.TryAcquire(key))
      ensures ok <==> MayRun(caps, old(spec), key)
      ensures ok ==> ticket !in old(spec).running && spec.running == old(spec).running[ticket := key]
      ensures !ok ==> spec.running == old(spec).running && Waits(spec, key)
    {
      AcquireExactly(caps, spec, key);
      ticket := tickets;
      if key in reserved {
        Claim(key);
        ok := true;
      } else if key in waiting {
        WaiterFound(View(), spec, key);
        ok := false;
      } else {
        NotWaiting(View(), spec, key);
        ok := AskNew(key);
      }
    }

    /** The reservation becomes a grant. */
    method Claim(key: Key)
      requires Valid() && key in reserved
      modifies this
      ensures Valid() && spec == Apply(caps, old(spec), Step.TryAcquire(key))
    {
      ghost var f, s := View(), spec;
      ClaimedRests(caps, f, ready, s, key);
      spec := Apply(caps, s, Step.TryAcquire(key));
      reserved := reserved - {key};
      grants, tickets := grants[tickets := key], tickets + 1;
    }

    /** A key with no slot reserved that is not waiting. */
    method AskNew(key: Key) returns (ok: bool)
      requires Valid() && key !in reserved && !Waits(spec, key)
      modifies this
      ensures Valid() && spec == Apply(caps, old(spec), Step.TryAcquire(key))
      ensures ok <==> spec.tickets > old(spec).tickets
      ensures ok ==> spec.running == old(spec).running[old(tickets) := key]
    {
      var q := if key.ns in spaces then spaces[key.ns] else NsQueue(0, []);
      UsedIsLoad(View(), spec, key.ns);
      if total >= caps.global || q.used >= caps.perNs {
        Wait(key, q);
        return false;
      }
      TakeFree(key, q);
      return true;
    }

    method Wait(key: Key, q: NsQueue)
      requires Valid() && key !in reserved && !Waits(spec, key) &&
               q == NsQueue(UsedIn(spaces, key.ns), QueueIn(spaces, key.ns))
      requires total >= caps.global || UsedIn(spaces, key.ns) >= caps.perNs
      modifies this
      ensures Valid() && spec == Queued(old(spec), key)
    {
      ghost var f, s := View(), spec;
      UsedIsLoad(f, s, key.ns);
      QueuedRests(caps, f, ready, s, key);
      spec := Queued(s, key);
      QueueUp(key, q);
    }

    method TakeFree(key: Key, q: NsQueue)
      requires Valid() && key !in reserved && !Waits(spec, key) &&
               q == NsQueue(UsedIn(spaces, key.ns), QueueIn(spaces, key.ns))
      requires total < caps.global && UsedIn(spaces, key.ns) < caps.perNs
      modifies this
      ensures Valid() && spec == Granted(old(spec), key)
    {
      ghost var f, s := View(), spec;
      UsedIsLoad(f, s, key.ns);
      TakenRests(caps, f, ready, s, key);
      spec := Granted(s, key);
      TakeSlot(key, q);
    }

    method QueueUp(key: Key, q: NsQueue)
      requires q == NsQueue(UsedIn(spaces, key.ns), QueueIn(spaces, key.ns))
      modifies this`clock, this`spaces, this`waiting, this`ready
      ensures View() == QueuedUp(old(View()), key) && ready == ReadyQueued(caps, old(View()), old(ready), key)
    {
      clock := clock + 1;
      spaces := spaces[key.ns := NsQueue(q.used, q.queue + [Waiter(key, clock)])];
      waiting := waiting[key := clock];
      if |q.queue| + 1 == 1 {
        MarkReady(key.ns);
      }
    }

    method TakeSlot(key: Key, q: NsQueue)
      requires q == NsQueue(UsedIn(spaces, key.ns), QueueIn(spaces, key.ns))
      modifies this`spaces, this`total, this`grants, this`tickets
      ensures View() == TakenAtOnce(old(View()), key)
    {
      spaces := spaces[key.ns := NsQueue(q.used + 1, q.queue)];
      total := total + 1;
      grants, tickets := grants[tickets := key], tickets + 1;
    }

    /** The release function of a grant; calling it again does nothing. */
    method Release(ticket: nat) returns (wake: seq<Key>)
      requires Valid()
      modifies this
      ensures Valid() && spec == Apply(caps, old(spec), Step.Release(ticket))
      ensures wake == WokenBy(caps, old(spec), Step.Release(ticket))
    {
      if ticket !in grants {
        return [];
      }
      ghost var f, s := View(), spec;
      var key := grants[ticket];
      RunningBack(s, ticket);
      spec := s.(running := s.running - {ticket});
      grants := grants - {ticket};
      wake := Free(key.ns, f, s);
    }

    /** A reservation's timer fires; one that was claimed or made again meanwhile stays. */
    method Expire(key: Key, gen: nat) returns (wake: seq<Key>)
      requires Valid()
      modifies this
      ensures Valid() && spec == Apply(caps, old(spec), Step.Expire(key, gen))
      ensures wake == WokenBy(caps, old(spec), Step.Expire(key, gen))
    {
      if key !in reserved || reserved[key] != gen {
        return [];
      }
      wake := Unreserve(key);
    }

    method Unreserve(key: Key) returns (wake: seq<Key>)
      requires Valid() && key in reserved
      modifies this
      ensures Valid() && spec == SlotSpec.Dispatch(caps, old(spec).(reserved := old(spec).reserved - {key}))
      ensures wake == Woken(caps, old(spec).(reserved := old(spec).reserved - {key}))
    {
      ghost var f, s := View(), spec;
      ReservedBack(s, key);
      spec := s.(reserved := s.reserved - {key});
      reserved := reserved - {key};
      wake := Free(key.ns, f, s);
    }

    /** One step of SlotSpec, Cancel; the two branches exclude each other. */
    method Cancel(key: Key) returns (wake: seq<Key>)
      requires Valid()
      modifies this
      ensures Valid() && spec == Apply(caps, old(spec), Step.Cancel(key))
      ensures wake == WokenBy(caps, old(spec), Step.Cancel(key))
    {
      if key in waiting {
        WaiterFound(View(), spec, key);
        LeaveQueue(key);
        return [];
      }
      NotWaiting(View(), spec, key);
      if key in reserved {
        wake := Unreserve(key);
      } else {
        wake := [];
      }
    }

    method LeaveQueue(key: Key)
      requires Valid() && key in waiting
      modifies this
      ensures Valid() && spec == Apply(caps, old(spec), Step.Cancel(key))
    {
      ghost var f, s := View(), spec;
      WaiterFound(f, s, key);
      var q := spaces[key.ns];
      var j := IndexOf(q.queue, waiting[key]);
      LeftRests(caps, f, ready, s, key, j);
      spec := Apply(caps, s, Step.Cancel(key));
      Unqueue(key, j);
    }

    method Unqueue(key: Key, j: nat)
      requires key.ns in spaces && j < |spaces[key.ns].queue|
      modifies this`spaces, this`waiting, this`ready
      ensures View() == Collected(LeftQueue(old(View()), key, j), key.ns) &&
              ready == ReadyLeft(caps, old(View()), old(ready), key, j)
    {
      var q := spaces[key.ns];
      spaces := spaces[key.ns := NsQueue(q.used, SlotSpec.Without(q.queue, j))];
      waiting := waiting - {key};
      if j == 0 {
        MarkReady(key.ns);
      }
      Collect(key.ns);
    }

    method GiveBack(n: string)
      requires n in spaces
      modifies this`spaces, this`total, this`ready
      ensures View() == old(View()).(spaces := spaces, total := old(total) - 1)
      ensures spaces == old(spaces)[n := NsQueue(old(spaces[n].used) - 1, old(spaces[n].queue))]
      ensures ready == Marked(caps, spaces, old(ready), n)
    {
      var q := spaces[n];
      spaces := spaces[n := NsQueue(q.used - 1, q.queue)];
      total := total - 1;
      MarkReady(n);
    }
  }

  lemma TotalIsUse(f: Fields, s: Slots)
    requires Stands(f, s)
    ensures f.total == InUse(s)
  {
  }

  /** Nothing happened to the queue, or the waiter whose turn it is got a slot. */
  ghost predicate Turned(c: Caps, s: Slots, t: Slots, wake: seq<Key>) {
    (wake == [] && t == s) ||
    (var i := Next(c, s, 0); i < |s.waiters| && t == Reserve(s, i) && wake == [s.waiters[i].key])
  }

  /** Having woken these on the way from s, the rest of the dispatch is that of t. */
  ghost predicate Leads(c: Caps, s: Slots, wake: seq<Key>, t: Slots) {
    SlotSpec.Dispatch(c, t) == SlotSpec.Dispatch(c, s) && wake + Woken(c, t) == Woken(c, s)
  }

  lemma LeadsOn(c: Caps, s: Slots, wake: seq<Key>, t: Slots, u: Slots, woken: seq<Key>)
    requires Leads(c, s, wake, t) && Turned(c, t, u, woken) && InUse(t) < c.global
    ensures Leads(c, s, wake + woken, u) && |u.waiters| <= |t.waiters| && (woken != [] ==> |u.waiters| < |t.waiters|)
  {
    TurnUnrolls(c, t, u, woken);
    assert wake + (woken + Woken(c, u)) == wake + woken + Woken(c, u);
  }

  lemma TurnUnrolls(c: Caps, t: Slots, u: Slots, woken: seq<Key>)
    requires Turned(c, t, u, woken) && InUse(t) < c.global
    ensures SlotSpec.Dispatch(c, t) == SlotSpec.Dispatch(c, u) && Woken(c, t) == woken + Woken(c, u)
    ensures |u.waiters| <= |t.waiters| && (woken != [] ==> |u.waiters| < |t.waiters|)
  {
    if woken == [] {
      assert [] + Woken(c, t) == Woken(c, t);
    }
  }

  lemma DispatchDone(c: Caps, f: Fields, ready: multiset<Entry>, s: Slots, name: string)
    requires Good(c, f, ready, s, name) && (f.total >= c.global || ready == multiset{})
    ensures SlotSpec.Dispatch(c, s) == s && Woken(c, s) == []
  {
    if f.total < c.global {
      NoneReady(c, f.spaces, f.total, s);
    }
  }

  lemma RestOf(q: seq<Waiter>)
    requires Arriving(q) && q != []
    ensures Arriving(q[1..]) && forall x :: x in q[1..] <==> x in q && x != q[0]
  {
    forall x | x in q && x != q[0]
      ensures x in q[1..]
    {
      var i :| 0 <= i < |q| && q[i] == x;
      assert q[1..][i - 1] == x;
    }
  }

  lemma EmptyIsIdle(c: Caps)
    ensures Inv(c, EMPTY) && forall n :: Load(EMPTY, n) == 0
  {
    forall n
      ensures Load(EMPTY, n) == 0
    {
      assert RunningIn(EMPTY, n) == {} && ReservedIn(EMPTY, n) == {};
    }
  }
}
