/**
 What pkg/slots promises, in its simplest form: a state with one queue for everybody, in which each
 operation is one step. Everything about fairness is proved here.
 */
module SlotSpec {
  import opened Timeline

  datatype Key = Key(ns: string, name: string)
  datatype Caps = Caps(global: int, perNs: int)
  datatype Waiter = Waiter(key: Key, arrived: nat)

  /** Who runs, by the ticket a grant gives and its release takes back; for whom a slot is
      reserved, and since when; who waits, in order of arrival. */
  datatype Slots = Slots(running: map<nat, Key>, reserved: map<Key, nat>, waiters: seq<Waiter>, clock: nat,
                         tickets: nat)

  const EMPTY: Slots := Slots(map[], map[], [], 0, 0)

  function RunningIn(s: Slots, ns: string): set<nat> {
    set t | t in s.running && s.running[t].ns == ns
  }

  function ReservedIn(s: Slots, ns: string): set<Key> {
    set k | k in s.reserved && k.ns == ns
  }

  /** How many holders there are: of one namespace, and altogether. */
  function Load(s: Slots, ns: string): nat {
    |RunningIn(s, ns)| + |ReservedIn(s, ns)|
  }

  function InUse(s: Slots): nat {
    |s.running| + |s.reserved|
  }

  predicate Under(c: Caps, s: Slots, ns: string) {
    Load(s, ns) < c.perNs
  }

  /** The index, from i on, of the first waiter with Under; |s.waiters| if there is none. */
  function Next(c: Caps, s: Slots, i: nat): (n: nat)
    requires i <= |s.waiters|
    ensures i <= n <= |s.waiters|
    ensures n < |s.waiters| ==> Under(c, s, s.waiters[n].key.ns)
    ensures forall j :: i <= j < n ==> !Under(c, s, s.waiters[j].key.ns)
    decreases |s.waiters| - i
  {
    if i == |s.waiters| || Under(c, s, s.waiters[i].key.ns) then i else Next(c, s, i + 1)
  }

  predicate Dispatchable(c: Caps, s: Slots) {
    InUse(s) < c.global && Next(c, s, 0) < |s.waiters|
  }

  function Without(ws: seq<Waiter>, i: nat): seq<Waiter>
    requires i < |ws|
  {
    ws[..i] + ws[i + 1..]
  }

  function Reserve(s: Slots, i: nat): Slots
    requires i < |s.waiters|
  {
    s.(waiters := Without(s.waiters, i), reserved := s.reserved[s.waiters[i].key := s.clock + 1], clock := s.clock + 1)
  }

  /** Free slots go to the earliest waiters that may take them. */
  function Dispatch(c: Caps, s: Slots): Slots
    decreases |s.waiters|
  {
    if Dispatchable(c, s) then Dispatch(c, Reserve(s, Next(c, s, 0))) else s
  }

  /** The waiters that get a slot that way, in the order they get it. */
  function Woken(c: Caps, s: Slots): seq<Key>
    decreases |s.waiters|
  {
    if Dispatchable(c, s) then
      [s.waiters[Next(c, s, 0)].key] + Woken(c, Reserve(s, Next(c, s, 0)))
    else []
  }

  predicate Waits(s: Slots, key: Key) {
    exists i :: 0 <= i < |s.waiters| && s.waiters[i].key == key
  }

  function PlaceOf(ws: seq<Waiter>, key: Key): (i: nat)
    ensures i <= |ws|
    ensures i < |ws| ==> ws[i].key == key
    ensures forall j :: 0 <= j < i ==> ws[j].key != key
  {
    if ws == [] || ws[0].key == key then 0 else 1 + PlaceOf(ws[1..], key)
  }

  datatype Step =
    | TryAcquire(key: Key)
    | Release(ticket: nat)           // a second release of the same ticket does nothing
    | Expire(key: Key, gen: nat)     // a reservation's timer fires, perhaps too late
    | Cancel(key: Key)

  function Granted(s: Slots, key: Key): Slots {
    s.(running := s.running[s.tickets := key], tickets := s.tickets + 1)
  }

  function Queued(s: Slots, key: Key): Slots {
    s.(waiters := s.waiters + [Waiter(key, s.clock + 1)], clock := s.clock + 1)
  }

  function Apply(c: Caps, s: Slots, step: Step): Slots {
    match step
    case TryAcquire(key) =>
      if key in s.reserved then Granted(s.(reserved := s.reserved - {key}), key)
      else if Waits(s, key) then s
      else if InUse(s) >= c.global || !Under(c, s, key.ns) then Queued(s, key)
      else Granted(s, key)
    case Release(t) =>
      if t in s.running then Dispatch(c, s.(running := s.running - {t})) else s
    case Expire(key, gen) =>
      if key in s.reserved && s.reserved[key] == gen then Dispatch(c, s.(reserved := s.reserved - {key})) else s
    case Cancel(key) =>
      if Waits(s, key) then s.(waiters := Without(s.waiters, PlaceOf(s.waiters, key)))
      else if key in s.reserved then Dispatch(c, s.(reserved := s.reserved - {key}))
      else s
  }

  function After(c: Caps, steps: seq<Step>): Slots {
    if steps == [] then EMPTY else Apply(c, After(c, steps[..|steps| - 1]), steps[|steps| - 1])
  }

  // ---------- What every step keeps ----------

  /** In order of arrival, each key once and none with a slot reserved; tickets are new. */
  ghost predicate Orderly(s: Slots) {
    && (forall i, j :: 0 <= i < j < |s.waiters| ==>
          s.waiters[i].arrived < s.waiters[j].arrived && s.waiters[i].key != s.waiters[j].key)
    && (forall i :: 0 <= i < |s.waiters| ==> s.waiters[i].arrived <= s.clock && s.waiters[i].key !in s.reserved)
    && (forall t :: t in s.running ==> t < s.tickets)
  }

  /** No more slots in use than either cap allows. */
  ghost predicate Capped(c: Caps, s: Slots) {
    InUse(s) <= Max0(c.global) && forall ns :: Load(s, ns) <= Max0(c.perNs)
  }

  /** Nothing is left to dispatch. */
  ghost predicate Busy(c: Caps, s: Slots) {
    !Dispatchable(c, s)
  }

  ghost predicate Inv(c: Caps, s: Slots) {
    Orderly(s) && Capped(c, s) && Busy(c, s)
  }

  /** One slot more in a namespace. */
  ghost predicate Taken(s: Slots, t: Slots, ns: string) {
    InUse(t) == InUse(s) + 1 && forall n :: Load(t, n) == Load(s, n) + if n == ns then 1 else 0
  }

  lemma SetMore<T>(a: set<T>, x: T)
    requires x !in a
    ensures |a + {x}| == |a| + 1
  {
  }

  lemma ReservedTakesIn(s: Slots, t: Slots, key: Key, gen: nat, ns: string)
    requires key !in s.reserved && t.reserved == s.reserved[key := gen] && t.running == s.running
    ensures Load(t, ns) == Load(s, ns) + if ns == key.ns then 1 else 0
  {
    assert RunningIn(t, ns) == RunningIn(s, ns);
    ReservedInMore(s, t, key, gen, ns);
    if ns == key.ns {
      SetMore(ReservedIn(s, ns), key);
    }
  }

  lemma ReservedInMore(s: Slots, t: Slots, key: Key, gen: nat, ns: string)
    requires key !in s.reserved && t.reserved == s.reserved[key := gen]
    ensures ReservedIn(t, ns) == ReservedIn(s, ns) + if ns == key.ns then {key} else {}
    ensures key !in ReservedIn(s, ns)
  {
  }

  lemma ReservedTakes(s: Slots, t: Slots, key: Key, gen: nat)
    requires key !in s.reserved && t.reserved == s.reserved[key := gen] && t.running == s.running
    ensures Taken(s, t, key.ns)
  {
    assert t.reserved.Keys == s.reserved.Keys + {key};
    forall n
      ensures Load(t, n) == Load(s, n) + if n == key.ns then 1 else 0
    {
      ReservedTakesIn(s, t, key, gen, n);
    }
  }

  lemma RunningTakesIn(s: Slots, t: Slots, ticket: nat, key: Key, ns: string)
    requires ticket !in s.running && t.running == s.running[ticket := key] && t.reserved == s.reserved
    ensures Load(t, ns) == Load(s, ns) + if ns == key.ns then 1 else 0
  {
    assert ReservedIn(t, ns) == ReservedIn(s, ns);
    RunningInMore(s, t, ticket, key, ns);
    if ns == key.ns {
      SetMore(RunningIn(s, ns), ticket);
    }
  }

  lemma RunningInMore(s: Slots, t: Slots, ticket: nat, key: Key, ns: string)
    requires ticket !in s.running && t.running == s.running[ticket := key]
    ensures RunningIn(t, ns) == RunningIn(s, ns) + if ns == key.ns then {ticket} else {}
    ensures ticket !in RunningIn(s, ns)
  {
  }

  lemma RunningTakes(s: Slots, t: Slots, ticket: nat, key: Key)
    requires ticket !in s.running && t.running == s.running[ticket := key] && t.reserved == s.reserved
    ensures Taken(s, t, key.ns)
  {
    assert t.running.Keys == s.running.Keys + {ticket};
    forall n
      ensures Load(t, n) == Load(s, n) + if n == key.ns then 1 else 0
    {
      RunningTakesIn(s, t, ticket, key, n);
    }
  }

  lemma WithoutReserved(s: Slots, key: Key)
    requires key in s.reserved
    ensures Taken(s.(reserved := s.reserved - {key}), s, key.ns)
  {
    var t := s.(reserved := s.reserved - {key});
    assert s.reserved == t.reserved[key := s.reserved[key]];
    ReservedTakes(t, s, key, s.reserved[key]);
  }

  lemma WithoutRunning(s: Slots, ticket: nat)
    requires ticket in s.running
    ensures Taken(s.(running := s.running - {ticket}), s, s.running[ticket].ns)
  {
    var t := s.(running := s.running - {ticket});
    assert s.running == t.running[ticket := s.running[ticket]];
    RunningTakes(t, s, ticket, s.running[ticket]);
  }

  lemma ReserveTakes(s: Slots, i: nat)
    requires Orderly(s) && i < |s.waiters|
    ensures Taken(s, Reserve(s, i), s.waiters[i].key.ns) && Orderly(Reserve(s, i))
  {
    ReservedTakes(s, Reserve(s, i), s.waiters[i].key, s.clock + 1);
  }

  lemma {:induction false} DispatchKeeps(c: Caps, s: Slots)
    requires Orderly(s) && Capped(c, s)
    ensures Inv(c, Dispatch(c, s)) && Dispatch(c, s).running == s.running
    ensures forall ns :: Load(s, ns) <= Load(Dispatch(c, s), ns)
    decreases |s.waiters|
  {
    if Dispatchable(c, s) {
      var n := Next(c, s, 0);
      ReserveTakes(s, n);
      DispatchKeeps(c, Reserve(s, n));
    }
  }

  lemma FewerCapped(c: Caps, s: Slots, t: Slots, ns: string)
    requires Taken(t, s, ns) && Capped(c, s)
    ensures Capped(c, t)
  {
    forall n
      ensures Load(t, n) <= Max0(c.perNs)
    {
      assert Load(s, n) <= Max0(c.perNs);
    }
  }

  lemma PlaceFound(s: Slots, key: Key)
    requires Waits(s, key)
    ensures PlaceOf(s.waiters, key) < |s.waiters|
  {
  }

  /** The same slots in use, and the same waiters from some place on or fewer: still busy. */
  lemma StaysBusy(c: Caps, s: Slots, t: Slots)
    requires Busy(c, s) && InUse(t) >= InUse(s) && (forall ns :: Load(t, ns) >= Load(s, ns))
    requires forall i :: 0 <= i < |t.waiters| ==>
               t.waiters[i] in s.waiters || InUse(t) >= c.global || !Under(c, t, t.waiters[i].key.ns)
    ensures Busy(c, t)
  {
  }

  /** Only the queue differs. */
  lemma SameUse(s: Slots, t: Slots)
    requires t.running == s.running && t.reserved == s.reserved
    ensures InUse(t) == InUse(s) && forall ns :: Load(t, ns) == Load(s, ns)
  {
    assert forall ns :: RunningIn(t, ns) == RunningIn(s, ns) && ReservedIn(t, ns) == ReservedIn(s, ns);
  }

  lemma LeavesQueue(c: Caps, s: Slots, i: nat)
    requires Inv(c, s) && i < |s.waiters|
    ensures Inv(c, s.(waiters := Without(s.waiters, i)))
  {
    var t := s.(waiters := Without(s.waiters, i));
    SameUse(s, t);
    StaysBusy(c, s, t);
  }

  lemma AcquireKeeps(c: Caps, s: Slots, key: Key)
    requires Inv(c, s)
    ensures Inv(c, Apply(c, s, TryAcquire(key)))
  {
    var t := Apply(c, s, TryAcquire(key));
    if key in s.reserved {
      var u := s.(reserved := s.reserved - {key});
      WithoutReserved(s, key);
      RunningTakes(u, t, s.tickets, key);
      StaysBusy(c, s, t);
    } else if !Waits(s, key) && InUse(s) < c.global && Under(c, s, key.ns) {
      RunningTakes(s, t, s.tickets, key);
      StaysBusy(c, s, t);
    } else if !Waits(s, key) {
      QueuedKeeps(c, s, key);
    }
  }

  lemma OrderlyQueued(s: Slots, key: Key)
    requires Orderly(s) && key !in s.reserved && !Waits(s, key)
    ensures Orderly(Queued(s, key))
  {
  }

  lemma QueuedKeeps(c: Caps, s: Slots, key: Key)
    requires Inv(c, s) && key !in s.reserved && !Waits(s, key) && (InUse(s) >= c.global || !Under(c, s, key.ns))
    ensures Inv(c, Queued(s, key))
  {
    var t := Queued(s, key);
    SameUse(s, t);
    StaysBusy(c, s, t);
  }

  lemma CancelKeeps(c: Caps, s: Slots, key: Key)
    requires Inv(c, s)
    ensures Inv(c, Apply(c, s, Cancel(key)))
  {
    if Waits(s, key) {
      PlaceFound(s, key);
      LeavesQueue(c, s, PlaceOf(s.waiters, key));
    } else if key in s.reserved {
      WithoutReserved(s, key);
      FewerCapped(c, s, s.(reserved := s.reserved - {key}), key.ns);
      DispatchKeeps(c, s.(reserved := s.reserved - {key}));
    }
  }

  lemma StepKeeps(c: Caps, s: Slots, step: Step)
    requires Inv(c, s)
    ensures Inv(c, Apply(c, s, step))
  {
    match step
    case TryAcquire(key) => AcquireKeeps(c, s, key);
    case Cancel(key) => CancelKeeps(c, s, key);
    case Release(t) =>
      if t in s.running {
        WithoutRunning(s, t);
        FewerCapped(c, s, s.(running := s.running - {t}), s.running[t].ns);
        DispatchKeeps(c, s.(running := s.running - {t}));
      }
    case Expire(key, gen) =>
      if key in s.reserved {
        WithoutReserved(s, key);
        FewerCapped(c, s, s.(reserved := s.reserved - {key}), key.ns);
        DispatchKeeps(c, s.(reserved := s.reserved - {key}));
      }
  }

  /** Every run stays within both caps and leaves nothing to dispatch. */
  lemma {:induction false} EveryRunKeeps(c: Caps, steps: seq<Step>)
    ensures Inv(c, After(c, steps))
  {
    if steps != [] {
      EveryRunKeeps(c, steps[..|steps| - 1]);
      StepKeeps(c, After(c, steps[..|steps| - 1]), steps[|steps| - 1]);
    }
  }

  // ---------- First come, first served ----------

  /** w got its slot although v, which came earlier, still waits: they are of different namespaces,
      and v's is at its cap. */
  ghost predicate Fair(c: Caps, t: Slots, v: Waiter, w: Waiter) {
    v.key.ns != w.key.ns && !Under(c, t, v.key.ns)
  }

  lemma {:induction false} DispatchShrinks(c: Caps, s: Slots)
    ensures forall v :: v in Dispatch(c, s).waiters ==> v in s.waiters
    decreases |s.waiters|
  {
    if Dispatchable(c, s) {
      DispatchShrinks(c, Reserve(s, Next(c, s, 0)));
    }
  }

  lemma Earlier(s: Slots, v: Waiter, n: nat)
    requires Orderly(s) && v in s.waiters && n < |s.waiters| && v.arrived < s.waiters[n].arrived
    ensures exists i :: 0 <= i < n && s.waiters[i] == v
  {
    var i :| 0 <= i < |s.waiters| && s.waiters[i] == v;
    assert i < n;
  }

  lemma {:induction false} DispatchFair(c: Caps, s: Slots, v: Waiter, w: Waiter)
    requires Orderly(s) && Capped(c, s)
    requires w in s.waiters && w !in Dispatch(c, s).waiters && v in Dispatch(c, s).waiters && v.arrived < w.arrived
    ensures Fair(c, Dispatch(c, s), v, w)
    decreases |s.waiters|
  {
    assert Dispatchable(c, s);
    var n := Next(c, s, 0);
    if w == s.waiters[n] {
      PickedFair(c, s, v);
    } else {
      ReserveTakes(s, n);
      StillWaits(s, n, w);
      DispatchFair(c, Reserve(s, n), v, w);
    }
  }

  lemma PickedFair(c: Caps, s: Slots, v: Waiter)
    requires Orderly(s) && Capped(c, s) && Dispatchable(c, s)
    requires v in Dispatch(c, s).waiters && v.arrived < s.waiters[Next(c, s, 0)].arrived
    ensures Fair(c, Dispatch(c, s), v, s.waiters[Next(c, s, 0)])
  {
    DispatchShrinks(c, s);
    Earlier(s, v, Next(c, s, 0));
    DispatchKeeps(c, s);
  }

  lemma StillWaits(s: Slots, n: nat, w: Waiter)
    requires n < |s.waiters| && w in s.waiters && w != s.waiters[n]
    ensures w in Reserve(s, n).waiters
  {
    var i :| 0 <= i < |s.waiters| && s.waiters[i] == w;
    if i < n {
      assert Reserve(s, n).waiters[i] == w;
    } else {
      assert Reserve(s, n).waiters[i - 1] == w;
    }
  }

  /** Where a step takes slots back and hands them out. */
  function Freed(s: Slots, step: Step): Slots {
    match step
    case Release(t) => s.(running := s.running - {t})
    case Expire(key, _) => s.(reserved := s.reserved - {key})
    case Cancel(key) => s.(reserved := s.reserved - {key})
    case _ => s
  }

  lemma FreedKeeps(c: Caps, s: Slots, step: Step)
    requires Inv(c, s)
    ensures Orderly(Freed(s, step)) && Capped(c, Freed(s, step)) && Freed(s, step).waiters == s.waiters
  {
    match step
    case Release(t) => FreedTicket(c, s, t);
    case TryAcquire(_) =>
    case Expire(_, _) => FreedReservation(c, s, step.key);
    case Cancel(_) => FreedReservation(c, s, step.key);
  }

  lemma FreedTicket(c: Caps, s: Slots, t: nat)
    requires Inv(c, s)
    ensures Orderly(s.(running := s.running - {t})) && Capped(c, s.(running := s.running - {t}))
  {
    if t in s.running {
      WithoutRunning(s, t);
      FewerCapped(c, s, s.(running := s.running - {t}), s.running[t].ns);
    } else {
      assert s.running - {t} == s.running;
    }
  }

  lemma FreedReservation(c: Caps, s: Slots, key: Key)
    requires Inv(c, s)
    ensures Orderly(s.(reserved := s.reserved - {key})) && Capped(c, s.(reserved := s.reserved - {key}))
  {
    if key in s.reserved {
      WithoutReserved(s, key);
      FewerCapped(c, s, s.(reserved := s.reserved - {key}), key.ns);
    } else {
      assert s.reserved - {key} == s.reserved;
    }
  }

  /** Whether it does, and whom to wake then. */
  predicate Frees(s: Slots, step: Step) {
    match step
    case Release(t) => t in s.running
    case Expire(key, gen) => key in s.reserved && s.reserved[key] == gen
    case Cancel(key) => !Waits(s, key) && key in s.reserved
    case _ => false
  }

  function WokenBy(c: Caps, s: Slots, step: Step): seq<Key> {
    if Frees(s, step) then Woken(c, Freed(s, step)) else []
  }

  /** A slot goes to a waiter before one that came earlier only if the earlier one is of another
      namespace, which is at its cap. */
  lemma OvertakenOnlyAtCap(c: Caps, s: Slots, step: Step, v: Waiter, w: Waiter)
    requires Inv(c, s) && v in s.waiters && w in s.waiters && v.arrived < w.arrived
    requires var t := Apply(c, s, step); v in t.waiters && w !in t.waiters && w.key in t.reserved
    ensures Fair(c, Apply(c, s, step), v, w)
  {
    var i :| 0 <= i < |s.waiters| && s.waiters[i] == w;
    assert w.key !in s.reserved;
    FreedKeeps(c, s, step);
    var t := Apply(c, s, step);
    assert t == Dispatch(c, Freed(s, step));
    DispatchFair(c, Freed(s, step), v, w);
  }

  /** Who finds a slot free on asking takes it from nobody: every waiter's namespace is at its cap. */
  lemma NewcomerTakesFromNobody(c: Caps, s: Slots, key: Key, v: Waiter)
    requires Inv(c, s) && key !in s.reserved && v in s.waiters
    requires Apply(c, s, TryAcquire(key)).tickets > s.tickets
    ensures v.key.ns != key.ns && !Under(c, s, v.key.ns)
  {
    var i :| 0 <= i < |s.waiters| && s.waiters[i] == v;
    assert Next(c, s, 0) == |s.waiters|;
  }

  /** The waiters that came before. */
  function Ahead(s: Slots, v: Waiter): set<Waiter> {
    set w | w in s.waiters && w.arrived < v.arrived
  }

  lemma {:induction false} DispatchReserves(c: Caps, s: Slots, w: Waiter)
    requires w in s.waiters && w !in Dispatch(c, s).waiters
    ensures w.key in Dispatch(c, s).reserved
    decreases |s.waiters|
  {
    var n := Next(c, s, 0);
    if w == s.waiters[n] {
      DispatchGrows(c, Reserve(s, n));
    } else {
      StillWaits(s, n, w);
      DispatchReserves(c, Reserve(s, n), w);
    }
  }

  lemma {:induction false} DispatchGrows(c: Caps, s: Slots)
    ensures s.reserved.Keys <= Dispatch(c, s).reserved.Keys
    decreases |s.waiters|
  {
    if Dispatchable(c, s) {
      DispatchGrows(c, Reserve(s, Next(c, s, 0)));
    }
  }

  /** A waiter keeps its place: no step puts anyone ahead of it, and it leaves the queue only for a
      slot of its own or because it was cancelled. */
  lemma PlaceKept(c: Caps, s: Slots, step: Step, v: Waiter)
    requires Inv(c, s) && v in s.waiters
    ensures var t := Apply(c, s, step);
            && Ahead(t, v) <= Ahead(s, v)
            && (v in t.waiters || v.key in t.reserved || step == Cancel(v.key))
  {
    if Frees(s, step) {
      FreedKeeps(c, s, step);
      DispatchPlace(c, Freed(s, step), v);
    } else if step.Cancel? {
      CancelPlace(c, s, step.key, v);
    } else if step.TryAcquire? {
      AcquirePlace(c, s, step.key, v);
    }
  }

  lemma DispatchPlace(c: Caps, s: Slots, v: Waiter)
    requires v in s.waiters
    ensures var t := Dispatch(c, s); Ahead(t, v) <= Ahead(s, v) && (v in t.waiters || v.key in t.reserved)
  {
    DispatchShrinks(c, s);
    if v !in Dispatch(c, s).waiters {
      DispatchReserves(c, s, v);
    }
  }

  lemma AcquirePlace(c: Caps, s: Slots, key: Key, v: Waiter)
    requires Orderly(s) && v in s.waiters
    ensures var t := Apply(c, s, TryAcquire(key)); Ahead(t, v) <= Ahead(s, v) && v in t.waiters
  {
    var i :| 0 <= i < |s.waiters| && s.waiters[i] == v;
    assert v.arrived <= s.clock;
  }

  lemma CancelPlace(c: Caps, s: Slots, key: Key, v: Waiter)
    requires v in s.waiters && (Waits(s, key) || key !in s.reserved)
    ensures var t := Apply(c, s, Cancel(key)); Ahead(t, v) <= Ahead(s, v) && (v in t.waiters || v.key == key)
  {
    if Waits(s, key) && v.key != key {
      CancelledPlace(s, key, v);
    }
  }

  lemma CancelledPlace(s: Slots, key: Key, v: Waiter)
    requires Waits(s, key) && v in s.waiters && v.key != key
    ensures v in Without(s.waiters, PlaceOf(s.waiters, key))
  {
    PlaceFound(s, key);
    var n := PlaceOf(s.waiters, key);
    var i :| 0 <= i < |s.waiters| && s.waiters[i] == v;
    var ws := Without(s.waiters, n);
    assert if i < n then ws[i] == v else ws[i - 1] == v;
  }

  // ---------- How long a waiter waits ----------

  /** The states a run goes through. */
  ghost predicate Trail(c: Caps, states: seq<Slots>, steps: seq<Step>) {
    && |states| == |steps| + 1 && Inv(c, states[0])
    && forall i :: 0 <= i < |steps| ==> states[i + 1] == Apply(c, states[i], steps[i])
  }

  /** How many of its first i steps free a slot. */
  function Freeings(states: seq<Slots>, steps: seq<Step>, i: nat): nat
    requires i <= |steps| < |states|
  {
    if i == 0 then 0 else Freeings(states, steps, i - 1) + if Frees(states[i - 1], steps[i - 1]) then 1 else 0
  }

  lemma FreeingTakesBack(c: Caps, s: Slots, step: Step)
    requires Inv(c, s) && Frees(s, step)
    ensures InUse(Freed(s, step)) < c.global && Apply(c, s, step) == Dispatch(c, Freed(s, step))
  {
    match step
    case Release(t) => WithoutRunning(s, t);
    case Expire(_, _) => WithoutReserved(s, step.key);
    case Cancel(_) => WithoutReserved(s, step.key);
  }

  lemma SmallerSet<T>(a: set<T>, b: set<T>, x: T)
    requires a <= b && x in b && x !in a
    ensures |a| < |b|
  {
    assert a <= b - {x};
    assert |b - {x}| == |b| - 1;
    assert |(b - {x}) - a| == |b - {x}| - |a|;
  }

  /** A dispatch with a slot to give, from which v comes away empty-handed though its namespace is
      still under its cap, served someone ahead of it. */
  lemma ServesAhead(c: Caps, u: Slots, v: Waiter)
    requires Orderly(u) && Capped(c, u) && InUse(u) < c.global && v in u.waiters
    requires v in Dispatch(c, u).waiters && Under(c, Dispatch(c, u), v.key.ns)
    ensures exists w :: w in Ahead(u, v) && w !in Ahead(Dispatch(c, u), v)
  {
    DispatchKeeps(c, u);
    var i :| 0 <= i < |u.waiters| && u.waiters[i] == v;
    var n := Next(c, u, 0);
    assert Under(c, u, v.key.ns) && n <= i;
    ReservedIsGone(u, n);
    DispatchShrinks(c, Reserve(u, n));
    assert u.waiters[n] in Ahead(u, v);
  }

  lemma ReservedIsGone(u: Slots, n: nat)
    requires Orderly(u) && n < |u.waiters|
    ensures u.waiters[n] !in Reserve(u, n).waiters
  {
    var ws := Reserve(u, n).waiters;
    assert forall j :: 0 <= j < |ws| ==> ws[j] == u.waiters[if j < n then j else j + 1];
  }

  lemma FreeingMoves(c: Caps, s: Slots, step: Step, v: Waiter)
    requires Inv(c, s) && Frees(s, step) && v in s.waiters
    requires v in Apply(c, s, step).waiters && Under(c, Apply(c, s, step), v.key.ns)
    ensures |Ahead(Apply(c, s, step), v)| < |Ahead(s, v)|
  {
    var u, t := Freed(s, step), Apply(c, s, step);
    FreedKeeps(c, s, step);
    FreeingTakesBack(c, s, step);
    ServesAhead(c, u, v);
    var w :| w in Ahead(u, v) && w !in Ahead(t, v);
    PlaceKept(c, s, step, v);
    assert Ahead(u, v) == Ahead(s, v);
    SmallerSet(Ahead(t, v), Ahead(s, v), w);
  }

  lemma FewerAhead(c: Caps, s: Slots, step: Step, v: Waiter)
    requires Inv(c, s) && v in s.waiters
    requires v in Apply(c, s, step).waiters && Under(c, Apply(c, s, step), v.key.ns)
    ensures |Ahead(Apply(c, s, step), v)| + (if Frees(s, step) then 1 else 0) <= |Ahead(s, v)|
  {
    if Frees(s, step) {
      FreeingMoves(c, s, step, v);
    } else {
      PlaceKept(c, s, step, v);
      var a, b := Ahead(Apply(c, s, step), v), Ahead(s, v);
      assert |b - a| == |b| - |a|;
    }
  }

  lemma {:induction false} TrailKeeps(c: Caps, states: seq<Slots>, steps: seq<Step>, i: nat)
    requires Trail(c, states, steps) && i <= |steps|
    ensures Inv(c, states[i])
  {
    if i > 0 {
      TrailKeeps(c, states, steps, i - 1);
      StepKeeps(c, states[i - 1], steps[i - 1]);
    }
  }

  predicate WaitsUnder(c: Caps, s: Slots, v: Waiter) {
    v in s.waiters && Under(c, s, v.key.ns)
  }

  lemma {:induction false} WaitBounded(c: Caps, states: seq<Slots>, steps: seq<Step>, v: Waiter, i: nat)
    requires Trail(c, states, steps) && i <= |steps| && forall j :: 0 <= j <= i ==> WaitsUnder(c, states[j], v)
    ensures Freeings(states, steps, i) + |Ahead(states[i], v)| <= |Ahead(states[0], v)|
  {
    if i > 0 {
      var last: nat := i - 1;
      WaitBounded(c, states, steps, v, last);
      assert WaitsUnder(c, states[last], v) && WaitsUnder(c, states[last + 1], v);
      OneMoreStep(c, states, steps, v, last);
    }
  }

  lemma OneMoreStep(c: Caps, states: seq<Slots>, steps: seq<Step>, v: Waiter, i: nat)
    requires Trail(c, states, steps) && i < |steps| && WaitsUnder(c, states[i], v) && WaitsUnder(c, states[i + 1], v)
    ensures |Ahead(states[i + 1], v)| + (if Frees(states[i], steps[i]) then 1 else 0) <= |Ahead(states[i], v)|
  {
    TrailKeeps(c, states, steps, i);
    assert states[i + 1] == Apply(c, states[i], steps[i]);
    FewerAhead(c, states[i], steps[i], v);
  }

  /** A waiter that is not cancelled, and of a namespace with room whenever it waits, has
      its slot by the time one more slot was freed than there were waiters ahead of it. */
  lemma ServedInTime(c: Caps, states: seq<Slots>, steps: seq<Step>, v: Waiter) returns (i: nat)
    requires Trail(c, states, steps) && v in states[0].waiters && Cancel(v.key) !in steps
    requires forall j :: 0 <= j <= |steps| && v in states[j].waiters ==> Under(c, states[j], v.key.ns)
    requires Freeings(states, steps, |steps|) > |Ahead(states[0], v)|
    ensures 0 < i <= |steps| && v.key in states[i].reserved
    ensures forall j :: 0 <= j < i ==> v in states[j].waiters
  {
    i := 0;
    while i < |states| && v in states[i].waiters
      invariant i <= |states|
      invariant forall j :: 0 <= j < i ==> v in states[j].waiters
    {
      i := i + 1;
    }
    if i == |states| {
      assert forall j :: 0 <= j <= |steps| ==> WaitsUnder(c, states[j], v);
      WaitBounded(c, states, steps, v, |steps|);
      assert false;
    }
    LeavesForSlot(c, states, steps, v, i - 1);
  }

  lemma LeavesForSlot(c: Caps, states: seq<Slots>, steps: seq<Step>, v: Waiter, i: nat)
    requires Trail(c, states, steps) && i < |steps| && steps[i] != Cancel(v.key)
    requires v in states[i].waiters && v !in states[i + 1].waiters
    ensures v.key in states[i + 1].reserved
  {
    TrailKeeps(c, states, steps, i);
    PlaceKept(c, states[i], steps[i], v);
  }

  // ---------- What each step does for its caller ----------

  /** The key may run now: a slot is reserved for it, or it is not waiting and both caps have room. */
  predicate MayRun(c: Caps, s: Slots, key: Key) {
    key in s.reserved || (!Waits(s, key) && InUse(s) < c.global && Load(s, key.ns) < c.perNs)
  }

  /** Then it runs, on a ticket of its own, and has no reservation any more. A claimed reservation
      takes no further slot. Otherwise it waits, at the end of the queue if it did not before, and
      nothing else changes. */
  lemma AcquireExactly(c: Caps, s: Slots, key: Key)
    requires Inv(c, s)
    ensures var t := Apply(c, s, TryAcquire(key));
            if MayRun(c, s, key) then
              && t.tickets == s.tickets + 1 && s.tickets !in s.running && t.running == s.running[s.tickets := key]
              && t.reserved == s.reserved - {key} && t.waiters == s.waiters
              && (key in s.reserved ==> InUse(t) == InUse(s) && forall ns :: Load(t, ns) == Load(s, ns))
            else
              && t.tickets == s.tickets && t.running == s.running && t.reserved == s.reserved && Waits(t, key)
              && (if Waits(s, key) then t == s else t.waiters == s.waiters + [Waiter(key, s.clock + 1)])
  {
    if key in s.reserved {
      ClaimTakesNothing(s, key);
    } else if MayRun(c, s, key) {
      assert s.reserved - {key} == s.reserved;
    } else if !Waits(s, key) {
      assert Queued(s, key).waiters[|s.waiters|].key == key;
    }
  }

  lemma ClaimTakesNothing(s: Slots, key: Key)
    requires Orderly(s) && key in s.reserved
    ensures var t := Granted(s.(reserved := s.reserved - {key}), key);
            InUse(t) == InUse(s) && forall ns :: Load(t, ns) == Load(s, ns)
  {
    var u := s.(reserved := s.reserved - {key});
    WithoutReserved(s, key);
    RunningTakes(u, Granted(u, key), s.tickets, key);
  }

  lemma {:induction false} DispatchKeepsReserved(c: Caps, s: Slots)
    requires Orderly(s)
    ensures var t := Dispatch(c, s);
            t.running == s.running && t.tickets == s.tickets
            && forall k :: k in s.reserved ==> k in t.reserved && t.reserved[k] == s.reserved[k]
    ensures forall k :: k in Dispatch(c, s).reserved && k !in s.reserved ==> Waits(s, k)
    decreases |s.waiters|
  {
    if Dispatchable(c, s) {
      var n := Next(c, s, 0);
      ReserveTakes(s, n);
      DispatchKeepsReserved(c, Reserve(s, n));
      forall k | k in Dispatch(c, s).reserved && k !in s.reserved
        ensures Waits(s, k)
      {
        if k in Reserve(s, n).reserved {
          assert s.waiters[n].key == k;
        } else {
          WaitedBefore(s, n, k);
        }
      }
    }
  }

  lemma WaitedBefore(s: Slots, n: nat, k: Key)
    requires n < |s.waiters| && Waits(Reserve(s, n), k)
    ensures Waits(s, k)
  {
    var j :| 0 <= j < |Reserve(s, n).waiters| && Reserve(s, n).waiters[j].key == k;
    assert s.waiters[if j < n then j else j + 1].key == k;
  }

  lemma NoneWaits(c: Caps, s: Slots, key: Key)
    requires !Waits(s, key)
    ensures !Waits(Dispatch(c, s), key)
  {
    DispatchShrinks(c, s);
    var t := Dispatch(c, s);
    forall i | 0 <= i < |t.waiters|
      ensures t.waiters[i].key != key
    {
      assert t.waiters[i] in s.waiters;
      var j :| 0 <= j < |s.waiters| && s.waiters[j] == t.waiters[i];
    }
  }

  /** A release ends exactly the run its ticket stands for; one that was used before does nothing. */
  lemma ReleaseExactly(c: Caps, s: Slots, ticket: nat)
    requires Inv(c, s)
    ensures var t := Apply(c, s, Release(ticket));
            && t.running == s.running - {ticket} && (ticket !in s.running ==> t == s)
            && (forall k :: k in s.reserved ==> k in t.reserved && t.reserved[k] == s.reserved[k])
  {
    FreedTicket(c, s, ticket);
    DispatchKeepsReserved(c, s.(running := s.running - {ticket}));
    if ticket !in s.running {
      assert s.running - {ticket} == s.running;
    }
  }

  /** A timer ends exactly the reservation it was set for; a cancelled key neither waits nor has a
      slot reserved afterwards; neither touches what runs or anyone else's reservation. */
  lemma ExpireAndCancelExactly(c: Caps, s: Slots, key: Key, gen: nat)
    requires Inv(c, s)
    ensures var t := Apply(c, s, Expire(key, gen));
            && t.running == s.running
            && (if key in s.reserved && s.reserved[key] == gen then key !in t.reserved else t == s)
            && (forall k :: k in s.reserved && k != key ==> k in t.reserved && t.reserved[k] == s.reserved[k])
    ensures var t := Apply(c, s, Cancel(key));
            && t.running == s.running && key !in t.reserved && !Waits(t, key)
            && (forall k :: k in s.reserved && k != key ==> k in t.reserved && t.reserved[k] == s.reserved[k])
  {
    FreedReservation(c, s, key);
    var u := s.(reserved := s.reserved - {key});
    DispatchKeepsReserved(c, u);
    if Waits(s, key) {
      CancelledGone(s, key);
    } else {
      NoneWaits(c, u, key);
    }
    if key in s.reserved {
      ReservedDoesNotWait(s, key);
    }
  }

  lemma ReservedDoesNotWait(s: Slots, key: Key)
    requires Orderly(s) && key in s.reserved
    ensures !Waits(s, key)
  {
  }

  lemma CancelledGone(s: Slots, key: Key)
    requires Orderly(s) && Waits(s, key)
    ensures var n := PlaceOf(s.waiters, key);
            n < |s.waiters| && !Waits(s.(waiters := Without(s.waiters, n)), key) && key !in s.reserved
  {
    PlaceFound(s, key);
    var n := PlaceOf(s.waiters, key);
    var ws := Without(s.waiters, n);
    forall j | 0 <= j < |ws|
      ensures ws[j].key != key
    {
      var i := if j < n then j else j + 1;
      assert ws[j] == s.waiters[i] && s.waiters[n].key == key;
      assert if i < n then s.waiters[i].key != s.waiters[n].key else s.waiters[n].key != s.waiters[i].key;
    }
  }

  // ---------- Whom a dispatch wakes ----------

  /** Everybody who leaves the queue is woken, once, and nobody else. */
  lemma {:induction false} WokenExactly(c: Caps, s: Slots)
    requires Orderly(s)
    ensures |Woken(c, s)| + |Dispatch(c, s).waiters| == |s.waiters|
    ensures forall w :: w in s.waiters ==> (w.key in Woken(c, s) <==> w !in Dispatch(c, s).waiters)
    ensures forall k :: k in Woken(c, s) ==> Waits(s, k) && k in Dispatch(c, s).reserved
    decreases |s.waiters|
  {
    if Dispatchable(c, s) {
      var n := Next(c, s, 0);
      var picked, next := s.waiters[n], Reserve(s, n);
      ReserveTakes(s, n);
      WokenExactly(c, next);
      DispatchGrows(c, next);
      DispatchShrinks(c, next);
      ReservedIsGone(s, n);
      forall w | w in s.waiters
        ensures w.key in Woken(c, s) <==> w !in Dispatch(c, s).waiters
      {
        if w != picked {
          StillWaits(s, n, w);
          DifferentKeys(s, n, w);
        }
      }
      forall k | k in Woken(c, s)
        ensures Waits(s, k) && k in Dispatch(c, s).reserved
      {
        if k in Woken(c, next) {
          WaitedBefore(s, n, k);
        }
      }
    } else {
      assert forall w :: w in s.waiters ==> w.key !in Woken(c, s);
    }
  }

  lemma DifferentKeys(s: Slots, n: nat, w: Waiter)
    requires Orderly(s) && n < |s.waiters| && w in s.waiters && w != s.waiters[n]
    ensures w.key != s.waiters[n].key
  {
    var i :| 0 <= i < |s.waiters| && s.waiters[i] == w;
    assert i < n || n < i;
  }

  /** The waiters behind those keys. */
  function Picked(c: Caps, s: Slots): seq<Waiter>
    decreases |s.waiters|
  {
    if Dispatchable(c, s) then
      [s.waiters[Next(c, s, 0)]] + Picked(c, Reserve(s, Next(c, s, 0)))
    else []
  }

  lemma {:induction false} PickedAreWoken(c: Caps, s: Slots)
    ensures |Picked(c, s)| == |Woken(c, s)|
    ensures forall i :: 0 <= i < |Woken(c, s)| ==> Woken(c, s)[i] == Picked(c, s)[i].key
    decreases |s.waiters|
  {
    if Dispatchable(c, s) {
      PickedAreWoken(c, Reserve(s, Next(c, s, 0)));
    }
  }

  /** Who is passed over stays passed over. */
  lemma {:induction false} PickedFrom(c: Caps, s: Slots, n: nat)
    requires Orderly(s) && n < |s.waiters| && forall j :: 0 <= j < n ==> !Under(c, s, s.waiters[j].key.ns)
    ensures forall w :: w in Picked(c, s) ==> s.waiters[n].arrived <= w.arrived
    decreases |s.waiters|
  {
    if Dispatchable(c, s) {
      var m := Next(c, s, 0);
      var next := Reserve(s, m);
      PassedOver(c, s, n);
      if n < |next.waiters| {
        PickedFrom(c, next, n);
      } else {
        NonePicked(c, next);
      }
    }
  }

  lemma PassedOver(c: Caps, s: Slots, n: nat)
    requires Orderly(s) && n < |s.waiters| && forall j :: 0 <= j < n ==> !Under(c, s, s.waiters[j].key.ns)
    requires Dispatchable(c, s)
    ensures var m := Next(c, s, 0);
            var next := Reserve(s, m);
            && n <= m && s.waiters[n].arrived <= s.waiters[m].arrived && Orderly(next)
            && (forall j :: 0 <= j < n ==> !Under(c, next, next.waiters[j].key.ns))
            && (n < |next.waiters| ==> s.waiters[n].arrived <= next.waiters[n].arrived)
  {
    var m := Next(c, s, 0);
    var next := Reserve(s, m);
    ReserveTakes(s, m);
    assert n <= m;
    forall j | 0 <= j < n
      ensures !Under(c, next, next.waiters[j].key.ns)
    {
      assert next.waiters[j] == s.waiters[j];
      assert Load(next, s.waiters[j].key.ns) >= Load(s, s.waiters[j].key.ns);
    }
  }

  lemma NonePicked(c: Caps, s: Slots)
    requires forall j :: 0 <= j < |s.waiters| ==> !Under(c, s, s.waiters[j].key.ns)
    ensures Picked(c, s) == []
  {
  }

  /** They are woken in the order they came. */
  lemma {:induction false} WokenInOrder(c: Caps, s: Slots)
    requires Orderly(s)
    ensures Arriving(Picked(c, s))
    decreases |s.waiters|
  {
    if Dispatchable(c, s) {
      var n := Next(c, s, 0);
      ReserveTakes(s, n);
      WokenInOrder(c, Reserve(s, n));
      LaterPicked(c, s, n);
      ArrivingFirst(s.waiters[n], Picked(c, Reserve(s, n)));
    }
  }

  predicate Arriving(ws: seq<Waiter>) {
    forall i, j :: 0 <= i < j < |ws| ==> ws[i].arrived < ws[j].arrived
  }

  lemma ArrivingFirst(w: Waiter, ws: seq<Waiter>)
    requires Arriving(ws) && forall x :: x in ws ==> w.arrived < x.arrived
    ensures Arriving([w] + ws)
  {
  }

  lemma LaterPicked(c: Caps, s: Slots, n: nat)
    requires Orderly(s) && Dispatchable(c, s) && n == Next(c, s, 0)
    ensures forall w :: w in Picked(c, Reserve(s, n)) ==> s.waiters[n].arrived < w.arrived
  {
    var next := Reserve(s, n);
    ReserveTakes(s, n);
    assert forall j :: 0 <= j < n ==> next.waiters[j] == s.waiters[j];
    if n < |next.waiters| {
      assert next.waiters[n] == s.waiters[n + 1];
      PickedFrom(c, next, n);
    } else {
      NonePicked(c, next);
    }
  }

  // ---------- From waiting to running ----------

  /** The key claims its reservation, cancels it, or lets it expire. */
  predicate Ends(step: Step, key: Key, gen: nat) {
    step == TryAcquire(key) || step == Expire(key, gen) || step == Cancel(key)
  }

  /** A reservation is kept until then. */
  lemma ReservationKept(c: Caps, s: Slots, step: Step, key: Key)
    requires Inv(c, s) && key in s.reserved
    requires !Ends(step, key, s.reserved[key])
    ensures var t := Apply(c, s, step); key in t.reserved && t.reserved[key] == s.reserved[key]
  {
    match step
    case TryAcquire(k) => AcquireExactly(c, s, k);
    case Release(ticket) => ReleaseExactly(c, s, ticket);
    case Expire(k, gen) => ExpireAndCancelExactly(c, s, k, gen);
    case Cancel(k) => ExpireAndCancelExactly(c, s, k, 0);
  }

  lemma {:induction false} ReservationLasts(c: Caps, states: seq<Slots>, steps: seq<Step>, key: Key, i: nat, j: nat)
    requires Trail(c, states, steps) && i <= j <= |steps| && key in states[i].reserved
    requires forall n :: i <= n < j ==> !Ends(steps[n], key, states[i].reserved[key])
    ensures key in states[j].reserved && states[j].reserved[key] == states[i].reserved[key]
    decreases j
  {
    if i < j {
      ReservationLasts(c, states, steps, key, i, j - 1);
      TrailKeeps(c, states, steps, j - 1);
      ReservationKept(c, states[j - 1], steps[j - 1], key);
    }
  }

  /** A waiter that is woken and asks again before its reservation expires runs. */
  lemma WokenRuns(c: Caps, states: seq<Slots>, steps: seq<Step>, key: Key, i: nat, j: nat)
    requires Trail(c, states, steps) && i <= j < |steps| && key in states[i].reserved && steps[j] == TryAcquire(key)
    requires forall n :: i <= n < j ==> !Ends(steps[n], key, states[i].reserved[key])
    ensures states[j + 1].running == states[j].running[states[j].tickets := key]
    ensures states[j].tickets !in states[j].running && key !in states[j + 1].reserved
  {
    ReservationLasts(c, states, steps, key, i, j);
    TrailKeeps(c, states, steps, j);
    AcquireExactly(c, states[j], key);
  }
}
