/**
 The generated deep copies. A pointer is a reference to an object, nil is null; a slice is an
 array; a map is an object that holds one, so two variables may share it. Structs that live
 inside a slice or a map are values that may hold references.
 */
module DeepCopy {
  import opened GoStrings

  ghost function One(o: object?): set<object> {
    if o == null then {} else {o}
  }

  // ---------- Actors ----------

  datatype AssertedValue = AssertedValue(model: string, session: string, client: string)
  datatype ActorValue = ActorValue(kind: string, principal: string, agent: string, sponsor: string, via: string,
                                   asserted: Option<AssertedValue>)

  class AssertedActor {
    var model: string
    var session: string
    var client: string

    constructor ()
    {
      model, session, client := "", "", "";
    }

    ghost function Value(): AssertedValue
      reads this
    {
      AssertedValue(model, session, client)
    }
  }

  class Actor {
    var kind: string
    var principal: string
    var agent: string
    var sponsor: string
    var via: string
    var asserted: AssertedActor?

    constructor ()
    {
      kind, principal, agent, sponsor, via, asserted := "", "", "", "", "", null;
    }

    /** What hangs off the struct. */
    ghost function Held(): set<object>
      reads this
    {
      One(asserted)
    }

    ghost function Value(): ActorValue
      reads this, Held()
    {
      ActorValue(kind, principal, agent, sponsor, via, if asserted == null then None else Some(asserted.Value()))
    }

    method DeepCopyInto(out: Actor)
      requires out != this
      modifies out
      ensures out.Value() == Value() == old(Value())
      ensures fresh(out.Held())
    {
      out.kind, out.principal, out.agent, out.sponsor, out.via := kind, principal, agent, sponsor, via;
      out.asserted := asserted;
      if asserted != null {
        var a := new AssertedActor();
        a.model, a.session, a.client := asserted.model, asserted.session, asserted.client;
        out.asserted := a;
      }
    }
  }

  ghost function ActorStore(a: Actor?): set<object>
    reads a
  {
    if a == null then {} else {a} + a.Held()
  }

  ghost function ActorAt(a: Actor?): Option<ActorValue>
    reads a, ActorStore(a)
  {
    if a == null then None else Some(a.Value())
  }

  method CopyActor(a: Actor?) returns (out: Actor?)
    ensures ActorAt(out) == ActorAt(a) == old(ActorAt(a))
    ensures fresh(ActorStore(out))
  {
    if a == null {
      return null;
    }
    out := new Actor();
    a.DeepCopyInto(out);
  }

  twostate lemma ActorKept(a: Actor?)
    requires unchanged(old(ActorStore(a)))
    ensures ActorStore(a) == old(ActorStore(a)) && ActorAt(a) == old(ActorAt(a))
  {
  }

  // ---------- Slices of exemptions ----------

  datatype FreezeExemption = FreezeExemption(ns: string, pipeline: string, environment: string, bundle: string,
                                             reason: string, expiresAt: int, createdBy: string, actor: Actor?)
  datatype ExemptionValue = ExemptionValue(ns: string, pipeline: string, environment: string, bundle: string,
                                           reason: string, expiresAt: int, createdBy: string, actor: Option<ActorValue>)

  ghost function ValueOf(e: FreezeExemption): ExemptionValue
    reads e.actor, ActorStore(e.actor)
  {
    ExemptionValue(e.ns, e.pipeline, e.environment, e.bundle, e.reason, e.expiresAt, e.createdBy, ActorAt(e.actor))
  }

  method CopyExemption(e: FreezeExemption) returns (out: FreezeExemption)
    ensures ValueOf(out) == ValueOf(e) == old(ValueOf(e))
    ensures fresh(ActorStore(out.actor))
  {
    out := e;
    if e.actor != null {
      var actor := CopyActor(e.actor);
      out := out.(actor := actor);
    }
  }

  /** What the elements of a slice hold. */
  ghost function ElementStore(s: seq<FreezeExemption>): set<object>
    reads set e | e in s && e.actor != null :: e.actor
  {
    set e, o | e in s && o in ActorStore(e.actor) :: o
  }

  ghost function ElementValues(s: seq<FreezeExemption>): (v: seq<ExemptionValue>)
    reads set e | e in s && e.actor != null :: e.actor
    reads ElementStore(s)
    ensures |v| == |s|
    ensures forall i :: 0 <= i < |s| ==> v[i] == ValueOf(s[i])
  {
    if s == [] then [] else ElementValues(s[..|s| - 1]) + [ValueOf(s[|s| - 1])]
  }

  ghost predicate Elem(e: FreezeExemption, v: ExemptionValue, region: set<object>)
    reads region
  {
    && (e.actor != null ==> e.actor in region)
    && ActorStore(e.actor) <= region && ValueOf(e) == v
  }

  /** The elements have these values, and hold nothing outside the region. */
  ghost predicate Elements(s: seq<FreezeExemption>, v: seq<ExemptionValue>, region: set<object>)
    reads region
  {
    |s| == |v| && forall i :: 0 <= i < |s| ==> Elem(s[i], v[i], region)
  }

  lemma ElementsOf(s: seq<FreezeExemption>)
    ensures Elements(s, ElementValues(s), ElementStore(s))
  {
    forall i | 0 <= i < |s|
      ensures Elem(s[i], ElementValues(s)[i], ElementStore(s))
    {
      assert s[i] in s;
      assert forall o :: o in ActorStore(s[i].actor) ==> o in ElementStore(s);
    }
  }

  lemma ElementsAre(s: seq<FreezeExemption>, v: seq<ExemptionValue>, region: set<object>)
    requires Elements(s, v, region)
    ensures ElementValues(s) == v && ElementStore(s) <= region
  {
  }

  lemma ElementsMore(s: seq<FreezeExemption>, v: seq<ExemptionValue>, region: set<object>, e: FreezeExemption)
    requires Elements(s, v, region)
    ensures Elements(s + [e], v + [ValueOf(e)], region + ActorStore(e.actor))
  {
    var wider := region + ActorStore(e.actor);
    forall i | 0 <= i < |s|
      ensures Elem(s[i], v[i], wider)
    {
      assert Elem(s[i], v[i], region);
    }
    assert Elem(e, ValueOf(e), wider);
  }

  /** Copies one element into its place. */
  method FillOne(s: array<FreezeExemption>, out: array<FreezeExemption>, i: nat, ghost values: seq<ExemptionValue>,
                 ghost region: set<object>, ghost copied: set<object>) returns (ghost wider: set<object>)
    requires i < s.Length == out.Length && out != s && out !in region && out !in copied
    requires Elements(s[..], values, region) && Elements(out[..i], values[..i], copied)
    modifies out
    ensures s[..] == old(s[..]) && Elements(s[..], values, region)
    ensures Elements(out[..i + 1], values[..i + 1], wider) && copied <= wider && fresh(wider - copied)
  {
    ghost var done := out[..i];
    assert Elem(s[..][i], values[i], region);
    var e := CopyExemption(s[i]);
    out[i] := e;
    ElementsMore(done, values[..i], copied, e);
    assert out[..i + 1] == done + [e];
    assert values[..i + 1] == values[..i] + [values[i]];
    wider := copied + ActorStore(e.actor);
  }

  /** Fills a slice of its own with deep copies. */
  method FillExemptions(s: array<FreezeExemption>, out: array<FreezeExemption>)
    requires out.Length == s.Length && out != s && out !in ElementStore(s[..])
    modifies out
    ensures s[..] == old(s[..]) && ElementValues(s[..]) == old(ElementValues(s[..]))
    ensures ElementValues(out[..]) == old(ElementValues(s[..]))
    ensures fresh(ElementStore(out[..]))
  {
    ghost var values, region, copied: set<object> := ElementValues(s[..]), ElementStore(s[..]), {};
    ElementsOf(s[..]);
    for i := 0 to s.Length
      invariant s[..] == old(s[..]) && Elements(s[..], values, region)
      invariant fresh(copied) && Elements(out[..i], values[..i], copied)
    {
      copied := FillOne(s, out, i, values, region, copied);
    }
    assert out[..] == out[..s.Length] && values == values[..s.Length];
    ElementsAre(s[..], values, region);
    ElementsAre(out[..], values, copied);
  }

  ghost function ExemptionsStore(s: array?<FreezeExemption>): set<object>
    reads s, if s == null then {} else set e | e in s[..] && e.actor != null :: e.actor
  {
    if s == null then {} else {s} + ElementStore(s[..])
  }

  ghost function ExemptionsAt(s: array?<FreezeExemption>): Option<seq<ExemptionValue>>
    reads s, if s == null then {} else set e | e in s[..] && e.actor != null :: e.actor
    reads ExemptionsStore(s)
  {
    if s == null then None else Some(ElementValues(s[..]))
  }

  method MakeExemptions(s: array<FreezeExemption>) returns (out: array<FreezeExemption>)
    ensures s[..] == old(s[..]) && ElementValues(s[..]) == old(ElementValues(s[..]))
    ensures ElementValues(out[..]) == old(ElementValues(s[..]))
    ensures fresh(out) && fresh(ElementStore(out[..]))
  {
    out := new FreezeExemption[s.Length];
    FillExemptions(s, out);
  }

  // ---------- Plain slices and maps ----------

  ghost function SliceAt<T>(s: array?<T>): Option<seq<T>>
    reads s
  {
    if s == null then None else Some(s[..])
  }

  method CopySlice<T(0)>(s: array?<T>) returns (out: array?<T>)
    ensures SliceAt(out) == SliceAt(s) == old(SliceAt(s))
    ensures fresh(One(out))
  {
    if s == null {
      return null;
    }
    out := new T[s.Length];
    for i := 0 to s.Length
      invariant s[..] == old(s[..]) && out[..i] == s[..i]
    {
      out[i] := s[i];
    }
    assert out[..] == out[..s.Length] && s[..] == s[..s.Length];
  }

  class GoMap<V> {
    var m: map<string, V>

    constructor ()
      ensures m == map[]
    {
      m := map[];
    }
  }

  ghost function MapAt<V>(p: GoMap?<V>): Option<map<string, V>>
    reads p
  {
    if p == null then None else Some(p.m)
  }

  method CopyMap(p: GoMap?<string>) returns (out: GoMap?<string>)
    ensures MapAt(out) == MapAt(p) == old(MapAt(p))
    ensures fresh(One(out))
  {
    if p == null {
      return null;
    }
    out := new GoMap<string>();
    var keys := p.m.Keys;
    while keys != {}
      invariant p.m == old(p.m) && keys <= p.m.Keys
      invariant out.m == map k | k in p.m && k !in keys :: p.m[k]
    {
      var k :| k in keys;
      keys := keys - {k};
      out.m := out.m[k := p.m[k]];
    }
    assert out.m == p.m;
  }

  // ---------- A lift, and the freeze ----------

  datatype LiftValue = LiftValue(lifter: string, actor: Option<ActorValue>)

  class FreezeLift {
    var lifter: string
    var actor: Actor?

    constructor ()
    {
      lifter, actor := "", null;
    }

    ghost function Held(): set<object>
      reads this, actor
    {
      ActorStore(actor)
    }

    ghost function Value(): LiftValue
      reads this, actor, Held()
    {
      LiftValue(lifter, ActorAt(actor))
    }

    method DeepCopyInto(out: FreezeLift)
      requires out != this
      modifies out
      ensures out.Value() == Value() == old(Value())
      ensures fresh(out.Held())
    {
      var copy := CopyActor(actor);
      out.lifter, out.actor := lifter, copy;
    }
  }

  ghost function LiftStore(l: FreezeLift?): set<object>
    reads l, if l == null then {} else One(l.actor)
  {
    if l == null then {} else {l} + l.Held()
  }

  ghost function LiftAt(l: FreezeLift?): Option<LiftValue>
    reads l, if l == null then {} else One(l.actor)
    reads LiftStore(l)
  {
    if l == null then None else Some(l.Value())
  }

  method CopyLift(l: FreezeLift?) returns (out: FreezeLift?)
    ensures LiftAt(out) == LiftAt(l) == old(LiftAt(l))
    ensures fresh(LiftStore(out))
  {
    if l == null {
      return null;
    }
    out := new FreezeLift();
    l.DeepCopyInto(out);
  }

  datatype ExemptionRecord = ExemptionRecord(key: string, firstSeen: int, until: int)
  datatype FreezeValue = FreezeValue(actors: string, namespaces: Option<seq<string>>, createdBy: string,
                                     actor: Option<ActorValue>, lifted: Option<LiftValue>,
                                     exemptions: Option<seq<ExemptionValue>>, records: Option<seq<ExemptionRecord>>)

  class ChangeWindowFreeze {
    var actors: string
    var namespaces: array?<string>
    var createdBy: string
    var actor: Actor?
    var lifted: FreezeLift?
    var exemptions: array?<FreezeExemption>
    var records: array?<ExemptionRecord>

    constructor ()
    {
      actors, namespaces, createdBy, actor, lifted, exemptions, records := "", null, "", null, null, null, null;
    }

    /** Everything that hangs off the freeze, however much of it is shared. */
    ghost function Held(): set<object>
      reads this, actor, lifted, if lifted == null then {} else One(lifted.actor)
      reads exemptions, if exemptions == null then {} else set e | e in exemptions[..] && e.actor != null :: e.actor
    {
      One(namespaces) + ActorStore(actor) + LiftStore(lifted) + ExemptionsStore(exemptions) + One(records)
    }

    ghost function Value(): FreezeValue
      reads this, actor, lifted, if lifted == null then {} else One(lifted.actor)
      reads exemptions, if exemptions == null then {} else set e | e in exemptions[..] && e.actor != null :: e.actor
      reads Held()
    {
      FreezeValue(actors, SliceAt(namespaces), createdBy, ActorAt(actor), LiftAt(lifted),
                  ExemptionsAt(exemptions), SliceAt(records))
    }

    method DeepCopyInto(out: ChangeWindowFreeze)
      requires out != this
      modifies out
      ensures out.Value() == old(Value())
      ensures fresh(out.Held())
    {
      ghost var v, held := Value(), Held();
      HeldParts(this);
      var p, r := CopyParts(this, v, held);
      out.Assign(actors, createdBy, p, v, r);
    }

    method Assign(actors: string, createdBy: string, p: Parts, ghost v: FreezeValue, ghost region: set<object>)
      requires PartsIn(p, v, region) && this !in region && v.actors == actors && v.createdBy == createdBy
      modifies this
      ensures Value() == v && Held() <= region
    {
      this.actors, this.createdBy := actors, createdBy;
      namespaces, actor, lifted, exemptions, records := p.namespaces, p.actor, p.lifted, p.exemptions, p.records;
      PartsStay(this, (p, v, region));
    }
  }

  /** The copy is equal to the original, and everything it is made of is new. */
  method CopyFreeze(f: ChangeWindowFreeze?) returns (out: ChangeWindowFreeze?)
    ensures (out == null) == (f == null)
    ensures f != null ==> f.Value() == old(f.Value()) && f.Held() == old(f.Held())
    ensures f != null ==> out.Value() == old(f.Value()) && fresh(out) && fresh(out.Held())
    ensures f != null ==> {f} + f.Held() !! {out} + out.Held()
  {
    if f == null {
      return null;
    }
    ghost var held := f.Held();
    out := new ChangeWindowFreeze();
    FreezeKept((f, held));
    f.DeepCopyInto(out);
    FreezeKept((f, held));
  }

  /** Overwrites a freeze, and what hangs off it, with anything. */
  method Overwrite(f: ChangeWindowFreeze, p: Parts, actors: string, note: string)
    modifies f, f.Held()
  {
    if f.namespaces != null && f.namespaces.Length > 0 {
      f.namespaces[0] := note;
    }
    f.actors := actors;
    f.actor, f.lifted := p.actor, p.lifted;
    f.namespaces, f.exemptions, f.records := p.namespaces, p.exemptions, p.records;
  }

  /** Overwriting the copy leaves the original alone, and the other way round. */
  method CopyOverwritten(f: ChangeWindowFreeze, p: Parts, actors: string, note: string)
    returns (out: ChangeWindowFreeze)
    ensures f.Value() == old(f.Value())
  {
    out := CopyFreeze(f);
    ghost var held := f.Held();
    label Copied:
    Overwrite(out, p, actors, note);
    FreezeKept@Copied((f, held));
  }

  method OriginalOverwritten(f: ChangeWindowFreeze, p: Parts, actors: string, note: string)
    returns (out: ChangeWindowFreeze)
    modifies f, f.Held()
    ensures out.Value() == old(f.Value())
  {
    out := CopyFreeze(f);
    ghost var held := out.Held();
    label Copied:
    Overwrite(f, p, actors, note);
    FreezeKept@Copied((out, held));
  }

  /** Whatever is written later to other storage, a freeze keeps its value: so a copy, made of new
      storage, and its original never affect each other again. `owned` is the freeze and what hangs
      off it. */
  twostate lemma FreezeKept(owned: (ChangeWindowFreeze, set<object>))
    requires old(owned.0.Held()) == owned.1 && unchanged(owned.0) && unchanged(owned.1)
    ensures owned.0.Value() == old(owned.0.Value()) && owned.0.Held() == owned.1
  {
    var f := owned.0;
    ActorKept(f.actor);
    LiftKept(f.lifted);
    if f.exemptions != null {
      assert f.exemptions in old(f.Held()) && f.exemptions[..] == old(f.exemptions[..]);
      ElementsKept(f.exemptions[..]);
    }
    assert ExemptionsAt(f.exemptions) == old(ExemptionsAt(f.exemptions));
    assert SliceAt(f.namespaces) == old(SliceAt(f.namespaces)) && SliceAt(f.records) == old(SliceAt(f.records));
  }

  twostate lemma LiftKept(l: FreezeLift?)
    requires unchanged(old(LiftStore(l)))
    ensures LiftStore(l) == old(LiftStore(l)) && LiftAt(l) == old(LiftAt(l))
  {
    if l != null {
      ActorKept(l.actor);
    }
  }

  twostate lemma ElementsKept(s: seq<FreezeExemption>)
    requires unchanged(old(ElementStore(s)))
    ensures ElementStore(s) == old(ElementStore(s)) && ElementValues(s) == old(ElementValues(s))
  {
    forall e | e in s
      ensures ActorStore(e.actor) == old(ActorStore(e.actor)) && ActorAt(e.actor) == old(ActorAt(e.actor))
    {
      assert forall o :: o in old(ActorStore(e.actor)) ==> o in old(ElementStore(s));
      ActorKept(e.actor);
    }
  }

  /** The references a freeze holds. */
  datatype Parts = Parts(namespaces: array?<string>, actor: Actor?, lifted: FreezeLift?,
                         exemptions: array?<FreezeExemption>,
                         records: array?<ExemptionRecord>)

  method CopyParts(f: ChangeWindowFreeze, ghost v: FreezeValue, ghost held: set<object>)
    returns (p: Parts, ghost r: set<object>)
    requires PartsAre(f, v, held)
    ensures PartsIn(p, v, r) && fresh(r)
  {
    var actor, lifted, r1, r2 := CopyPointers(f.actor, f.lifted, v, held);
    var namespaces, exemptions, records, r0, r3, r4 := CopySlices(f.namespaces, f.exemptions, f.records, v, held);
    p := Parts(namespaces, actor, lifted, exemptions, records);
    r := r0 + r1 + r2 + r3 + r4;
    PartsWiden(p, v, r0, r1, r2, r3, r4);
  }

  method CopyPointers(a: Actor?, l: FreezeLift?, ghost v: FreezeValue, ghost held: set<object>)
    returns (actor: Actor?, lifted: FreezeLift?, ghost r1: set<object>, ghost r2: set<object>)
    requires ActorIs(a, v.actor, held) && LiftIs(l, v.lifted, held)
    ensures ActorIs(actor, v.actor, r1) && LiftIs(lifted, v.lifted, r2) && fresh(r1 + r2)
  {
    actor, r1 := ActorCopy(a, v.actor, held);
    lifted, r2 := LiftCopy(l, v.lifted, held);
  }

  method CopySlices(n: array?<string>, e: array?<FreezeExemption>, c: array?<ExemptionRecord>, ghost v: FreezeValue,
                    ghost held: set<object>)
    returns (namespaces: array?<string>, exemptions: array?<FreezeExemption>, records: array?<ExemptionRecord>,
             ghost r0: set<object>, ghost r3: set<object>, ghost r4: set<object>)
    requires StringsAre(n, v.namespaces, held) && ExemptionsAre(e, v.exemptions, held) && RecordsAre(c, v.records, held)
    ensures StringsAre(namespaces, v.namespaces, r0) && ExemptionsAre(exemptions, v.exemptions, r3)
    ensures RecordsAre(records, v.records, r4) && fresh(r0 + r3 + r4)
  {
    namespaces, r0 := StringsCopy(n, v.namespaces, held);
    exemptions, r3 := ExemptionsCopy(e, v.exemptions, held);
    records, r4 := RecordsCopy(c, v.records, held);
  }

  // Copies, over regions.

  method ActorCopy(a: Actor?, ghost v: Option<ActorValue>, ghost region: set<object>)
    returns (out: Actor?, ghost r: set<object>)
    requires ActorIs(a, v, region)
    ensures ActorIs(out, v, r) && fresh(r)
  {
    out := CopyActor(a);
    r := ActorStore(out);
  }

  method LiftCopy(l: FreezeLift?, ghost v: Option<LiftValue>, ghost region: set<object>)
    returns (out: FreezeLift?, ghost r: set<object>)
    requires LiftIs(l, v, region)
    ensures LiftIs(out, v, r) && fresh(r)
  {
    out := CopyLift(l);
    r := LiftStore(out);
  }

  method StringsCopy(s: array?<string>, ghost v: Option<seq<string>>, ghost region: set<object>)
    returns (out: array?<string>, ghost r: set<object>)
    requires StringsAre(s, v, region)
    ensures StringsAre(out, v, r) && fresh(r)
  {
    out := CopySlice(s);
    r := One(out);
  }

  method RecordsCopy(s: array?<ExemptionRecord>, ghost v: Option<seq<ExemptionRecord>>, ghost region: set<object>)
    returns (out: array?<ExemptionRecord>, ghost r: set<object>)
    requires RecordsAre(s, v, region)
    ensures RecordsAre(out, v, r) && fresh(r)
  {
    out := CopySlice(s);
    r := One(out);
  }

  method ExemptionsCopy(s: array?<FreezeExemption>, ghost v: Option<seq<ExemptionValue>>, ghost region: set<object>)
    returns (out: array?<FreezeExemption>, ghost r: set<object>)
    requires ExemptionsAre(s, v, region)
    ensures ExemptionsAre(out, v, r) && fresh(r)
  {
    if s == null {
      out, r := null, {};
    } else {
      out, r := ElementsCopy(s, v.value, region);
    }
  }

  method ElementsCopy(s: array<FreezeExemption>, ghost v: seq<ExemptionValue>, ghost region: set<object>)
    returns (out: array<FreezeExemption>, ghost r: set<object>)
    requires Elements(s[..], v, region)
    ensures out in r && Elements(out[..], v, r) && fresh(r)
  {
    ElementsAre(s[..], v, region);
    out := MakeExemptions(s);
    r := {out} + ElementStore(out[..]);
    ElementsOf(out[..]);
    ElementsWiden(out[..], v, ElementStore(out[..]), r);
  }

  lemma PartsWiden(p: Parts, v: FreezeValue, r0: set<object>, r1: set<object>, r2: set<object>, r3: set<object>,
                   r4: set<object>)
    requires StringsAre(p.namespaces, v.namespaces, r0) && ActorIs(p.actor, v.actor, r1) &&
             LiftIs(p.lifted, v.lifted, r2)
    requires ExemptionsAre(p.exemptions, v.exemptions, r3) && RecordsAre(p.records, v.records, r4)
    ensures PartsIn(p, v, r0 + r1 + r2 + r3 + r4)
  {
    if p.exemptions != null {
      ElementsWiden(p.exemptions[..], v.exemptions.value, r3, r0 + r1 + r2 + r3 + r4);
    }
  }

  // The same facts, each over a region that is all they depend on.

  ghost predicate ActorIs(a: Actor?, v: Option<ActorValue>, region: set<object>)
    reads region
  {
    (a != null ==> a in region) && ActorStore(a) <= region && ActorAt(a) == v
  }

  ghost predicate LiftIs(l: FreezeLift?, v: Option<LiftValue>, region: set<object>)
    reads region
  {
    && (l != null ==> l in region && (l.actor != null ==> l.actor in region))
    && LiftStore(l) <= region && LiftAt(l) == v
  }

  ghost predicate StringsAre(s: array?<string>, v: Option<seq<string>>, region: set<object>)
    reads region
  {
    (s != null ==> s in region) && SliceAt(s) == v
  }

  ghost predicate RecordsAre(s: array?<ExemptionRecord>, v: Option<seq<ExemptionRecord>>, region: set<object>)
    reads region
  {
    (s != null ==> s in region) && SliceAt(s) == v
  }

  ghost predicate ExemptionsAre(s: array?<FreezeExemption>, v: Option<seq<ExemptionValue>>, region: set<object>)
    reads region
  {
    if s == null then v == None else s in region && v.Some? && Elements(s[..], v.value, region)
  }

  ghost predicate PartsIn(p: Parts, v: FreezeValue, region: set<object>)
    reads region
  {
    && StringsAre(p.namespaces, v.namespaces, region) && ActorIs(p.actor, v.actor, region)
    && LiftIs(p.lifted, v.lifted, region) && ExemptionsAre(p.exemptions, v.exemptions, region)
    && RecordsAre(p.records, v.records, region)
  }

  ghost predicate PartsAre(f: ChangeWindowFreeze, v: FreezeValue, region: set<object>)
    reads f, region
  {
    && f.actors == v.actors && f.createdBy == v.createdBy
    && PartsIn(Parts(f.namespaces, f.actor, f.lifted, f.exemptions, f.records), v, region)
  }

  lemma HeldParts(f: ChangeWindowFreeze)
    ensures PartsAre(f, f.Value(), f.Held())
  {
    if f.exemptions != null {
      ElementsOf(f.exemptions[..]);
      ElementsWiden(f.exemptions[..], ElementValues(f.exemptions[..]), ElementStore(f.exemptions[..]), f.Held());
    }
  }

  lemma ElementsWiden(s: seq<FreezeExemption>, v: seq<ExemptionValue>, region: set<object>, wider: set<object>)
    requires Elements(s, v, region) && region <= wider
    ensures Elements(s, v, wider)
  {
    forall i | 0 <= i < |s|
      ensures Elem(s[i], v[i], wider)
    {
      assert Elem(s[i], v[i], region);
    }
  }

  /** A freeze made of parts that have not changed has the value they had. */
  twostate lemma PartsStay(new f: ChangeWindowFreeze, owned: (Parts, FreezeValue, set<object>))
    requires old(PartsIn(owned.0, owned.1, owned.2))
    requires unchanged(owned.2)
    requires owned.0 == Parts(f.namespaces, f.actor, f.lifted, f.exemptions, f.records)
    requires f.actors == owned.1.actors && f.createdBy == owned.1.createdBy
    ensures f.Value() == owned.1 && f.Held() <= owned.2
  {
    PartsMake(f, owned.1, owned.2);
  }

  lemma PartsMake(f: ChangeWindowFreeze, v: FreezeValue, region: set<object>)
    requires PartsAre(f, v, region)
    ensures f.Value() == v && f.Held() <= region
  {
    if f.exemptions != null {
      ElementsAre(f.exemptions[..], v.exemptions.value, region);
    }
  }
}
