/** How the webhook writes the annotation: a merge patch against a deep copy of what it read. */
module RefreshPatch {
  import opened GoStrings
  import opened MergePatch
  import opened DeepCopy
  import RefreshProtocol
  import opened RefreshFleet

  const REFRESH := "kardinal.io/refresh"
  const PATH: seq<string> := ["metadata", "annotations", REFRESH]

  function Values(m: map<string, string>): map<string, Json> {
    map k | k in m :: Leaf(m[k])
  }

  /** The object as it is sent: no annotations, no field. `meta` is the other metadata. */
  function Metadata(meta: map<string, Json>, annotations: map<string, string>): map<string, Json> {
    if annotations == map[] then meta - {"annotations"} else meta["annotations" := Object(Values(annotations))]
  }

  function Document(rest: map<string, Json>, meta: map<string, Json>, annotations: map<string, string>): Json {
    Object(rest["metadata" := Object(Metadata(meta, annotations))])
  }

  function Annotation(annotations: map<string, string>): string {
    if REFRESH in annotations then annotations[REFRESH] else ""
  }

  predicate Has(annotations: map<string, string>, stamp: string) {
    REFRESH in annotations && annotations[REFRESH] == stamp
  }

  /** Setting the annotation is setting one leaf of the document. */
  lemma AnnotationIsLeaf(rest: map<string, Json>, meta: map<string, Json>, annotations: map<string, string>,
                         stamp: string)
    ensures Document(rest, meta, annotations[REFRESH := stamp])
            == Set(Some(Document(rest, meta, annotations)), PATH, Leaf(stamp))
    ensures Get(Some(Document(rest, meta, annotations)), PATH)
         == if REFRESH in annotations then Some(Leaf(annotations[REFRESH])) else None
  {
    var doc := Some(Document(rest, meta, annotations));
    var sub := Child(doc, "metadata");
    var ann := Child(sub, "annotations");
    assert PATH[1..] == ["annotations", REFRESH] && PATH[1..][1..] == [REFRESH] && PATH[1..][1..][1..] == [];
    assert sub == Some(Object(Metadata(meta, annotations)));
    assert FieldsOf(ann) == Values(annotations);
    assert Set(ann, [REFRESH], Leaf(stamp)) == Object(Values(annotations)[REFRESH := Leaf(stamp)]) by {
      assert [REFRESH][1..] == [];
    }
    assert Values(annotations)[REFRESH := Leaf(stamp)] == Values(annotations[REFRESH := stamp]);
    assert annotations[REFRESH := stamp] != map[] by {
      assert REFRESH in annotations[REFRESH := stamp];
    }
    assert Set(sub, ["annotations", REFRESH], Leaf(stamp)) == Object(Metadata(meta, annotations[REFRESH := stamp])) by {
      assert ["annotations", REFRESH][1..] == [REFRESH];
    }
    assert Get(ann, [REFRESH]) == Child(ann, REFRESH) by {
      assert [REFRESH][1..] == [];
    }
  }

  /** The difference sent is exactly the one annotation. */
  lemma PatchIsMinimal(rest: map<string, Json>, meta: map<string, Json>, annotations: map<string, string>,
                       stamp: string)
    requires !Has(annotations, stamp)
    ensures Diff(Document(rest, meta, annotations), Document(rest, meta, annotations[REFRESH := stamp]))
            == Only(PATH, Leaf(stamp))
  {
    AnnotationIsLeaf(rest, meta, annotations, stamp);
    DiffOfSet(Document(rest, meta, annotations), PATH, stamp);
  }

  /** The patch as it is sent. */
  lemma PatchInWords(stamp: string)
    ensures Only(PATH, Leaf(stamp))
         == Object(map["metadata" := Object(map["annotations" := Object(map["kardinal.io/refresh" := Leaf(stamp)])])])
  {
    var rest, last := ["annotations", REFRESH], [REFRESH];
    assert PATH[1..] == rest && rest[1..] == last && last[1..] == [];
    assert Only(last, Leaf(stamp)) == Object(map[REFRESH := Leaf(stamp)]);
    assert Only(rest, Leaf(stamp)) == Object(map["annotations" := Only(last, Leaf(stamp))]);
  }

  /** Applied to whatever is stored by now, it sets that annotation and keeps every other field. */
  lemma PatchKeepsOthers(stored: Json, stamp: string, other: seq<string>)
    ensures Get(Some(Merge(Some(stored), Only(PATH, Leaf(stamp)))), PATH) == Some(Leaf(stamp))
    ensures Apart(PATH, other) ==>
              Get(Some(Merge(Some(stored), Only(PATH, Leaf(stamp)))), other) == Get(Some(stored), other)
  {
    MergeOfOnly(Some(stored), PATH, stamp);
    SetGets(Some(stored), PATH, Leaf(stamp));
    if Apart(PATH, other) {
      SetKeepsOthers(Some(stored), PATH, Leaf(stamp), other);
    }
  }

  // ---------- The webhook ----------

  class Subscription {
    var annotations: GoMap?<string>
    var lastRefreshRequest: string
    var meta: map<string, Json>
    var rest: map<string, Json>

    constructor (annotations: GoMap?<string>, lastRefreshRequest: string,
                 meta: map<string, Json>, rest: map<string, Json>)
      ensures this.annotations == annotations && this.lastRefreshRequest == lastRefreshRequest
      ensures this.meta == meta && this.rest == rest
    {
      this.annotations, this.lastRefreshRequest, this.meta, this.rest := annotations, lastRefreshRequest, meta, rest;
    }

    function Annotated(): map<string, string>
      reads this, annotations
    {
      if annotations == null then map[] else annotations.m
    }

    function Doc(): Json
      reads this, annotations
    {
      Document(rest, meta, Annotated())
    }

    method DeepCopy() returns (out: Subscription)
      ensures fresh(out) && fresh(One(out.annotations))
      ensures MapAt(out.annotations) == MapAt(annotations)
      ensures out.lastRefreshRequest == lastRefreshRequest && out.meta == meta && out.rest == rest
    {
      var copy := CopyMap(annotations);
      out := new Subscription(copy, lastRefreshRequest, meta, rest);
    }

    /** Sets the annotation in place and returns the difference from a copy taken before: that
        annotation and nothing else, or nothing if it had that value. */
    method Stamp(stamp: string) returns (patch: Json)
      modifies this, One(annotations)
      ensures Annotated() == old(Annotated())[REFRESH := stamp]
      ensures lastRefreshRequest == old(lastRefreshRequest) && meta == old(meta) && rest == old(rest)
      ensures patch == if old(Has(Annotated(), stamp)) then Object(map[]) else Only(PATH, Leaf(stamp))
    {
      ghost var before := Annotated();
      var base := DeepCopy();
      if annotations == null {
        annotations := new GoMap<string>();
      }
      annotations.m := annotations.m[REFRESH := stamp];
      patch := Diff(base.Doc(), Doc());
      if Has(before, stamp) {
        assert before[REFRESH := stamp] == before;
        assert patch == Object(map[]);
      } else {
        PatchIsMinimal(rest, meta, before, stamp);
      }
    }
  }

  /** The mistake the deep copy avoids. A base that is a copy of the struct alone shares the
      annotations, if there are any: whatever has been written to them by then, the difference is
      empty and nothing is sent. Only where there were none does the write show. */
  lemma SharedBaseSendsNothing(base: Subscription, sub: Subscription, stamp: string)
    requires base.meta == sub.meta && base.rest == sub.rest && sub.annotations != null
    ensures base.annotations == sub.annotations ==> Diff(base.Doc(), sub.Doc()) == Object(map[])
    ensures base.annotations == null && sub.annotations.m == map[REFRESH := stamp] ==>
              Diff(base.Doc(), sub.Doc()) == Only(PATH, Leaf(stamp))
  {
    if base.annotations == null && sub.annotations.m == map[REFRESH := stamp] {
      PatchIsMinimal(sub.rest, sub.meta, map[], stamp);
      assert map[][REFRESH := stamp] == map[REFRESH := stamp];
    }
  }

  // ---------- The API server ----------

  /** The refresh annotation of a stored object. */
  function StoredAnnotation(doc: Json): string {
    match Get(Some(doc), PATH)
    case Some(Leaf(text)) => text
    case _ => ""
  }

  /** What the API server has stored, by name. */
  class Server {
    var stored: map<string, Json>

    method Patch(name: string, patch: Json, fails: bool) returns (ok: bool)
      requires name in stored
      modifies this
      ensures ok == !fails
      ensures stored == if ok then old(stored)[name := Merge(Some(old(stored)[name]), patch)] else old(stored)
    {
      ok := !fails;
      if ok {
        stored := stored[name := Merge(Some(stored[name]), patch)];
      }
    }
  }

  /** What merging the webhook's patch makes of a stored object, whatever it is by then; `same`
      says that what was read had the annotation with that time already. */
  function Refreshed(doc: Json, same: bool, stamp: string): Json {
    Merge(Some(doc), if same then Object(map[]) else Only(PATH, Leaf(stamp)))
  }

  /** It sets the one annotation and keeps the rest, or changes nothing. */
  lemma RefreshedIs(doc: Json, same: bool, stamp: string)
    requires doc.Object?
    ensures Refreshed(doc, same, stamp) == if same then doc else Set(Some(doc), PATH, Leaf(stamp))
    ensures Refreshed(doc, same, stamp).Object?
    ensures (same ==> StoredAnnotation(doc) == stamp) ==> StoredAnnotation(Refreshed(doc, same, stamp)) == stamp
  {
    if same {
      assert Merge(Some(doc), Object(map[])).fields == doc.fields;
    } else {
      MergeOfOnly(Some(doc), PATH, stamp);
      SetGets(Some(doc), PATH, Leaf(stamp));
    }
  }

  /** The stored annotations are those the protocols are at. */
  ghost predicate Shows(stored: map<string, Json>, f: Fleet) {
    forall k :: k in f.subs ==> k in stored && stored[k].Object? && StoredAnnotation(stored[k]) == f.subs[k].annotation
  }

  lemma ShowsMove(stored: map<string, Json>, f: Fleet, name: string, stamp: string, doc: Json)
    requires Shows(stored, f) && name in f.subs && !f.subs[name].Open()
    requires doc.Object? && StoredAnnotation(doc) == stamp
    ensures Shows(stored[name := doc], Move(f, Event(name, RefreshProtocol.Deliver(stamp), false)))
  {
  }

  lemma NoWriteMove(f: Fleet, e: Event)
    requires e.name in f.subs
    ensures Writes(f.subs[e.name], e.step) && e.fails ==> Move(f, e) == f
    ensures !Writes(f.subs[e.name], e.step) ==> Move(f, e).refreshes == f.refreshes
    ensures Writes(f.subs[e.name], e.step) && !e.fails ==> Move(f, e).refreshes == f.refreshes + 1
    ensures !Writes(f.subs[e.name], e.step) ==> forall stored :: Shows(stored, f) ==> Shows(stored, Move(f, e))
  {
  }

  // ---------- The webhook ----------

  datatype Result = AlreadyPending | Requested | Failed

  class Hook {
    var refreshes: nat
    ghost const init: map<string, Found>
    ghost var events: seq<Event>

    /** Where the protocols of the Subscriptions are. */
    ghost function Now(): Fleet
      reads this
    {
      FleetAfter(init, events)
    }

    ghost predicate Valid(server: Server)
      reads this, server
    {
      refreshes == Now().refreshes && Shows(server.stored, Now())
    }

    constructor (ghost init: map<string, Found>, server: Server)
      requires Shows(server.stored, Launch(init))
      ensures Valid(server) && this.init == init && events == []
    {
      refreshes := 0;
      this.init, events := init, [];
    }

    /** The webhook's code, on whatever it read and whatever the server has stored by then: nothing
        is written if a request is outstanding in what was read; otherwise the stored object changes
        in that annotation only, unless the server refuses. */
    method Request(name: string, sub: Subscription, server: Server, stamp: string, fails: bool) returns (r: Result)
      requires name in server.stored
      modifies this`refreshes, sub, One(sub.annotations), server
      ensures r.AlreadyPending?
         <==> RefreshProtocol.Outstanding(old(Annotation(sub.Annotated())), old(sub.lastRefreshRequest))
      ensures r.Failed? <==> !r.AlreadyPending? && fails
      ensures server.stored == if !r.Requested? then old(server.stored)
                               else old(server.stored)[name := Refreshed(old(server.stored)[name],
                                 old(Has(sub.Annotated(), stamp)), stamp)]
      ensures refreshes == old(refreshes) + if r.Requested? then 1 else 0
    {
      var pending := Annotation(sub.Annotated());
      if pending != "" && pending != sub.lastRefreshRequest {
        return AlreadyPending;
      }
      var patch := sub.Stamp(stamp);
      var ok := server.Patch(name, patch, fails);
      if !ok {
        return Failed;
      }
      refreshes := refreshes + 1;
      return Requested;
    }

    /** An authenticated delivery that read the stored object is one step of its Subscription's
        protocol; a write the server refuses leaves the protocol where it was. `refreshes` is the
        number of writes made since the start. */
    method RequestRefresh(name: string, sub: Subscription, server: Server, stamp: string, fails: bool)
      returns (r: Result)
      requires Valid(server) && name in Now().subs
      requires Annotation(sub.Annotated()) == Now().subs[name].annotation &&
               sub.lastRefreshRequest == Now().subs[name].last
      modifies this, sub, One(sub.annotations), server
      ensures Valid(server) && events == old(events) + [Event(name, RefreshProtocol.Deliver(stamp), fails)]
      ensures Now() == Move(old(Now()), Event(name, RefreshProtocol.Deliver(stamp), fails))
      ensures r.AlreadyPending? <==> old(Now()).subs[name].Open()
      ensures r.Failed? <==> !r.AlreadyPending? && fails
      ensures refreshes == Sum(WritesOf(Now().subs)) == old(refreshes) + if r.Requested? then 1 else 0
    {
      ghost var e := Event(name, RefreshProtocol.Deliver(stamp), fails);
      DeliveryMoves(init, events, e, server.stored, stamp, Has(sub.Annotated(), stamp));
      ghost var before := events;
      r := Request(name, sub, server, stamp, fails);
      events := before + [e];
      assert Now() == FleetAfter(init, before + [e]);
    }

    /** The reconciler's polls are the other steps. */
    ghost method Polled(name: string, step: RefreshProtocol.Step, server: Server)
      requires Valid(server) && name in Now().subs && !step.Deliver?
      modifies this
      ensures Valid(server) && events == old(events) + [Event(name, step, false)]
      ensures Now() == Move(old(Now()), Event(name, step, false)) && refreshes == old(refreshes)
    {
      NextEvent(init, events, Event(name, step, false));
      NoWriteMove(Now(), Event(name, step, false));
      events := events + [Event(name, step, false)];
    }
  }

  /** What a delivery makes of the protocols, the count and the stored object. */
  lemma DeliveryMoves(init: map<string, Found>, events: seq<Event>, e: Event, stored: map<string, Json>,
                      stamp: string, same: bool)
    requires var f := FleetAfter(init, events);
             Shows(stored, f) && e.name in f.subs && e.step == RefreshProtocol.Deliver(stamp) &&
               (same ==> f.subs[e.name].annotation == stamp)
    ensures var f, g := FleetAfter(init, events), FleetAfter(init, events + [e]);
            && g == Move(f, e) && g.refreshes == Sum(WritesOf(g.subs))
            && (f.subs[e.name].Open() || e.fails ==> Shows(stored, g) && g.refreshes == f.refreshes)
            && (!f.subs[e.name].Open() && !e.fails ==>
                  Shows(stored[e.name := Refreshed(stored[e.name], same, stamp)], g) && g.refreshes == f.refreshes + 1)
  {
    var f := FleetAfter(init, events);
    NextEvent(init, events, e);
    RefreshesAreWrites(init, events + [e]);
    NoWriteMove(f, e);
    if !f.subs[e.name].Open() && !e.fails {
      RefreshedIs(stored[e.name], same, stamp);
      ShowsMove(stored, f, e.name, stamp, Refreshed(stored[e.name], same, stamp));
    }
  }

  lemma NextEvent(init: map<string, Found>, events: seq<Event>, e: Event)
    ensures FleetAfter(init, events + [e]) == Move(FleetAfter(init, events), e)
  {
    assert (events + [e])[..|events|] == events;
  }
}
