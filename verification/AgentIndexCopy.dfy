/** The deep copy of the agent index: maps of structs that hold slices. */
module AgentIndexCopy {
  import opened GoStrings
  import opened DeepCopy

  // ---------- Entries ----------

  datatype AgentIndexEntry = AgentIndexEntry(agent: string, sponsor: string, namespaces: array?<string>,
                                             pipelines: array?<string>,
                                             environments: array?<string>, autonomy: string, blocked: string)
  datatype EntryValue = EntryValue(agent: string, sponsor: string, namespaces: Option<seq<string>>,
                                   pipelines: Option<seq<string>>,
                                   environments: Option<seq<string>>, autonomy: string, blocked: string)

  ghost function EntryStore(e: AgentIndexEntry): set<object> {
    One(e.namespaces) + One(e.pipelines) + One(e.environments)
  }

  ghost function ValueOfEntry(e: AgentIndexEntry): EntryValue
    reads e.namespaces, e.pipelines, e.environments
  {
    EntryValue(e.agent, e.sponsor, SliceAt(e.namespaces), SliceAt(e.pipelines), SliceAt(e.environments),
               e.autonomy, e.blocked)
  }

  method CopyEntry(e: AgentIndexEntry) returns (out: AgentIndexEntry)
    ensures ValueOfEntry(out) == ValueOfEntry(e) == old(ValueOfEntry(e))
    ensures fresh(EntryStore(out))
  {
    out := e;
    if e.namespaces != null {
      var namespaces := CopySlice(e.namespaces);
      out := out.(namespaces := namespaces);
    }
    if e.pipelines != null {
      var pipelines := CopySlice(e.pipelines);
      out := out.(pipelines := pipelines);
    }
    if e.environments != null {
      var environments := CopySlice(e.environments);
      out := out.(environments := environments);
    }
  }

  // ---------- Maps of entries ----------

  type Entries = map<string, AgentIndexEntry>
  type EntryValues = map<string, EntryValue>

  ghost function EntriesStore(m: Entries): set<object> {
    set k, o | k in m && o in EntryStore(m[k]) :: o
  }

  ghost function ValuesOf(m: Entries): EntryValues
    reads EntriesStore(m)
  {
    assert forall k, o :: k in m && o in EntryStore(m[k]) ==> o in EntriesStore(m);
    map k | k in m :: ValueOfEntry(m[k])
  }

  ghost predicate EntryIs(e: AgentIndexEntry, v: EntryValue, region: set<object>)
    reads region
  {
    EntryStore(e) <= region && ValueOfEntry(e) == v
  }

  /** The entries have these values, and hold nothing outside the region. */
  ghost predicate EntriesAre(m: Entries, v: EntryValues, region: set<object>)
    reads region
  {
    m.Keys == v.Keys && forall k :: k in m ==> EntryIs(m[k], v[k], region)
  }

  lemma EntriesOf(m: Entries, region: set<object>)
    requires EntriesStore(m) <= region
    ensures EntriesAre(m, ValuesOf(m), region)
  {
    forall k | k in m
      ensures EntryIs(m[k], ValuesOf(m)[k], region)
    {
      assert forall o :: o in EntryStore(m[k]) ==> o in EntriesStore(m);
    }
  }

  lemma EntriesMake(m: Entries, v: EntryValues, region: set<object>)
    requires EntriesAre(m, v, region)
    ensures ValuesOf(m) == v && EntriesStore(m) <= region
  {
  }

  lemma EntriesMore(m: Entries, v: EntryValues, region: set<object>, k: string, e: AgentIndexEntry)
    requires EntriesAre(m, v, region)
    ensures EntriesAre(m[k := e], v[k := ValueOfEntry(e)], region + EntryStore(e))
  {
    var wider := region + EntryStore(e);
    forall j | j in m
      ensures EntryIs(m[j], v[j], wider)
    {
      assert EntryIs(m[j], v[j], region);
    }
    assert EntryIs(e, ValueOfEntry(e), wider);
  }

  /** The values of the keys that are done. */
  ghost function Done(v: EntryValues, left: set<string>): EntryValues {
    map k | k in v && k !in left :: v[k]
  }

  lemma EntriesDone(m: Entries, v: EntryValues, left: set<string>, region: set<object>, k: string, e: AgentIndexEntry)
    requires EntriesAre(m, Done(v, left), region) && k in v && k in left && ValueOfEntry(e) == v[k]
    ensures EntriesAre(m[k := e], Done(v, left - {k}), region + EntryStore(e))
  {
    EntriesMore(m, Done(v, left), region, k, e);
    assert Done(v, left)[k := v[k]] == Done(v, left - {k});
  }

  method PutEntry(p: GoMap<AgentIndexEntry>, out: GoMap<AgentIndexEntry>, k: string, ghost v: EntryValues,
                  ghost region: set<object>,
                  ghost left: set<string>, ghost copied: set<object>) returns (ghost wider: set<object>)
    requires p != out && out !in region && out !in copied && k in p.m && k in left
    requires EntriesAre(p.m, v, region) && EntriesAre(out.m, Done(v, left), copied)
    modifies out
    ensures EntriesAre(p.m, v, region)
    ensures EntriesAre(out.m, Done(v, left - {k}), wider) && copied <= wider && fresh(wider - copied)
  {
    assert EntryIs(p.m[k], v[k], region);
    var e := CopyEntry(p.m[k]);
    EntriesDone(out.m, v, left, copied, k, e);
    wider := copied + EntryStore(e);
    out.m := out.m[k := e];
  }

  method FillEntries(p: GoMap<AgentIndexEntry>, out: GoMap<AgentIndexEntry>, ghost v: EntryValues,
                     ghost region: set<object>)
    returns (ghost copied: set<object>)
    requires p != out && out !in region && out.m == map[] && EntriesAre(p.m, v, region)
    modifies out
    ensures EntriesAre(out.m, v, copied) && fresh(copied)
  {
    copied := {};
    var keys := p.m.Keys;
    assert Done(v, keys) == map[];
    while keys != {}
      invariant keys <= p.m.Keys && EntriesAre(p.m, v, region)
      invariant EntriesAre(out.m, Done(v, keys), copied) && fresh(copied)
    {
      var k :| k in keys;
      copied := PutEntry(p, out, k, v, region, keys, copied);
      keys := keys - {k};
    }
    assert Done(v, {}) == v;
  }

  ghost predicate MapOfEntriesIs(p: GoMap?<AgentIndexEntry>, v: Option<EntryValues>, region: set<object>)
    reads region
  {
    if p == null then v == None else p in region && v.Some? && EntriesAre(p.m, v.value, region)
  }

  method CopyEntries(p: GoMap?<AgentIndexEntry>, ghost v: Option<EntryValues>, ghost region: set<object>)
    returns (out: GoMap?<AgentIndexEntry>, ghost r: set<object>)
    requires MapOfEntriesIs(p, v, region)
    ensures MapOfEntriesIs(out, v, r) && fresh(r)
  {
    if p == null {
      return null, {};
    }
    var made := new GoMap<AgentIndexEntry>();
    ghost var copied := FillEntries(p, made, v.value, region);
    out, r := made, copied + {made};
    EntriesMake(made.m, v.value, copied);
    EntriesOf(made.m, r);
  }

  // ---------- The status ----------

  datatype Condition = Condition(kind: string, status: string, generation: int, transition: int, reason: string,
                                 message: string)

  datatype StatusValue = StatusValue(identities: int, users: Option<EntryValues>, groups: Option<EntryValues>,
                                     compactUsers: Option<map<string, string>>,
                                     compactGroups: Option<map<string, string>>,
                                     bytes: int, maxBytes: int, conditions: Option<seq<Condition>>)

  ghost predicate StringMapIs(p: GoMap?<string>, v: Option<map<string, string>>, region: set<object>)
    reads region
  {
    (p != null ==> p in region) && MapAt(p) == v
  }

  ghost predicate ConditionsAre(s: array?<Condition>, v: Option<seq<Condition>>, region: set<object>)
    reads region
  {
    (s != null ==> s in region) && SliceAt(s) == v
  }

  ghost function MapStore(p: GoMap?<AgentIndexEntry>): set<object>
    reads p
  {
    if p == null then {} else {p} + EntriesStore(p.m)
  }

  ghost function EntriesAt(p: GoMap?<AgentIndexEntry>): Option<EntryValues>
    reads p, MapStore(p)
  {
    if p == null then None else Some(ValuesOf(p.m))
  }

  /** The references a status holds. */
  datatype StatusParts = StatusParts(users: GoMap?<AgentIndexEntry>, groups: GoMap?<AgentIndexEntry>,
                                     compactUsers: GoMap?<string>, compactGroups: GoMap?<string>,
                                     conditions: array?<Condition>)

  ghost predicate StatusIn(p: StatusParts, v: StatusValue, region: set<object>)
    reads region
  {
    && MapOfEntriesIs(p.users, v.users, region) && MapOfEntriesIs(p.groups, v.groups, region)
    && StringMapIs(p.compactUsers, v.compactUsers, region) && StringMapIs(p.compactGroups, v.compactGroups, region)
    && ConditionsAre(p.conditions, v.conditions, region)
  }

  class AgentIndexStatus {
    var identities: int
    var users: GoMap?<AgentIndexEntry>
    var groups: GoMap?<AgentIndexEntry>
    var compactUsers: GoMap?<string>
    var compactGroups: GoMap?<string>
    var bytes: int
    var maxBytes: int
    var conditions: array?<Condition>

    constructor ()
    {
      identities, bytes, maxBytes := 0, 0, 0;
      users, groups, compactUsers, compactGroups, conditions := null, null, null, null, null;
    }

    function Parts(): StatusParts
      reads this
    {
      StatusParts(users, groups, compactUsers, compactGroups, conditions)
    }

    ghost function Held(): set<object>
      reads this, users, groups
    {
      MapStore(users) + MapStore(groups) + One(compactUsers) + One(compactGroups) + One(conditions)
    }

    ghost function Value(): StatusValue
      reads this, users, groups, Held()
    {
      StatusValue(identities, EntriesAt(users), EntriesAt(groups), MapAt(compactUsers), MapAt(compactGroups),
                  bytes, maxBytes, SliceAt(conditions))
    }

    method DeepCopyInto(out: AgentIndexStatus)
      requires out != this
      modifies out
      ensures out.Value() == old(Value())
      ensures fresh(out.Held())
    {
      ghost var v, held := Value(), Held();
      HeldStatus(this);
      var p, r := CopyStatusParts(Parts(), v, held);
      out.Assign(identities, bytes, maxBytes, p, v, r);
    }

    method Assign(identities: int, bytes: int, maxBytes: int, p: StatusParts, ghost v: StatusValue,
                  ghost region: set<object>)
      requires StatusIn(p, v, region) && this !in region
      requires v.identities == identities && v.bytes == bytes && v.maxBytes == maxBytes
      modifies this
      ensures Value() == v && Held() <= region
    {
      this.identities, this.bytes, this.maxBytes := identities, bytes, maxBytes;
      users, groups, conditions := p.users, p.groups, p.conditions;
      compactUsers, compactGroups := p.compactUsers, p.compactGroups;
      StatusStays(this, (p, v, region));
    }
  }

  lemma HeldStatus(s: AgentIndexStatus)
    ensures StatusIn(s.Parts(), s.Value(), s.Held())
  {
    if s.users != null {
      EntriesOf(s.users.m, s.Held());
    }
    if s.groups != null {
      EntriesOf(s.groups.m, s.Held());
    }
  }

  lemma StatusMake(s: AgentIndexStatus, v: StatusValue, region: set<object>)
    requires StatusIn(s.Parts(), v, region)
    requires s.identities == v.identities && s.bytes == v.bytes && s.maxBytes == v.maxBytes
    ensures s.Value() == v && s.Held() <= region
  {
    if s.users != null {
      EntriesMake(s.users.m, v.users.value, region);
    }
    if s.groups != null {
      EntriesMake(s.groups.m, v.groups.value, region);
    }
  }

  /** A status made of parts that have not changed has the value they had. */
  twostate lemma StatusStays(new s: AgentIndexStatus, owned: (StatusParts, StatusValue, set<object>))
    requires old(StatusIn(owned.0, owned.1, owned.2))
    requires unchanged(owned.2)
    requires owned.0 == s.Parts()
    requires s.identities == owned.1.identities && s.bytes == owned.1.bytes && s.maxBytes == owned.1.maxBytes
    ensures s.Value() == owned.1 && s.Held() <= owned.2
  {
    StatusMake(s, owned.1, owned.2);
  }

  method CopyTables(users: GoMap?<AgentIndexEntry>, groups: GoMap?<AgentIndexEntry>, ghost v: StatusValue,
                    ghost held: set<object>)
    returns (users': GoMap?<AgentIndexEntry>, groups': GoMap?<AgentIndexEntry>,
             ghost r0: set<object>, ghost r1: set<object>)
    requires MapOfEntriesIs(users, v.users, held) && MapOfEntriesIs(groups, v.groups, held)
    ensures MapOfEntriesIs(users', v.users, r0) && MapOfEntriesIs(groups', v.groups, r1) && fresh(r0 + r1)
  {
    users', r0 := CopyEntries(users, v.users, held);
    groups', r1 := CopyEntries(groups, v.groups, held);
  }

  method CopyLeaves(p: StatusParts, ghost v: StatusValue, ghost held: set<object>)
    returns (users: GoMap?<string>, groups: GoMap?<string>, conditions: array?<Condition>, ghost r: set<object>)
    requires StringMapIs(p.compactUsers, v.compactUsers, held) && StringMapIs(p.compactGroups, v.compactGroups, held)
    requires ConditionsAre(p.conditions, v.conditions, held)
    ensures StringMapIs(users, v.compactUsers, r) && StringMapIs(groups, v.compactGroups, r)
    ensures ConditionsAre(conditions, v.conditions, r) && fresh(r)
  {
    users := CopyMap(p.compactUsers);
    groups := CopyMap(p.compactGroups);
    conditions := CopySlice(p.conditions);
    r := One(users) + One(groups) + One(conditions);
  }

  lemma TableWiden(p: GoMap?<AgentIndexEntry>, v: Option<EntryValues>, region: set<object>, wider: set<object>)
    requires MapOfEntriesIs(p, v, region) && region <= wider
    ensures MapOfEntriesIs(p, v, wider)
  {
    if p != null {
      EntriesMake(p.m, v.value, region);
      EntriesOf(p.m, wider);
    }
  }

  method CopyStatusParts(p: StatusParts, ghost v: StatusValue, ghost held: set<object>)
    returns (out: StatusParts, ghost r: set<object>)
    requires StatusIn(p, v, held)
    ensures StatusIn(out, v, r) && fresh(r)
  {
    var users, groups, r0, r1 := CopyTables(p.users, p.groups, v, held);
    var compactUsers, compactGroups, conditions, r2 := CopyLeaves(p, v, held);
    out := StatusParts(users, groups, compactUsers, compactGroups, conditions);
    r := r0 + r1 + r2;
    TableWiden(users, v.users, r0, r);
    TableWiden(groups, v.groups, r1, r);
  }

  /** The copy is equal to the original, and everything it is made of is new. */
  method CopyStatus(s: AgentIndexStatus?) returns (out: AgentIndexStatus?)
    ensures (out == null) == (s == null)
    ensures s != null ==> s.Value() == old(s.Value()) && s.Held() == old(s.Held())
    ensures s != null ==> out.Value() == old(s.Value()) && fresh(out) && fresh(out.Held())
    ensures s != null ==> {s} + s.Held() !! {out} + out.Held()
  {
    if s == null {
      return null;
    }
    ghost var held := s.Held();
    out := new AgentIndexStatus();
    StatusKept((s, held));
    s.DeepCopyInto(out);
    StatusKept((s, held));
  }

  /** Overwrites a status, and what hangs off it, with anything. */
  method Overwrite(s: AgentIndexStatus, p: StatusParts, bytes: int, table: Entries)
    modifies s, s.Held()
  {
    if s.users != null {
      s.users.m := table;
    }
    s.bytes := bytes;
    s.users, s.groups, s.compactUsers, s.compactGroups := p.users, p.groups, p.compactUsers, p.compactGroups;
    s.conditions := p.conditions;
  }

  /** Overwriting the copy leaves the original alone, and the other way round. */
  method CopyOverwritten(s: AgentIndexStatus, p: StatusParts, bytes: int, table: Entries)
    returns (out: AgentIndexStatus)
    ensures s.Value() == old(s.Value())
  {
    out := CopyStatus(s);
    ghost var held := s.Held();
    label Copied:
    Overwrite(out, p, bytes, table);
    StatusKept@Copied((s, held));
  }

  method OriginalOverwritten(s: AgentIndexStatus, p: StatusParts, bytes: int, table: Entries)
    returns (out: AgentIndexStatus)
    modifies s, s.Held()
    ensures out.Value() == old(s.Value())
  {
    out := CopyStatus(s);
    ghost var held := out.Held();
    label Copied:
    Overwrite(s, p, bytes, table);
    StatusKept@Copied((out, held));
  }

  /** Whatever is written later to other storage, a status keeps its value. `owned` is the status
      and what hangs off it. */
  twostate lemma StatusKept(owned: (AgentIndexStatus, set<object>))
    requires old(owned.0.Held()) == owned.1 && unchanged(owned.0) && unchanged(owned.1)
    ensures owned.0.Value() == old(owned.0.Value()) && owned.0.Held() == owned.1
  {
    var s := owned.0;
    MapKept(s.users);
    MapKept(s.groups);
    assert MapAt(s.compactUsers) == old(MapAt(s.compactUsers)) && MapAt(s.compactGroups) == old(MapAt(s.compactGroups));
    assert SliceAt(s.conditions) == old(SliceAt(s.conditions));
  }

  twostate lemma MapKept(p: GoMap?<AgentIndexEntry>)
    requires unchanged(old(MapStore(p)))
    ensures MapStore(p) == old(MapStore(p)) && EntriesAt(p) == old(EntriesAt(p))
  {
    if p != null {
      EntriesKept(p.m);
    }
  }

  twostate lemma EntriesKept(m: Entries)
    requires unchanged(EntriesStore(m))
    ensures ValuesOf(m) == old(ValuesOf(m))
  {
    forall k | k in m
      ensures ValueOfEntry(m[k]) == old(ValueOfEntry(m[k]))
    {
      assert forall o :: o in EntryStore(m[k]) ==> o in EntriesStore(m);
    }
  }
}
