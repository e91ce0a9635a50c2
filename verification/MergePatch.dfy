/**
 JSON merge patches (section 2 of RFC 7396) and the difference a client sends between two
 versions of an object. Arrays, numbers and strings are all replaced as a whole, so one kind of
 leaf is enough; null occurs in patches only.
 */
module MergePatch {
  import opened GoStrings

  datatype Json = Null | Leaf(text: string) | Object(fields: map<string, Json>)

  /** No null anywhere: what a stored object looks like. */
  predicate Stored(d: Json) {
    match d
    case Null => false
    case Leaf(_) => true
    case Object(fields) => forall k :: k in fields ==> Stored(fields[k])
  }

  /** Applying a patch. */
  function Merge(target: Option<Json>, patch: Json): Json
    decreases patch
  {
    match patch
    case Object(changes) =>
      var fields := if target.Some? && target.value.Object? then target.value.fields else map[];
      Object(map k | k in fields.Keys + changes.Keys && (k in changes ==> !changes[k].Null?) ::
               if k !in changes then fields[k]
               else Merge(if k in fields then Some(fields[k]) else None, changes[k]))
    case _ => patch
  }

  /** The patch that leads from one object to another. */
  function Diff(from: Json, to: Json): Json
    decreases from
  {
    if !from.Object? || !to.Object? then to
    else
      Object(map k | k in from.fields.Keys + to.fields.Keys && Differs(from.fields, to.fields, k) ::
               if k !in to.fields then Null
               else if k !in from.fields then to.fields[k]
               else Diff(from.fields[k], to.fields[k]))
  }

  predicate Differs(from: map<string, Json>, to: map<string, Json>, k: string) {
    k !in from || k !in to || from[k] != to[k]
  }

  /** A stored value arrives whole where there is no object to merge it into. */
  lemma {:induction false} MergeWhole(target: Option<Json>, value: Json)
    requires Stored(value) && !(target.Some? && target.value.Object?)
    ensures Merge(target, value) == value
    decreases value
  {
    if value.Object? {
      forall k | k in value.fields
        ensures Merge(None, value.fields[k]) == value.fields[k]
      {
        MergeWhole(None, value.fields[k]);
      }
    }
  }

  /** A client's difference, applied to the object it was taken from, gives the new version. */
  lemma {:induction false} MergeOfDiff(from: Json, to: Json)
    requires Stored(from) && Stored(to)
    ensures Merge(Some(from), Diff(from, to)) == to
    decreases from
  {
    if from.Object? && to.Object? {
      var changes := Diff(from, to).fields;
      forall k | k in to.fields && k in changes
        ensures Merge(if k in from.fields then Some(from.fields[k]) else None, changes[k]) == to.fields[k]
      {
        if k in from.fields {
          MergeOfDiff(from.fields[k], to.fields[k]);
        } else {
          MergeWhole(None, to.fields[k]);
        }
      }
      forall k | k in to.fields && k in changes
        ensures !changes[k].Null?
      {
      }
    } else if !to.Object? {
    } else {
      MergeWhole(Some(from), to);
    }
  }

  // ---------- Changing one field ----------

  function FieldsOf(d: Option<Json>): map<string, Json> {
    if d.Some? && d.value.Object? then d.value.fields else map[]
  }

  function Child(d: Option<Json>, k: string): Option<Json> {
    if k in FieldsOf(d) then Some(FieldsOf(d)[k]) else None
  }

  function Get(d: Option<Json>, path: seq<string>): Option<Json>
    decreases path
  {
    if path == [] then d else Get(Child(d, path[0]), path[1..])
  }

  /** d with the value at path, objects made on the way where there are none. */
  function Set(d: Option<Json>, path: seq<string>, value: Json): Json
    decreases path
  {
    if path == [] then value
    else Object(FieldsOf(d)[path[0] := Set(Child(d, path[0]), path[1..], value)])
  }

  /** The patch that names one field and nothing else. */
  function Only(path: seq<string>, value: Json): Json {
    if path == [] then value else Object(map[path[0] := Only(path[1..], value)])
  }

  lemma {:induction false} OnlyIsSet(d: Option<Json>, path: seq<string>, value: Json)
    requires FieldsOf(d) == map[]
    ensures Set(d, path, value) == Only(path, value)
    decreases path
  {
    if path != [] {
      OnlyIsSet(Child(d, path[0]), path[1..], value);
    }
  }

  /** Changing one leaf gives a difference that names that leaf and nothing else. */
  lemma {:induction false} DiffOfSet(d: Json, path: seq<string>, text: string)
    requires d.Object? && path != [] && Get(Some(d), path) != Some(Leaf(text))
    ensures Diff(d, Set(Some(d), path, Leaf(text))) == Only(path, Leaf(text))
  {
    var k, rest := path[0], path[1..];
    var child := Child(Some(d), k);
    var to := Set(Some(d), path, Leaf(text));
    SetGets(child, rest, Leaf(text));
    assert Get(child, rest) == Get(Some(d), path);
    assert Differs(d.fields, to.fields, k);
    assert forall j :: j != k ==> !Differs(d.fields, to.fields, j) || (j !in d.fields && j !in to.fields);
    if FieldsOf(child) == map[] {
      OnlyIsSet(child, rest, Leaf(text));
    }
    if k in d.fields && d.fields[k].Object? && rest != [] {
      DiffOfSet(d.fields[k], rest, text);
    }
    assert Diff(d, to).fields.Keys == {k};
  }

  lemma {:induction false} SetGets(d: Option<Json>, path: seq<string>, value: Json)
    ensures Get(Some(Set(d, path, value)), path) == Some(value)
    decreases path
  {
    if path != [] {
      SetGets(Child(d, path[0]), path[1..], value);
      assert Child(Some(Set(d, path, value)), path[0]) == Some(Set(Child(d, path[0]), path[1..], value));
    }
  }

  /** Applied to any object, the patch sets that leaf. */
  lemma {:induction false} MergeOfOnly(d: Option<Json>, path: seq<string>, text: string)
    ensures Merge(d, Only(path, Leaf(text))) == Set(d, path, Leaf(text))
    decreases path
  {
    if path != [] {
      MergeOfOnly(Child(d, path[0]), path[1..], text);
    }
  }

  /** The paths part ways: neither lies below the other. */
  predicate Apart(p: seq<string>, q: seq<string>) {
    p != [] && q != [] && (p[0] != q[0] || Apart(p[1..], q[1..]))
  }

  /** Everything else in the object stays. */
  lemma {:induction false} SetKeepsOthers(d: Option<Json>, path: seq<string>, value: Json, other: seq<string>)
    requires Apart(path, other)
    ensures Get(Some(Set(d, path, value)), other) == Get(d, other)
    decreases path
  {
    if path[0] == other[0] {
      SetKeepsOthers(Child(d, path[0]), path[1..], value, other[1..]);
    }
    var after := Some(Set(d, path, value));
    assert path[0] != other[0] ==> Child(after, other[0]) == Child(d, other[0]);
  }
}
