/** Comma-separated flag values. */
module SplitCsv {
  import opened GoStrings

  /** The simple form: split on commas, trim each part, drop the empty ones. */
  function Cleaned(parts: seq<string>): seq<string> {
    if parts == [] then []
    else
      var part := TrimSpace(parts[0]);
      (if part != "" then [part] else []) + Cleaned(parts[1..])
  }

  /** The loop's way of building the result: a trimmed part is added unless it is empty. */
  function Add(result: seq<string>, part: string): seq<string> {
    if part != "" then result + [part] else result
  }

  function Collect(result: seq<string>, parts: seq<string>): seq<string>
    decreases |parts|
  {
    if parts == [] then result else Collect(Add(result, TrimSpace(parts[0])), parts[1..])
  }

  lemma {:induction false} CollectIsCleaned(result: seq<string>, parts: seq<string>)
    ensures Collect(result, parts) == result + Cleaned(parts)
    decreases |parts|
  {
    if parts != [] {
      var part := TrimSpace(parts[0]);
      CollectIsCleaned(Add(result, part), parts[1..]);
      assert part != "" ==> result + [part] + Cleaned(parts[1..]) == result + ([part] + Cleaned(parts[1..]));
      assert part == "" ==> [] + Cleaned(parts[1..]) == Cleaned(parts[1..]);
    }
  }

  /** What the loop returns from a given state on. */
  function Loop(s: string, start: nat, i: nat, result: seq<string>): seq<string>
    requires start <= i <= |s| + 1 && (i == |s| + 1 ==> start == i)
    decreases |s| + 1 - i
  {
    if i > |s| then result
    else if i == |s| || s[i] == ',' then Loop(s, i + 1, i + 1, Add(result, TrimSpace(s[start..i])))
    else Loop(s, start, i + 1, result)
  }

  /** The index loop agrees with the simple form on every string. */
  method SplitCSV(s: string) returns (result: seq<string>)
    ensures result == Cleaned(Split(s, ','))
  {
    LoopIsSimple(s);
    if s == "" {
      return [];
    }
    result := [];
    var start := 0;
    var i := 0;
    while i <= |s|
      invariant 0 <= start <= i <= |s| + 1 && (i == |s| + 1 ==> start == i)
      invariant Loop(s, start, i, result) == Loop(s, 0, 0, [])
    {
      if i == |s| || s[i] == ',' {
        var part := TrimSpace(s[start..i]);
        if part != "" {
          result := result + [part];
        }
        start := i + 1;
      }
      i := i + 1;
    }
  }

  /** The parts the loop cuts from a given state on, before they are trimmed. */
  function Pieces(s: string, start: nat, i: nat): seq<string>
    requires start <= i <= |s|
    decreases |s| - i
  {
    if i == |s| then [s[start..i]]
    else if s[i] == ',' then [s[start..i]] + Pieces(s, i + 1, i + 1)
    else Pieces(s, start, i + 1)
  }

  lemma {:induction false} PiecesAreSplit(s: string, start: nat, i: nat)
    requires start <= i <= |s| && ',' !in s[start..i]
    ensures Pieces(s, start, i) == Split(s[start..], ',')
    decreases |s| - i
  {
    if i == |s| {
      assert s[start..] == s[start..i];
    } else if s[i] == ',' {
      PiecesAreSplit(s, i + 1, i + 1);
      assert s[start..] == s[start..i] + [','] + s[i + 1..];
      SplitFirst(s[start..i], s[i + 1..], ',');
    } else {
      assert s[start..i + 1] == s[start..i] + [s[i]];
      PiecesAreSplit(s, start, i + 1);
    }
  }

  lemma CollectFirst(result: seq<string>, part: string, rest: seq<string>)
    ensures Collect(result, [part] + rest) == Collect(Add(result, TrimSpace(part)), rest)
  {
    assert ([part] + rest)[1..] == rest;
  }

  /** From inside a part, the loop collects that part and the ones after it. */
  lemma {:induction false} LoopCollects(s: string, start: nat, i: nat, result: seq<string>)
    requires start <= i <= |s|
    ensures Loop(s, start, i, result) == Collect(result, Pieces(s, start, i))
    decreases |s| - i
  {
    if i == |s| {
      CollectFirst(result, s[start..i], []);
      assert [s[start..i]] + [] == [s[start..i]];
    } else if s[i] == ',' {
      LoopCollects(s, i + 1, i + 1, Add(result, TrimSpace(s[start..i])));
      CollectFirst(result, s[start..i], Pieces(s, i + 1, i + 1));
    } else {
      LoopCollects(s, start, i + 1, result);
    }
  }

  lemma LoopIsSimple(s: string)
    ensures Loop(s, 0, 0, []) == Cleaned(Split(s, ','))
    ensures s == "" ==> Cleaned(Split(s, ',')) == []
  {
    assert s[0..] == s;
    LoopCollects(s, 0, 0, []);
    PiecesAreSplit(s, 0, 0);
    CollectIsCleaned([], Split(s, ','));
    if s == "" {
      assert Split(s, ',') == [""] && [""][1..] == [];
    }
  }

  /** The simple form, part by part: what is left of each part stands in its place, unless nothing
      is. */
  lemma {:induction false} CleanedExactly(before: seq<string>, part: string, after: seq<string>)
    ensures Cleaned(before + [part] + after)
         == Cleaned(before) + (if AllSpace(part) then [] else [TrimSpace(part)]) + Cleaned(after)
    ensures Cleaned([]) == []
    decreases |before|
  {
    if before == [] {
      assert (before + [part] + after)[1..] == after;
      SpaceOnly(part);
    } else {
      CleanedExactly(before[1..], part, after);
      assert (before + [part] + after)[1..] == before[1..] + [part] + after;
    }
  }

  lemma SpaceOnly(part: string)
    ensures TrimSpace(part) == "" <==> AllSpace(part)
  {
    if AllSpace(part) {
      TrimSpaceOf(part, "", "");
      assert part + "" + "" == part;
    } else {
      var left, right := TrimSpaceLeaves(part);
      assert TrimSpace(part) == "" ==> AllSpace(left + right) && part == left + right;
    }
  }

  ghost predicate CleanPart(part: string) {
    part != "" && ',' !in part && Trimmed(part)
  }

  /** No part is empty, contains a comma or has white space around it. */
  lemma {:induction false} CleanedParts(parts: seq<string>)
    requires Free(parts, ',')
    ensures forall i :: 0 <= i < |Cleaned(parts)| ==> CleanPart(Cleaned(parts)[i])
  {
    if parts != [] {
      TrimSpaceTrims(parts[0]);
      CleanedParts(parts[1..]);
    }
  }

  lemma {:induction false} CleanIsFixed(parts: seq<string>)
    requires forall i :: 0 <= i < |parts| ==> CleanPart(parts[i])
    ensures Cleaned(parts) == parts
  {
    if parts != [] {
      CleanIsFixed(parts[1..]);
    }
  }

  /** Splitting the comma-join of a result gives the result back. */
  lemma SplitOfJoinedResult(s: string)
    ensures var result := Cleaned(Split(s, ','));
            Cleaned(Split(Join(result, ','), ',')) == result
  {
    JoinOfSplit(s, ',');
    var result := Cleaned(Split(s, ','));
    CleanedParts(Split(s, ','));
    CleanIsFixed(result);
    if result != [] {
      SplitOfJoin(result, ',');
    }
  }
}
