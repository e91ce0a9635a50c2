/** The functions of Go's strings package that the parsers use, on sequences of characters. */
module GoStrings {

  datatype Option<+T> = None | Some(value: T)

  predicate HasPrefix(s: string, prefix: string) {
    prefix <= s
  }

  /** What follows the prefix, if s has it. */
  function CutPrefix(s: string, prefix: string): Option<string> {
    if prefix <= s then Some(s[|prefix|..]) else None
  }

  predicate EndsWith(s: string, c: char) {
    s != "" && s[|s| - 1] == c
  }

  /** s without one trailing c. */
  function TrimSuffix(s: string, c: char): string {
    if EndsWith(s, c) then s[..|s| - 1] else s
  }

  /** s without any trailing c. */
  function TrimRight(s: string, c: char): string {
    if EndsWith(s, c) then TrimRight(s[..|s| - 1], c) else s
  }

  /** White space as Go's unicode.IsSpace defines it. */
  predicate IsSpace(c: char) {
    || c in {'\t', '\n', '\U{0B}', '\U{0C}', '\r', ' ', '\U{85}', '\U{A0}'}
    || c in {'\U{1680}', '\U{2028}', '\U{2029}', '\U{202F}', '\U{205F}', '\U{3000}'}
    || '\U{2000}' <= c <= '\U{200A}'
  }

  function TrimSpace(s: string): string {
    if s != "" && IsSpace(s[0]) then TrimSpace(s[1..])
    else if s != "" && IsSpace(s[|s| - 1]) then TrimSpace(s[..|s| - 1])
    else s
  }

  /** No white space at either end. */
  predicate Trimmed(s: string) {
    s == "" || (!IsSpace(s[0]) && !IsSpace(s[|s| - 1]))
  }

  lemma {:induction false} TrimSpaceTrims(s: string)
    ensures Trimmed(TrimSpace(s))
    ensures forall c :: c in TrimSpace(s) ==> c in s
    decreases |s|
  {
    if s != "" && IsSpace(s[0]) {
      TrimSpaceTrims(s[1..]);
    } else if s != "" && IsSpace(s[|s| - 1]) {
      TrimSpaceTrims(s[..|s| - 1]);
    }
  }

  predicate AllSpace(s: string) {
    forall i :: 0 <= i < |s| ==> IsSpace(s[i])
  }

  /** Nothing but white space is taken away, at the ends. */
  lemma {:induction false} TrimSpaceLeaves(s: string) returns (left: string, right: string)
    ensures s == left + TrimSpace(s) + right && AllSpace(left) && AllSpace(right)
    decreases |s|
  {
    if s != "" && IsSpace(s[0]) {
      left, right := TrimSpaceLeaves(s[1..]);
      left := [s[0]] + left;
    } else if s != "" && IsSpace(s[|s| - 1]) {
      left, right := TrimSpaceLeaves(s[..|s| - 1]);
      right := right + [s[|s| - 1]];
    } else {
      left, right := "", "";
    }
  }

  /** And all of it. */
  lemma {:induction false} TrimSpaceOf(left: string, core: string, right: string)
    requires AllSpace(left) && AllSpace(right) && Trimmed(core)
    ensures TrimSpace(left + core + right) == core
    decreases |left| + |right|
  {
    var s := left + core + right;
    if left != "" {
      assert s[0] == left[0] && s[1..] == left[1..] + core + right;
      TrimSpaceOf(left[1..], core, right);
    } else if right != "" {
      if core == "" {
        assert s[0] == right[0] && s[1..] == left + core + right[1..];
        TrimSpaceOf(left, core, right[1..]);
      } else {
        var n := |right| - 1;
        assert s[0] == core[0] && s[|s| - 1] == right[n] && s[..|s| - 1] == left + core + right[..n];
        TrimSpaceOf(left, core, right[..n]);
      }
    } else {
      assert s == core;
    }
  }

  function RunOf(c: char, n: nat): string {
    seq(n, _ => c)
  }

  /** The same for a trailing character. */
  lemma {:induction false} TrimRightLeaves(s: string, c: char) returns (n: nat)
    ensures s == TrimRight(s, c) + RunOf(c, n)
  {
    if EndsWith(s, c) {
      n := TrimRightLeaves(s[..|s| - 1], c);
      n := n + 1;
      assert RunOf(c, n) == RunOf(c, n - 1) + [c];
      assert s == s[..|s| - 1] + [c];
    } else {
      n := 0;
    }
  }

  lemma {:induction false} TrimRightOf(core: string, c: char, n: nat)
    requires !EndsWith(core, c)
    ensures TrimRight(core + RunOf(c, n), c) == core
  {
    var s := core + RunOf(c, n);
    if n > 0 {
      assert s[..|s| - 1] == core + RunOf(c, n - 1);
      TrimRightOf(core, c, n - 1);
    } else {
      assert s == core;
    }
  }

  lemma {:induction false} TrimRightTrims(s: string, c: char)
    ensures !EndsWith(TrimRight(s, c), c)
    ensures TrimRight(s, c) <= s
  {
    if EndsWith(s, c) {
      TrimRightTrims(s[..|s| - 1], c);
    }
  }

  // ---------- Split and Join ----------

  /** The position of the first c. */
  function Index(s: string, c: char): (i: nat)
    requires c in s
    ensures i < |s| && s[i] == c && c !in s[..i]
  {
    if s[0] == c then 0
    else
      var i := Index(s[1..], c) + 1;
      assert s[..i] == [s[0]] + s[1..][..i - 1];
      i
  }

  /** The parts of s between the separators; never empty. */
  function Split(s: string, c: char): (parts: seq<string>)
    ensures |parts| >= 1
    decreases |s|
  {
    if c !in s then [s]
    else
      var i := Index(s, c);
      [s[..i]] + Split(s[i + 1..], c)
  }

  function Join(parts: seq<string>, c: char): string {
    if parts == [] then ""
    else if |parts| == 1 then parts[0]
    else parts[0] + [c] + Join(parts[1..], c)
  }

  ghost predicate Free(parts: seq<string>, c: char) {
    forall i :: 0 <= i < |parts| ==> c !in parts[i]
  }

  lemma {:induction false} IndexAfter(first: string, rest: string, c: char)
    requires c !in first
    ensures c in first + [c] + rest && Index(first + [c] + rest, c) == |first|
  {
    var s := first + [c] + rest;
    assert s[|first|] == c;
    if first != "" {
      IndexAfter(first[1..], rest, c);
      assert s[1..] == first[1..] + [c] + rest;
    }
  }

  /** The first part ends at the first separator. */
  lemma SplitFirst(first: string, rest: string, c: char)
    requires c !in first
    ensures Split(first + [c] + rest, c) == [first] + Split(rest, c)
  {
    var s := first + [c] + rest;
    assert s[|first|] == c;
    IndexAfter(first, rest, c);
    assert s[..|first|] == first && s[|first| + 1..] == rest;
  }

  lemma {:induction false} SplitOfJoin(parts: seq<string>, c: char)
    requires parts != [] && Free(parts, c)
    ensures Split(Join(parts, c), c) == parts
  {
    if |parts| > 1 {
      SplitOfJoin(parts[1..], c);
      SplitFirst(parts[0], Join(parts[1..], c), c);
    }
  }

  lemma {:induction false} JoinOfSplit(s: string, c: char)
    ensures Join(Split(s, c), c) == s && Free(Split(s, c), c)
    decreases |s|
  {
    if c in s {
      var i := Index(s, c);
      JoinOfSplit(s[i + 1..], c);
      assert Split(s, c)[1..] == Split(s[i + 1..], c);
      assert s == s[..i] + [c] + s[i + 1..];
    }
  }

  /** A join ends with the separator only if its last part is empty. */
  lemma {:induction false} JoinEnd(parts: seq<string>, c: char)
    requires parts != [] && Free(parts, c) && parts[|parts| - 1] != ""
    ensures Join(parts, c) != "" && !EndsWith(Join(parts, c), c)
  {
    if |parts| > 1 {
      JoinEnd(parts[1..], c);
    } else {
      assert parts[0][|parts[0]| - 1] in parts[0];
    }
  }

  /** A string that continues with a separator, or not at all, keeps its first part. */
  lemma SplitExtended(s: string, rest: string, c: char)
    requires rest == "" || rest[0] == c
    ensures Split(s + rest, c)[0] == Split(s, c)[0]
  {
    if c in s {
      var i := Index(s, c);
      assert s + rest == s[..i] + [c] + (s[i + 1..] + rest);
      SplitFirst(s[..i], s[i + 1..] + rest, c);
    } else if rest == "" {
      assert s + rest == s;
    } else {
      assert s + rest == s + [c] + rest[1..];
      SplitFirst(s, rest[1..], c);
    }
  }

  /** The characters of a join are the separator and the parts' own. */
  lemma {:induction false} JoinChars(parts: seq<string>, c: char, x: char)
    requires x in Join(parts, c)
    ensures x == c || exists i :: 0 <= i < |parts| && x in parts[i]
  {
    if |parts| > 1 {
      if x !in parts[0] && x != c {
        JoinChars(parts[1..], c, x);
        var i :| 0 <= i < |parts[1..]| && x in parts[1..][i];
        assert x in parts[i + 1];
      }
    } else {
      assert x in parts[0];
    }
  }
}
