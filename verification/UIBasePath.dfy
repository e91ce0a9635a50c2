/** The flag that names a second place for the web interface, and the routing it leads to. */
module UIBasePath {
  import opened GoStrings

  // ---------- The flag ----------

  predicate SegmentChar(c: char) {
    'A' <= c <= 'Z' || 'a' <= c <= 'z' || '0' <= c <= '9' || c in {'.', '_', '~', '-'}
  }

  predicate SegmentOk(s: string) {
    s != "." && s != ".." && s != "" && forall i :: 0 <= i < |s| ==> SegmentChar(s[i])
  }

  /** None stands for a refused flag; slashes at the end do not count. */
  function ParseBase(raw: string): Option<string> {
    var p := TrimRight(TrimSpace(raw), '/');
    if p == "" then Some("")
    else if !HasPrefix(p, "/") then None
    else
      var segs := Split(p[1..], '/');
      if exists i :: 0 <= i < |segs| && !SegmentOk(segs[i]) then None
      else if segs[0] == "ui" || segs[0] == "api" then None
      else Some(p)
  }

  /** What an accepted base looks like. */
  predicate BaseOk(base: string) {
    base == "" ||
    (&& base[0] == '/' && !EndsWith(base, '/')
     && var segs := Split(base[1..], '/');
        && (forall i :: 0 <= i < |segs| ==> SegmentOk(segs[i]))
        && segs[0] != "ui" && segs[0] != "api")
  }

  lemma AcceptedBase(raw: string)
    requires ParseBase(raw).Some?
    ensures BaseOk(ParseBase(raw).value)
  {
    TrimRightTrims(TrimSpace(raw), '/');
  }

  lemma BaseEnd(base: string)
    requires BaseOk(base) && base != ""
    ensures Trimmed(base)
  {
    var segs, last := Split(base[1..], '/'), base[|base| - 1];
    JoinOfSplit(base[1..], '/');
    assert |base| > 1 && base[1..][|base| - 2] == last;
    JoinChars(segs, '/', last);
    var i :| 0 <= i < |segs| && last in segs[i];
    assert SegmentOk(segs[i]);
  }

  /** Exactly the well-formed bases are results, and each is accepted as it stands. */
  lemma BaseFixed(base: string)
    ensures ParseBase(base) == Some(base) <==> BaseOk(base)
    ensures (exists raw :: ParseBase(raw) == Some(base)) <==> BaseOk(base)
  {
    forall raw | ParseBase(raw) == Some(base)
      ensures BaseOk(base)
    {
      AcceptedBase(raw);
    }
    if BaseOk(base) && base != "" {
      BaseEnd(base);
      assert TrimSpace(base) == base && TrimRight(base, '/') == base;
    }
    if BaseOk(base) {
      assert ParseBase(base) == Some(base);
    }
  }

  /** The flag spells the base with white space around it and slashes at its end. */
  predicate Spells(raw: string, base: string, left: string, slashes: nat, right: string) {
    raw == left + (base + RunOf('/', slashes)) + right && AllSpace(left) && AllSpace(right)
  }

  lemma BaseTrimmed(base: string, slashes: nat)
    requires BaseOk(base)
    ensures Trimmed(base + RunOf('/', slashes)) && !EndsWith(base, '/')
  {
    if base != "" {
      BaseEnd(base);
    }
  }

  /** What a flag is read as: a base exactly if it is well formed and the flag spells it. */
  lemma ParseBaseExactly(raw: string, base: string)
    ensures ParseBase(raw) == Some(base)
       <==> BaseOk(base) && exists left, slashes: nat, right :: Spells(raw, base, left, slashes, right)
  {
    if ParseBase(raw) == Some(base) {
      AcceptedBase(raw);
      var left, right := TrimSpaceLeaves(raw);
      var slashes := TrimRightLeaves(TrimSpace(raw), '/');
      assert Spells(raw, base, left, slashes, right);
    }
    if BaseOk(base) {
      forall left, slashes: nat, right | Spells(raw, base, left, slashes, right)
        ensures ParseBase(raw) == Some(base)
      {
        BaseTrimmed(base, slashes);
        TrimSpaceOf(left, base + RunOf('/', slashes), right);
        TrimRightOf(base, '/', slashes);
        BaseFixed(base);
      }
    }
  }

  /** A segment of letters, digits and four other characters, neither of the two dotted ones. */
  predicate Plain(seg: string) {
    && seg != "" && seg != "." && seg != ".."
    && forall i :: 0 <= i < |seg| ==>
         || 65 <= seg[i] as int <= 90 || 97 <= seg[i] as int <= 122 || 48 <= seg[i] as int <= 57
         || seg[i] in "._~-"
  }

  /** The well-formed bases are the empty one and those made of plain segments, each after a slash,
      of which the first is neither ui nor api. */
  lemma BaseExactly(base: string)
    ensures BaseOk(base)
       <==> base == "" || exists segs :: MadeOf(base, segs)
  {
    assert forall seg :: SegmentOk(seg) <==> Plain(seg);
    if BaseOk(base) && base != "" {
      JoinOfSplit(base[1..], '/');
      assert base == "/" + base[1..];
      assert MadeOf(base, Split(base[1..], '/'));
    }
    forall segs | MadeOf(base, segs)
      ensures BaseOk(base)
    {
      assert Free(segs, '/');
      JoinEnd(segs, '/');
      SplitOfJoin(segs, '/');
      assert base[1..] == Join(segs, '/');
    }
  }

  predicate MadeOf(base: string, segs: seq<string>) {
    && segs != [] && base == "/" + Join(segs, '/') && segs[0] != "ui" && segs[0] != "api"
    && forall i :: 0 <= i < |segs| ==> Plain(segs[i])
  }

  // ---------- Routing ----------

  /** A decoded path and the encoded one beside it, "" when that is the usual encoding. */
  datatype Request = Request(path: string, rawPath: string)
  datatype Served = Inner(request: Request) | Redirect(location: string) | NotFound

  function TrimPrefix(s: string, prefix: string): string {
    if prefix <= s then s[|prefix|..] else s
  }

  /** net/http's StripPrefix. */
  function StripPrefix(prefix: string, r: Request): Served {
    var p, rp := TrimPrefix(r.path, prefix), TrimPrefix(r.rawPath, prefix);
    if prefix == "" then Inner(r)
    else if |p| < |r.path| && (r.rawPath == "" || |rp| < |r.rawPath|) then Inner(Request(p, rp))
    else NotFound
  }

  predicate UIPath(path: string) {
    HasPrefix(path, "/ui/") || HasPrefix(path, "/api/v1/ui/")
  }

  function Route(base: string, r: Request): Served {
    if base == "" then Inner(r)
    else
      match CutPrefix(r.path, base)
      case None => Inner(r)
      case Some(rest) =>
        if rest == "" || rest == "/" || rest == "/ui" then Redirect(base + "/ui/")
        else if UIPath(rest) then StripPrefix(base, r)
        else Inner(r)
  }

  /** Under the base a UI path reaches the inner handler without it. The encoded path decides
      only when it spells the base in another way: then the request is not found. */
  lemma Transparent(base: string, p: string, rawPath: string)
    requires UIPath(p)
    ensures Route(base, Request(base + p, rawPath))
         == if rawPath == "" || base <= rawPath then Inner(Request(p, TrimPrefix(rawPath, base))) else NotFound
  {
    assert (base + p)[|base|..] == p;
    assert base == "" ==> base + p == p;
  }

  /** No accepted base captures a UI path that does not start with it. */
  lemma UnprefixedUnchanged(base: string, r: Request)
    requires BaseOk(base) && UIPath(r.path)
    ensures Route(base, r) == Inner(r)
  {
    if base != "" && base <= r.path {
      var rest := r.path[|base|..];
      assert r.path[1..] == base[1..] + rest;
      if rest == "" || rest[0] == '/' {
        SplitExtended(base[1..], rest, '/');
        FirstSegment(r.path);
        assert false;
      }
    }
  }

  lemma FirstSegment(path: string)
    requires UIPath(path)
    ensures Split(path[1..], '/')[0] == "ui" || Split(path[1..], '/')[0] == "api"
  {
    if HasPrefix(path, "/ui/") {
      assert path[1..] == "ui" + ['/'] + path[4..];
      SplitFirst("ui", path[4..], '/');
    } else {
      assert path[1..] == "api" + ['/'] + path[5..];
      SplitFirst("api", path[5..], '/');
    }
  }

  /** A redirect leads to the UI, not to another redirect. */
  lemma RedirectEnds(base: string, r: Request)
    requires Route(base, r).Redirect?
    ensures Route(base, Request(Route(base, r).location, "")) == Inner(Request("/ui/", ""))
  {
    Transparent(base, "/ui/", "");
  }

  /** Exactly the base itself and the UI under it are treated specially. */
  lemma OthersUnchanged(base: string, r: Request)
    ensures Route(base, r) == Inner(r)
       <==> base == "" || !(base <= r.path && (r.path[|base|..] in {"", "/", "/ui"} || UIPath(r.path[|base|..])))
  {
  }

  /** What reaches the inner handler is never treated again: routing it once more changes nothing. */
  lemma RoutedOnce(base: string, r: Request)
    requires BaseOk(base) && Route(base, r).Inner?
    ensures Route(base, Route(base, r).request) == Route(base, r)
  {
    var inner := Route(base, r).request;
    if inner != r {
      UnprefixedUnchanged(base, inner);
    }
  }

  /** Every request, by its path: the base with or without a slash or `/ui` is redirected, a UI path
      under it is stripped, and the rest passes. */
  lemma RouteExactly(base: string, r: Request)
    ensures Route(base, r).Redirect? <==> base != "" && r.path in {base, base + "/", base + "/ui"}
    ensures Route(base, r).Redirect? ==> Route(base, r).location == base + "/ui/"
    ensures Route(base, r).NotFound?
       <==> base != "" && base <= r.path && UIPath(r.path[|base|..]) && r.rawPath != "" && !(base <= r.rawPath)
    ensures Route(base, r).Inner? && Route(base, r).request != r ==>
              && base != "" && base <= r.path && UIPath(r.path[|base|..])
              && Route(base, r).request.path == r.path[|base|..]
    ensures UIPath(r.path) <==> "/ui/" <= r.path || "/api/v1/ui/" <= r.path
  {
    if base <= r.path {
      var rest := r.path[|base|..];
      assert r.path == base + rest;
      assert r.path == base <==> rest == "";
      assert r.path == base + "/" <==> rest == "/" by {
        assert (base + "/")[|base|..] == "/";
      }
      assert r.path == base + "/ui" <==> rest == "/ui" by {
        assert (base + "/ui")[|base|..] == "/ui";
      }
    }
  }
}
