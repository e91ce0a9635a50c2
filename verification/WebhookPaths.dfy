/** The paths of the two webhook receivers, parsed and printed. */
module WebhookPaths {
  import opened GoStrings

  const SUBSCRIPTION_PREFIX := "/webhook/subscriptions/"
  const CHANGE_REQUEST_PREFIX := "/webhook/changerequests/"
  const PROVIDERS := {"dockerhub", "ghcr", "github", "harbor", "quay", "artifactory", "generic"}

  datatype SubscriptionTarget = SubscriptionTarget(ns: string, name: string, provider: string, token: string)
  datatype ChangeRequestTarget = ChangeRequestTarget(ns: string, name: string, token: string)

  /** The segments after the prefix, one trailing slash ignored. */
  function Segments(rest: string): seq<string> {
    Split(TrimSuffix(rest, '/'), '/')
  }

  function SubscriptionOf(parts: seq<string>): Option<SubscriptionTarget> {
    if |parts| < 3 || |parts| > 4 then None
    else if exists i :: 0 <= i < |parts| && parts[i] == "" then None
    else if parts[2] !in PROVIDERS then None
    else Some(SubscriptionTarget(parts[0], parts[1], parts[2], if |parts| == 4 then parts[3] else ""))
  }

  function ParseSubscription(path: string): Option<SubscriptionTarget> {
    match CutPrefix(path, SUBSCRIPTION_PREFIX)
    case None => None
    case Some(rest) => SubscriptionOf(Segments(rest))
  }

  function ChangeRequestOf(parts: seq<string>): Option<ChangeRequestTarget> {
    if |parts| < 2 || |parts| > 3 || parts[0] == "" || parts[1] == "" || (|parts| == 3 && parts[2] == "") then None
    else Some(ChangeRequestTarget(parts[0], parts[1], if |parts| == 3 then parts[2] else ""))
  }

  function ParseChangeRequest(path: string): Option<ChangeRequestTarget> {
    match CutPrefix(path, CHANGE_REQUEST_PREFIX)
    case None => None
    case Some(rest) => ChangeRequestOf(Segments(rest))
  }

  // ---------- Printing ----------

  function WithToken(parts: seq<string>, token: string): seq<string> {
    if token == "" then parts else parts + [token]
  }

  function PrintSubscription(t: SubscriptionTarget): string {
    SUBSCRIPTION_PREFIX + Join(WithToken([t.ns, t.name, t.provider], t.token), '/')
  }

  function PrintChangeRequest(t: ChangeRequestTarget): string {
    CHANGE_REQUEST_PREFIX + Join(WithToken([t.ns, t.name], t.token), '/')
  }

  predicate Segment(s: string) {
    s != "" && '/' !in s
  }

  predicate SubscriptionOk(t: SubscriptionTarget) {
    Segment(t.ns) && Segment(t.name) && Segment(t.provider) && t.provider in PROVIDERS && '/' !in t.token
  }

  predicate ChangeRequestOk(t: ChangeRequestTarget) {
    Segment(t.ns) && Segment(t.name) && '/' !in t.token
  }

  /** Nonempty slash-free segments come back from their join, with or without a trailing slash. */
  lemma SegmentsOfJoin(parts: seq<string>)
    requires parts != [] && forall i :: 0 <= i < |parts| ==> Segment(parts[i])
    ensures Segments(Join(parts, '/')) == parts && Segments(Join(parts, '/') + "/") == parts
  {
    JoinEnd(parts, '/');
    SplitOfJoin(parts, '/');
    assert (Join(parts, '/') + "/")[..|Join(parts, '/')|] == Join(parts, '/');
  }

  /** A path is its segments joined, give or take one trailing slash. */
  lemma JoinOfSegments(rest: string)
    ensures rest == Join(Segments(rest), '/') || rest == Join(Segments(rest), '/') + "/"
    ensures Free(Segments(rest), '/')
  {
    JoinOfSplit(TrimSuffix(rest, '/'), '/');
    if EndsWith(rest, '/') {
      assert rest == rest[..|rest| - 1] + "/";
    }
  }

  lemma CutOf(prefix: string, rest: string)
    ensures CutPrefix(prefix + rest, prefix) == Some(rest)
  {
  }

  lemma SegmentsArePrinted(path: string, prefix: string)
    requires prefix <= path
    ensures var parts := Segments(path[|prefix|..]);
            path == prefix + Join(parts, '/') || path == prefix + Join(parts, '/') + "/"
  {
    var rest := path[|prefix|..];
    JoinOfSegments(rest);
    assert path == prefix + rest;
    assert prefix + (Join(Segments(rest), '/') + "/") == prefix + Join(Segments(rest), '/') + "/";
  }

  /** A path with these segments after the prefix is the printed one, give or take the slash. */
  lemma SegmentsExact(path: string, prefix: string, parts: seq<string>)
    requires parts != [] && forall i :: 0 <= i < |parts| ==> Segment(parts[i])
    ensures CutPrefix(path, prefix).Some? && Segments(CutPrefix(path, prefix).value) == parts
        <==> path == prefix + Join(parts, '/') || path == prefix + Join(parts, '/') + "/"
  {
    SegmentsOfJoin(parts);
    CutOf(prefix, Join(parts, '/'));
    CutOf(prefix, Join(parts, '/') + "/");
    assert prefix + Join(parts, '/') + "/" == prefix + (Join(parts, '/') + "/");
    if prefix <= path {
      SegmentsArePrinted(path, prefix);
    }
  }

  lemma SubscriptionParts(parts: seq<string>, t: SubscriptionTarget)
    requires Free(parts, '/')
    ensures SubscriptionOf(parts) == Some(t)
       <==> SubscriptionOk(t) && parts == WithToken([t.ns, t.name, t.provider], t.token)
  {
  }

  lemma ChangeRequestParts(parts: seq<string>, t: ChangeRequestTarget)
    requires Free(parts, '/')
    ensures ChangeRequestOf(parts) == Some(t) <==> ChangeRequestOk(t) && parts == WithToken([t.ns, t.name], t.token)
  {
  }

  /** The receiver accepts exactly the printed paths, with at most one extra trailing slash, and
      reads back what was printed. */
  lemma SubscriptionPathExact(path: string, t: SubscriptionTarget)
    ensures ParseSubscription(path) == Some(t)
        <==> SubscriptionOk(t) && (path == PrintSubscription(t) || path == PrintSubscription(t) + "/")
  {
    if CutPrefix(path, SUBSCRIPTION_PREFIX).Some? {
      var rest := CutPrefix(path, SUBSCRIPTION_PREFIX).value;
      JoinOfSegments(rest);
      SubscriptionParts(Segments(rest), t);
    }
    if SubscriptionOk(t) {
      SegmentsExact(path, SUBSCRIPTION_PREFIX, WithToken([t.ns, t.name, t.provider], t.token));
    }
  }

  lemma ChangeRequestPathExact(path: string, t: ChangeRequestTarget)
    ensures ParseChangeRequest(path) == Some(t)
        <==> ChangeRequestOk(t) && (path == PrintChangeRequest(t) || path == PrintChangeRequest(t) + "/")
  {
    if CutPrefix(path, CHANGE_REQUEST_PREFIX).Some? {
      var rest := CutPrefix(path, CHANGE_REQUEST_PREFIX).value;
      JoinOfSegments(rest);
      ChangeRequestParts(Segments(rest), t);
    }
    if ChangeRequestOk(t) {
      SegmentsExact(path, CHANGE_REQUEST_PREFIX, WithToken([t.ns, t.name], t.token));
    }
  }

  /** The printed paths in full; a Subscription's names one of seven providers. */
  lemma PrintedPaths(t: SubscriptionTarget, c: ChangeRequestTarget)
    ensures PrintSubscription(t)
         == "/webhook/subscriptions/" + t.ns + "/" + t.name + "/" + t.provider
          + (if t.token == "" then "" else "/" + t.token)
    ensures PrintChangeRequest(c)
         == "/webhook/changerequests/" + c.ns + "/" + c.name + (if c.token == "" then "" else "/" + c.token)
    ensures SubscriptionOk(t)
       <==> && t.ns != "" && t.name != "" && '/' !in t.ns && '/' !in t.name && '/' !in t.token
            && t.provider in {"dockerhub", "ghcr", "github", "harbor", "quay", "artifactory", "generic"}
    ensures ChangeRequestOk(c) <==> c.ns != "" && c.name != "" && '/' !in c.ns && '/' !in c.name && '/' !in c.token
  {
    JoinThree(t.ns, t.name, t.provider, t.token);
    JoinTwo(c.ns, c.name, c.token);
  }

  lemma JoinTwo(a: string, b: string, token: string)
    ensures Join(WithToken([a, b], token), '/') == a + "/" + b + (if token == "" then "" else "/" + token)
  {
    var parts, rest := WithToken([a, b], token), WithToken([b], token);
    assert parts[1..] == rest;
    if token != "" {
      assert rest[1..] == [token];
      assert Join(rest, '/') == b + "/" + token;
      assert a + "/" + (b + "/" + token) == a + "/" + b + ("/" + token);
    }
  }

  lemma JoinThree(a: string, b: string, c: string, token: string)
    ensures Join(WithToken([a, b, c], token), '/') == a + "/" + b + "/" + c + (if token == "" then "" else "/" + token)
  {
    assert WithToken([a, b, c], token)[1..] == WithToken([b, c], token);
    JoinTwo(b, c, token);
  }

  /** The key both receivers limit by. */
  function LimitKey(ns: string, name: string): string {
    ns + "/" + name
  }

  /** Distinct targets never share a key. */
  lemma LimitKeyInjective(ns: string, name: string, ns': string, name': string)
    requires '/' !in ns && '/' !in ns'
    requires LimitKey(ns, name) == LimitKey(ns', name')
    ensures ns == ns' && name == name'
  {
    var key := LimitKey(ns, name);
    IndexAfter(ns, name, '/');
    IndexAfter(ns', name', '/');
    assert key[..|ns|] == ns && key[|ns| + 1..] == name;
    assert key[..|ns'|] == ns' && key[|ns'| + 1..] == name';
  }
}
