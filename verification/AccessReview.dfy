/**
 The UI's access endpoint: it validates a list of checks and answers each, reviewing a check
 that occurs twice only once. The reviewer, the name syntax and the role table are given.
 */
module AccessReview {
  import opened GoStrings

  const MAX_CHECKS: nat := 32
  const ACTIONS := {"create bundles", "create approvals", "update policygates/override", "update pipelines/pause",
                    "update pipelines/hold", "update bundles/reject", "update changewindows/freeze"}

  datatype Check = Check(verb: string, resource: string, subresource: string, name: string)
  datatype Reason = NoReason | FreezeControlsOff | ApprovalNeedsIdentity
  datatype Answer = Answer(allowed: bool, grantedBy: string, reason: Reason)
  datatype Review = Allowed | Denied | TotalRateLimited | UserRateLimited | Unavailable

  /** What the endpoint works with for one request. */
  datatype Setup = Setup(tokenReview: bool, freezeControls: bool, scope: string,
                         review: (string, Check) -> Review, roles: (string, string, string) -> string,
                         isLabel: string -> bool, isSubdomain: string -> bool)

  datatype Response = Answers(results: seq<Answer>) | Refused(code: int)

  function Action(c: Check): string {
    c.verb + " " + c.resource + if c.subresource != "" then "/" + c.subresource else ""
  }

  predicate ValidCheck(s: Setup, c: Check) {
    Action(c) in ACTIONS && (c.name != "" ==> s.isSubdomain(c.name))
  }

  // ---------- One check on its own ----------

  function Namespace(ns: string, c: Check): string {
    if c.resource == "changewindows" then "" else ns
  }

  predicate NeedsReview(s: Setup, c: Check) {
    s.tokenReview && !(c.resource == "changewindows" && !s.freezeControls)
  }

  /** The status a review that did not decide is answered with. */
  function ErrorCode(r: Review): Option<int> {
    match r
    case Allowed => None
    case Denied => None
    case TotalRateLimited => Some(429)
    case UserRateLimited => Some(429)
    case Unavailable => Some(503)
  }

  function Decide(s: Setup, ns: string, c: Check): Answer {
    var role := s.roles(c.verb, c.resource, c.subresource);
    if c.resource == "changewindows" && !s.freezeControls then Answer(false, role, FreezeControlsOff)
    else if s.tokenReview then Answer(s.review(Namespace(ns, c), c).Allowed?, role, NoReason)
    else if c.verb == "create" && c.resource == "approvals" then Answer(false, role, ApprovalNeedsIdentity)
    else Answer(true, role, NoReason)
  }

  function Failure(s: Setup, ns: string, c: Check): Option<int> {
    if NeedsReview(s, c) then ErrorCode(s.review(Namespace(ns, c), c)) else None
  }

  /** Evaluating each check on its own: all the answers in order, or the first failure alone. */
  function Direct(s: Setup, ns: string, checks: seq<Check>): Response {
    if checks == [] then Answers([])
    else
      match Failure(s, ns, checks[0])
      case Some(code) => Refused(code)
      case None =>
        match Direct(s, ns, checks[1..])
        case Refused(code) => Refused(code)
        case Answers(rest) => Answers([Decide(s, ns, checks[0])] + rest)
  }

  function Evaluate(s: Setup, ns: string, checks: seq<Check>): Response {
    if |checks| == 0 || |checks| > MAX_CHECKS then Refused(400)
    else
      var space := if ns == "" then "default" else ns;
      if !s.isLabel(space) || (s.scope != "" && space != s.scope) then Refused(400)
      else if exists i :: 0 <= i < |checks| && !ValidCheck(s, checks[i]) then Refused(400)
      else Direct(s, space, checks)
  }

  // ---------- The endpoint ----------

  method Validate(s: Setup, checks: seq<Check>) returns (ok: bool)
    ensures ok <==> forall i :: 0 <= i < |checks| ==> ValidCheck(s, checks[i])
  {
    for i := 0 to |checks|
      invariant forall j :: 0 <= j < i ==> ValidCheck(s, checks[j])
    {
      var c := checks[i];
      var action := c.verb + " " + c.resource;
      if c.subresource != "" {
        action := action + "/" + c.subresource;
      }
      assert action == Action(c);
      if action !in ACTIONS {
        return false;
      }
      if c.name != "" && !s.isSubdomain(c.name) {
        return false;
      }
    }
    return true;
  }

  /** No check is in the list twice. */
  ghost predicate Distinct(checks: seq<Check>) {
    forall i, j :: 0 <= i < j < |checks| ==> checks[i] != checks[j]
  }

  /** What the memo table holds while the loop runs: the answers of the checks so far, and a review
      of each of those that needed one. */
  ghost predicate Memo(s: Setup, ns: string, done: seq<Check>, answered: map<Check, Answer>, reviewed: seq<Check>) {
    && (forall c :: c in answered <==> c in done)
    && (forall c :: c in answered ==> Failure(s, ns, c) == None && answered[c] == Decide(s, ns, c))
    && Distinct(reviewed)
    && (forall c :: c in reviewed <==> c in answered && NeedsReview(s, c))
  }

  lemma MemoMore(s: Setup, ns: string, done: seq<Check>, answered: map<Check, Answer>, reviewed: seq<Check>, c: Check)
    requires Memo(s, ns, done, answered, reviewed) && Failure(s, ns, c) == None
    ensures c in answered ==> Memo(s, ns, done + [c], answered, reviewed)
    ensures c !in answered ==> Memo(s, ns, done + [c], answered[c := Decide(s, ns, c)],
                                    if NeedsReview(s, c) then reviewed + [c] else reviewed)
  {
  }

  /** The answers for a list whose checks all have one. */
  function Each(s: Setup, ns: string, checks: seq<Check>): (r: seq<Answer>)
    ensures |r| == |checks|
  {
    seq(|checks|, i requires 0 <= i < |checks| => Decide(s, ns, checks[i]))
  }

  lemma {:induction false} DirectFrom(s: Setup, ns: string, checks: seq<Check>, n: nat)
    requires n <= |checks| && forall i :: 0 <= i < n ==> Failure(s, ns, checks[i]) == None
    ensures n == |checks| ==> Direct(s, ns, checks) == Answers(Each(s, ns, checks))
    ensures n < |checks| && Failure(s, ns, checks[n]).Some? ==>
              Direct(s, ns, checks) == Refused(Failure(s, ns, checks[n]).value)
  {
    if n > 0 {
      DirectFrom(s, ns, checks[1..], n - 1);
      if n == |checks| {
        assert Each(s, ns, checks) == [Decide(s, ns, checks[0])] + Each(s, ns, checks[1..]);
      }
    }
  }

  /** One check: its answer, or the status its review is refused with, and whether it was reviewed. */
  method AnswerOne(s: Setup, ns: string, c: Check) returns (res: Answer, failed: Option<int>, asked: bool)
    ensures failed == Failure(s, ns, c) && asked == NeedsReview(s, c)
    ensures failed == None ==> res == Decide(s, ns, c)
  {
    res, failed, asked := Answer(true, s.roles(c.verb, c.resource, c.subresource), NoReason), None, false;
    if c.resource == "changewindows" && !s.freezeControls {
      res := res.(allowed := false, reason := FreezeControlsOff);
    } else if s.tokenReview {
      var space := if c.resource == "changewindows" then "" else ns;
      var review := s.review(space, c);
      asked := true;
      if review.TotalRateLimited? || review.UserRateLimited? {
        failed := Some(429);
      } else if review.Unavailable? {
        failed := Some(503);
      }
      res := res.(allowed := review.Allowed?);
    } else if c.verb == "create" && c.resource == "approvals" {
      res := res.(allowed := false, reason := ApprovalNeedsIdentity);
    }
  }

  /** The memoised loop answers as evaluating each check on its own would, reviews no check twice,
      and after a review that did not decide returns no answers at all. */
  method AnswerAll(s: Setup, ns: string, checks: seq<Check>) returns (r: Response, reviewed: seq<Check>)
    ensures r == Direct(s, ns, checks)
    ensures Distinct(reviewed)
    ensures forall c :: c in reviewed ==> c in checks && NeedsReview(s, c)
    ensures r.Answers? ==> forall c :: c in checks && NeedsReview(s, c) ==> c in reviewed
  {
    reviewed := [];
    var results: seq<Answer> := [];
    var answered: map<Check, Answer> := map[];
    for i := 0 to |checks|
      invariant Memo(s, ns, checks[..i], answered, reviewed)
      invariant results == Each(s, ns, checks[..i])
      invariant forall j :: 0 <= j < i ==> Failure(s, ns, checks[j]) == None
    {
      var c := checks[i];
      assert checks[..i + 1] == checks[..i] + [c];
      if c in answered {
        MemoMore(s, ns, checks[..i], answered, reviewed, c);
        results := results + [answered[c]];
        continue;
      }
      var res, failed, asked := AnswerOne(s, ns, c);
      ghost var before := reviewed;
      if asked {
        reviewed := reviewed + [c];
      }
      if failed.Some? {
        DirectFrom(s, ns, checks, i);
        return Refused(failed.value), reviewed;
      }
      MemoMore(s, ns, checks[..i], answered, before, c);
      answered := answered[c := res];
      results := results + [res];
    }
    DirectFrom(s, ns, checks, |checks|);
    assert checks[..|checks|] == checks;
    r := Answers(results);
  }

  method HandleAccess(s: Setup, ns: string, checks: seq<Check>) returns (r: Response)
    ensures r == Evaluate(s, ns, checks)
  {
    if |checks| == 0 || |checks| > MAX_CHECKS {
      return Refused(400);
    }
    var space := ns;
    if space == "" {
      space := "default";
    }
    if !s.isLabel(space) || (s.scope != "" && space != s.scope) {
      return Refused(400);
    }
    var ok := Validate(s, checks);
    if !ok {
      return Refused(400);
    }
    var reviewed;
    r, reviewed := AnswerAll(s, space, checks);
  }

  /** An answered request has one answer per check, in order, each as if it were asked alone, and
      that happens exactly when no check fails. */
  lemma AnswersAreEach(s: Setup, ns: string, checks: seq<Check>)
    ensures Direct(s, ns, checks).Answers? <==> forall i :: 0 <= i < |checks| ==> Failure(s, ns, checks[i]) == None
    ensures Direct(s, ns, checks).Answers? ==> Direct(s, ns, checks).results == Each(s, ns, checks)
  {
    var n := 0;
    while n < |checks| && Failure(s, ns, checks[n]) == None
      invariant n <= |checks| && forall i :: 0 <= i < n ==> Failure(s, ns, checks[i]) == None
    {
      n := n + 1;
    }
    DirectFrom(s, ns, checks, n);
  }

  // ---------- What the endpoint answers, request by request ----------

  /** The namespace a request is about. */
  function Space(ns: string): string {
    if ns == "" then "default" else ns
  }

  /** Something is wrong with the request itself. */
  predicate Malformed(s: Setup, ns: string, checks: seq<Check>) {
    || |checks| == 0 || |checks| > 32
    || !s.isLabel(Space(ns)) || (s.scope != "" && Space(ns) != s.scope)
    || exists i :: 0 <= i < |checks| && !Offered(s, checks[i])
  }

  /** One of the seven actions, on an object with a proper name if any. */
  predicate Offered(s: Setup, c: Check) {
    && c.verb + " " + c.resource + (if c.subresource == "" then "" else "/" + c.subresource) in
         {"create bundles", "create approvals", "update policygates/override", "update pipelines/pause",
          "update pipelines/hold", "update bundles/reject", "update changewindows/freeze"}
    && (c.name == "" || s.isSubdomain(c.name))
  }

  /** A freeze, where freeze controls are switched off. */
  predicate FreezeOff(s: Setup, c: Check) {
    c.resource == "changewindows" && !s.freezeControls
  }

  /** What the reviewer says of a check: a freeze is for the whole cluster. */
  function Said(s: Setup, ns: string, c: Check): Review {
    s.review(if c.resource == "changewindows" then "" else Space(ns), c)
  }

  /** A check the reviewer is asked about and does not decide. */
  predicate Undecided(s: Setup, ns: string, c: Check) {
    s.tokenReview && !FreezeOff(s, c) && !Said(s, ns, c).Allowed? && !Said(s, ns, c).Denied?
  }

  /** The first undecided check is number i. */
  predicate FirstUndecided(s: Setup, ns: string, checks: seq<Check>, i: int) {
    0 <= i < |checks| && Undecided(s, ns, checks[i]) && forall j :: 0 <= j < i ==> !Undecided(s, ns, checks[j])
  }

  lemma FailureIsUndecided(s: Setup, ns: string, c: Check)
    ensures NeedsReview(s, c) <==> s.tokenReview && !FreezeOff(s, c)
    ensures Failure(s, Space(ns), c).Some? <==> Undecided(s, ns, c)
    ensures Undecided(s, ns, c) ==>
              Failure(s, Space(ns), c) == Some(if Said(s, ns, c).Unavailable? then 503 else 429)
  {
  }

  lemma MalformedIs400(s: Setup, ns: string, checks: seq<Check>)
    ensures Malformed(s, ns, checks) ==> Evaluate(s, ns, checks) == Refused(400)
    ensures !Malformed(s, ns, checks) ==> Evaluate(s, ns, checks) == Direct(s, Space(ns), checks)
  {
    assert forall i :: 0 <= i < |checks| ==> (ValidCheck(s, checks[i]) <==> Offered(s, checks[i]));
  }

  lemma {:induction false} FindUndecided(s: Setup, ns: string, checks: seq<Check>, n: nat) returns (i: nat)
    requires n <= |checks| && forall j :: 0 <= j < n ==> !Undecided(s, ns, checks[j])
    ensures i == |checks| || FirstUndecided(s, ns, checks, i)
    ensures i == |checks| ==> forall j :: 0 <= j < |checks| ==> !Undecided(s, ns, checks[j])
    decreases |checks| - n
  {
    if n == |checks| || Undecided(s, ns, checks[n]) {
      i := n;
    } else {
      i := FindUndecided(s, ns, checks, n + 1);
    }
  }

  /** A malformed request gets 400; otherwise the first undecided review decides between 429 and
      503, and only without one are there answers. */
  lemma RefusedExactly(s: Setup, ns: string, checks: seq<Check>)
    ensures Evaluate(s, ns, checks) == Refused(400) <==> Malformed(s, ns, checks)
    ensures Evaluate(s, ns, checks) == Refused(429)
       <==> && !Malformed(s, ns, checks)
            && exists i :: FirstUndecided(s, ns, checks, i) && !Said(s, ns, checks[i]).Unavailable?
    ensures Evaluate(s, ns, checks) == Refused(503)
       <==> && !Malformed(s, ns, checks)
            && exists i :: FirstUndecided(s, ns, checks, i) && Said(s, ns, checks[i]).Unavailable?
    ensures Evaluate(s, ns, checks).Answers?
       <==> !Malformed(s, ns, checks) && forall i :: 0 <= i < |checks| ==> !Undecided(s, ns, checks[i])
  {
    MalformedIs400(s, ns, checks);
    var n := FindUndecided(s, ns, checks, 0);
    forall i | 0 <= i < |checks|
      ensures Failure(s, Space(ns), checks[i]).Some? <==> Undecided(s, ns, checks[i])
    {
      FailureIsUndecided(s, ns, checks[i]);
    }
    DirectFrom(s, Space(ns), checks, n);
    if n < |checks| {
      FailureIsUndecided(s, ns, checks[n]);
      assert forall i :: FirstUndecided(s, ns, checks, i) ==> i == n;
    }
  }

  /** What each answer says: with token review it is the reviewer's, except that no freeze is
      allowed where freeze controls are off; without it everything is allowed but approvals and
      such a freeze. */
  lemma AnswerExactly(s: Setup, ns: string, checks: seq<Check>, i: nat)
    requires Evaluate(s, ns, checks).Answers? && i < |checks|
    ensures |Evaluate(s, ns, checks).results| == |checks|
    ensures var c, a := checks[i], Evaluate(s, ns, checks).results[i];
            && (s.tokenReview ==> (a.allowed <==> Said(s, ns, c).Allowed? && !FreezeOff(s, c)))
            && (!s.tokenReview ==>
                  (!a.allowed <==> (c.verb == "create" && c.resource == "approvals") || FreezeOff(s, c)))
            && a.grantedBy == s.roles(c.verb, c.resource, c.subresource)
            && (a.reason == FreezeControlsOff <==> FreezeOff(s, c))
            && (a.reason == ApprovalNeedsIdentity <==>
                  !s.tokenReview && c.verb == "create" && c.resource == "approvals")
  {
    MalformedIs400(s, ns, checks);
    AnswersAreEach(s, Space(ns), checks);
  }
}
