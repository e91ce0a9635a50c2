/**
 The two limiters that count in a window and start over: the audit writer's per-second budget
 and the Bundle API's per-minute one. Both read the clock under their lock, so a run's times
 never go back.
 */
module FixedWindow {
  import opened Timeline

  // ---------- The audit budget ----------

  const PER_SECOND: nat := 50

  datatype Window = Window(start: int, written: nat)

  function Open(w: Window, now: int): Window {
    if now - w.start >= SECOND then Window(now, 0) else w
  }

  predicate HasRoom(w: Window, now: int) {
    Open(w, now).written < PER_SECOND
  }

  function Spend(w: Window, now: int): Window {
    var w' := Open(w, now);
    if HasRoom(w, now) then Window(w'.start, w'.written + 1) else w'
  }

  class AuditBudget {
    var windowStart: int
    var written: nat

    constructor ()
      ensures View() == Window(0, 0)
    {
      windowStart, written := 0, 0;
    }

    function View(): Window
      reads this
    {
      Window(windowStart, written)
    }

    method Allow(now: int) returns (ok: bool)
      modifies this
      ensures View() == Spend(old(View()), now)
      ensures ok == HasRoom(old(View()), now)
    {
      if now - windowStart >= SECOND {
        windowStart, written := now, 0;
      }
      if written >= PER_SECOND {
        return false;
      }
      written := written + 1;
      return true;
    }
  }

  function WindowAfter(times: seq<int>): Window {
    if times == [] then Window(0, 0) else Spend(WindowAfter(times[..|times| - 1]), times[|times| - 1])
  }

  /** Which calls of a run were allowed. */
  function Allowed(times: seq<int>): (f: seq<bool>)
    ensures |f| == |times|
  {
    if times == [] then []
    else Allowed(times[..|times| - 1]) + [HasRoom(WindowAfter(times[..|times| - 1]), times[|times| - 1])]
  }

  /** When the current window opened, and the first call in it: a window lasts until the first call
      a second or more after it opened. */
  function CurrentSecond(times: seq<int>): (int, nat) {
    if times == [] then (0, 0)
    else
      var n := |times| - 1;
      var (since, first) := CurrentSecond(times[..n]);
      if times[n] - since >= SECOND then (times[n], n) else (since, first)
  }

  lemma {:induction false} WrittenAreAllowed(times: seq<int>)
    ensures var (since, first) := CurrentSecond(times);
            && first <= |times| && WindowAfter(times).start == since
            && WindowAfter(times).written == CountTrue(Allowed(times), first, |times|)
  {
    if times != [] {
      var n, flags := |times| - 1, Allowed(times);
      WrittenAreAllowed(times[..n]);
      assert flags[..n] == Allowed(times[..n]);
      CountTrueOfPrefix(flags, CurrentSecond(times[..n]).1, n, n);
      assert CountTrue(flags, n, n) == 0;
    }
  }

  /** A call is allowed exactly when fewer than 50 were since its window opened. */
  lemma AllowedExactly(times: seq<int>, now: int)
    ensures var (_, first) := CurrentSecond(times + [now]);
            first <= |times| &&
              (HasRoom(WindowAfter(times), now) <==> CountTrue(Allowed(times), first, |times|) < 50)
  {
    WrittenAreAllowed(times);
    assert (times + [now])[..|times|] == times;
    assert CountTrue(Allowed(times), |times|, |times|) == 0;
  }

  /** From call i on, the run has touched `windows` windows and allowed c calls. */
  ghost predicate Touched(w: Window, i: int, now: int, windows: nat, c: nat) {
    && windows >= 1 && w.written <= PER_SECOND
    && c <= PER_SECOND * (windows - 1) + w.written
    && now - w.start < SECOND
    && (windows >= 2 ==> i + (windows - 2) * SECOND <= w.start <= now)
  }

  lemma TouchedStep(w: Window, i: int, now: int, windows: nat, c: nat, later: int) returns (windows': nat)
    requires Touched(w, i, now, windows, c) && i <= now <= later
    ensures Touched(Spend(w, later), i, later, windows', if HasRoom(w, later) then c + 1 else c)
  {
    if later - w.start >= SECOND {
      windows' := windows + 1;
    } else {
      windows' := windows;
    }
  }

  lemma {:induction false} WindowSmall(times: seq<int>)
    ensures WindowAfter(times).written <= PER_SECOND
  {
    if times != [] {
      WindowSmall(times[..|times| - 1]);
    }
  }

  lemma {:induction false} WindowsTouched(times: seq<int>, i: nat, j: nat) returns (windows: nat)
    requires i < j <= |times| && Nondecreasing(times)
    ensures Touched(WindowAfter(times[..j]), times[i], times[j - 1], windows, CountTrue(Allowed(times[..j]), i, j))
    decreases j
  {
    var n := j - 1;
    assert times[..j][..n] == times[..n];
    assert Allowed(times[..j])[..n] == Allowed(times[..n]);
    CountTrueOfPrefix(Allowed(times[..j]), i, n, n);
    if i == n {
      windows := 1;
      WindowSmall(times[..n]);
      assert CountTrue(Allowed(times[..j]), n, n) == 0;
    } else {
      windows := WindowsTouched(times, i, n);
      var c := CountTrue(Allowed(times[..n]), i, n);
      windows := TouchedStep(WindowAfter(times[..n]), times[i], times[n - 1], windows, c, times[n]);
    }
  }

  /** At most 50 * (k + 1) records in any half-open interval of k seconds. */
  lemma AuditBound(times: seq<int>, from: int, k: nat)
    requires Nondecreasing(times)
    ensures CountWithin(Allowed(times), times, from, from + k * 1_000_000_000) <= 50 * (k + 1)
  {
    var i, j := IntervalIsStretch(Allowed(times), times, from, from + k * SECOND);
    if i < j {
      var windows := WindowsTouched(times, i, j);
      AllowedOfPrefix(times, j);
      CountTrueOfPrefix(Allowed(times), i, j, j);
      assert windows >= k + 2 ==> k * SECOND <= (windows - 2) * SECOND;
      assert PER_SECOND * (windows - 1) <= PER_SECOND * k;
    } else {
      assert CountTrue(Allowed(times), i, j) == 0;
    }
  }

  lemma {:induction false} AllowedOfPrefix(times: seq<int>, n: nat)
    requires n <= |times|
    ensures Allowed(times[..n]) == Allowed(times)[..n]
    decreases |times|
  {
    if n < |times| {
      var shorter := times[..|times| - 1];
      AllowedOfPrefix(shorter, n);
      assert shorter[..n] == times[..n];
    } else {
      assert times[..n] == times;
    }
  }

  // ---------- The Bundle API's limit ----------

  /** The key a caller is limited by: one window for the static token, one per Kubernetes user. */
  function CallerKey(requester: string): string {
    if requester == "" then "static" else "user:" + requester
  }

  lemma CallersApart(a: string, b: string)
    ensures CallerKey(a) == CallerKey(b) <==> a == b
  {
    if a != "" && b != "" && CallerKey(a) == CallerKey(b) {
      assert a == CallerKey(a)[5..] == CallerKey(b)[5..] == b;
    }
    assert forall s: string :: ("user:" + s)[0] == 'u';
    assert "static"[0] == 's';
  }

  datatype Minute = Minute(counts: map<string, nat>, resetAt: int)
  datatype Request = Request(caller: string, at: int)

  function Counted(m: Minute, caller: string): nat {
    if caller in m.counts then m.counts[caller] else 0
  }

  function Rolled(m: Minute, now: int): Minute {
    if now > m.resetAt then Minute(map[], now + MINUTE) else m
  }

  /** Every request counts, the refused ones too. */
  function Count(m: Minute, r: Request): Minute {
    var m' := Rolled(m, r.at);
    Minute(m'.counts[r.caller := Counted(m', r.caller) + 1], m'.resetAt)
  }

  predicate Permits(limit: nat, m: Minute, r: Request) {
    Counted(Count(m, r), r.caller) <= limit
  }

  class TokenRateLimiter {
    var counts: map<string, nat>
    var resetAt: int
    const limit: nat

    constructor (limit: nat, now: int)
      ensures this.limit == limit && View() == Minute(map[], now + MINUTE)
    {
      this.limit := limit;
      counts, resetAt := map[], now + MINUTE;
    }

    function View(): Minute
      reads this
    {
      Minute(counts, resetAt)
    }

    method Allow(token: string, now: int) returns (ok: bool)
      modifies this
      ensures View() == Count(old(View()), Request(token, now))
      ensures ok == Permits(limit, old(View()), Request(token, now))
    {
      if now > resetAt {
        counts := map[];
        resetAt := now + MINUTE;
      }
      counts := counts[token := (if token in counts then counts[token] else 0) + 1];
      ok := counts[token] <= limit;
    }
  }

  function MinuteAfter(created: int, rs: seq<Request>): Minute {
    if rs == [] then Minute(map[], created + MINUTE)
    else Count(MinuteAfter(created, rs[..|rs| - 1]), rs[|rs| - 1])
  }

  /** When the current window opened, and the first request in it: a window lasts until the
      first request more than a minute after it opened. */
  function CurrentWindow(created: int, rs: seq<Request>): (int, nat) {
    if rs == [] then (created, 0)
    else
      var n := |rs| - 1;
      var (since, first) := CurrentWindow(created, rs[..n]);
      if rs[n].at > since + MINUTE then (rs[n].at, n) else (since, first)
  }

  /** The caller's requests among rs[first..]. */
  function RequestsBy(rs: seq<Request>, caller: string, first: nat): nat
    decreases |rs|
  {
    if |rs| <= first then 0
    else RequestsBy(rs[..|rs| - 1], caller, first) + (if rs[|rs| - 1].caller == caller then 1 else 0)
  }

  lemma {:induction false} CountsAreRequests(created: int, rs: seq<Request>, caller: string)
    ensures var (since, first) := CurrentWindow(created, rs);
            && MinuteAfter(created, rs).resetAt == since + MINUTE && first <= |rs|
            && Counted(MinuteAfter(created, rs), caller) == RequestsBy(rs, caller, first)
  {
    if rs != [] {
      var n := |rs| - 1;
      CountsAreRequests(created, rs[..n], caller);
      assert RequestsBy(rs[..n], caller, n) == 0;
    }
  }

  /** A request is permitted exactly while its caller's requests since the window opened, itself
      included, are within the limit, whatever other callers do. */
  lemma PermitsExactly(limit: nat, created: int, rs: seq<Request>, r: Request)
    ensures Permits(limit, MinuteAfter(created, rs), r)
        <==> RequestsBy(rs + [r], r.caller, CurrentWindow(created, rs + [r]).1) <= limit
  {
    assert (rs + [r])[..|rs|] == rs;
    CountsAreRequests(created, rs + [r], r.caller);
  }

  function RequestTimes(rs: seq<Request>): (t: seq<int>)
    ensures |t| == |rs|
  {
    seq(|rs|, i requires 0 <= i < |rs| => rs[i].at)
  }

  /** Which requests of the run were permitted for one caller. */
  function PermittedFor(limit: nat, created: int, rs: seq<Request>, caller: string): (f: seq<bool>)
    ensures |f| == |rs|
  {
    if rs == [] then []
    else
      var before, r := rs[..|rs| - 1], rs[|rs| - 1];
      PermittedFor(limit, created, before, caller) +
      [r.caller == caller && Permits(limit, MinuteAfter(created, before), r)]
  }

  function AtMost(limit: nat, n: nat): nat {
    if n <= limit then n else limit
  }

  ghost predicate Spanned(limit: nat, m: Minute, caller: string, i: int, now: int, windows: nat, c: nat) {
    && windows >= 1
    && c <= limit * (windows - 1) + AtMost(limit, Counted(m, caller))
    && now <= m.resetAt
    && (windows >= 2 ==> i + (windows - 2) * (MINUTE + 1) + 1 <= m.resetAt - MINUTE <= now)
  }

  lemma SpannedStep(limit: nat, m: Minute, caller: string, i: int, now: int, windows: nat, c: nat, r: Request)
    returns (windows': nat)
    requires Spanned(limit, m, caller, i, now, windows, c) && i <= now <= r.at
    ensures Spanned(limit, Count(m, r), caller, i, r.at, windows',
                    if r.caller == caller && Permits(limit, m, r) then c + 1 else c)
  {
    if r.at > m.resetAt {
      windows' := windows + 1;
      assert limit * windows == limit * (windows - 1) + limit;
    } else {
      windows' := windows;
    }
  }

  lemma RequestsInOrder(rs: seq<Request>, n: nat)
    requires n < |rs| && Nondecreasing(RequestTimes(rs))
    ensures Nondecreasing(RequestTimes(rs[..n])) && forall i :: 0 <= i < n ==> rs[i].at <= rs[n].at
  {
    assert forall i :: 0 <= i < n ==> RequestTimes(rs[..n])[i] == RequestTimes(rs)[i];
    forall i | 0 <= i < n
      ensures rs[i].at <= rs[n].at
    {
      assert RequestTimes(rs)[i] <= RequestTimes(rs)[n];
    }
  }

  lemma PermittedMore(limit: nat, created: int, rs: seq<Request>, caller: string, i: nat)
    requires i < |rs|
    ensures CountTrue(PermittedFor(limit, created, rs, caller), i, |rs|)
         == var before, r := rs[..|rs| - 1], rs[|rs| - 1];
            CountTrue(PermittedFor(limit, created, before, caller), i, |before|) +
            (if r.caller == caller && Permits(limit, MinuteAfter(created, before), r) then 1 else 0)
  {
    var n, flags := |rs| - 1, PermittedFor(limit, created, rs, caller);
    assert flags[..n] == PermittedFor(limit, created, rs[..n], caller);
    CountTrueOfPrefix(flags, i, n, n);
  }

  lemma {:induction false} WindowsSpanned(limit: nat, created: int, rs: seq<Request>, caller: string, i: nat)
    returns (windows: nat)
    requires i < |rs| && Nondecreasing(RequestTimes(rs))
    ensures Spanned(limit, MinuteAfter(created, rs), caller, rs[i].at, rs[|rs| - 1].at, windows,
                    CountTrue(PermittedFor(limit, created, rs, caller), i, |rs|))
    decreases |rs|
  {
    var n := |rs| - 1;
    var before := rs[..n];
    PermittedMore(limit, created, rs, caller, i);
    if i == n {
      windows := 1;
    } else {
      RequestsInOrder(rs, n);
      RequestsInOrder(rs, n - 1);
      windows := WindowsSpanned(limit, created, before, caller, i);
      windows := SpannedStep(limit, MinuteAfter(created, before), caller, rs[i].at, rs[n - 1].at, windows,
                             CountTrue(PermittedFor(limit, created, before, caller), i, n), rs[n]);
    }
  }

  lemma {:induction false} PermittedOfPrefix(limit: nat, created: int, rs: seq<Request>, caller: string, n: nat)
    requires n <= |rs|
    ensures PermittedFor(limit, created, rs[..n], caller) == PermittedFor(limit, created, rs, caller)[..n]
    decreases |rs|
  {
    if n < |rs| {
      var shorter := rs[..|rs| - 1];
      PermittedOfPrefix(limit, created, shorter, caller, n);
      assert shorter[..n] == rs[..n];
    } else {
      assert rs[..n] == rs;
    }
  }

  lemma CallerStretch(limit: nat, created: int, rs: seq<Request>, caller: string, i: nat, k: nat)
    requires i < |rs| && Nondecreasing(RequestTimes(rs))
    requires rs[|rs| - 1].at - rs[i].at <= k * MINUTE
    ensures CountTrue(PermittedFor(limit, created, rs, caller), i, |rs|) <= limit * (k + 1)
  {
    var windows := WindowsSpanned(limit, created, rs, caller, i);
    FewWindows(windows, k);
    assert windows <= k + 1;
    MulGrows(limit, windows - 1, k);
  }

  lemma MulGrows(a: nat, b: nat, c: nat)
    requires b <= c
    ensures a * b + a <= a * (c + 1)
  {
    assert a * (c - b) >= 0;
  }

  /** At most limit * (k + 1) permitted requests per caller in any interval of k minutes, both
      ends included. */
  lemma CallerBound(limit: nat, created: int, rs: seq<Request>, caller: string, from: int, k: nat)
    requires Nondecreasing(RequestTimes(rs))
    ensures CountWithin(PermittedFor(limit, created, rs, caller), RequestTimes(rs), from, from + k * 60_000_000_000 + 1)
         <= limit * (k + 1)
  {
    var flags := PermittedFor(limit, created, rs, caller);
    var i, j := IntervalIsStretch(flags, RequestTimes(rs), from, from + k * MINUTE + 1);
    if i < j {
      PermittedOfPrefix(limit, created, rs, caller, j);
      CountTrueOfPrefix(flags, i, j, j);
      assert forall n :: 0 <= n < j ==> RequestTimes(rs[..j])[n] == RequestTimes(rs)[n];
      assert from <= RequestTimes(rs)[i] && RequestTimes(rs)[j - 1] <= from + k * MINUTE;
      CallerStretch(limit, created, rs[..j], caller, i, k);
    } else {
      assert CountTrue(flags, i, j) == 0;
      MulGrows(limit, 0, k);
    }
  }

  /** More than k + 1 windows take more than k minutes. */
  lemma FewWindows(windows: nat, k: nat)
    ensures windows >= k + 2 ==> (windows - 2) * (MINUTE + 1) + 1 > k * MINUTE
  {
    if windows >= k + 2 {
      assert (windows - 2) * (MINUTE + 1) >= k * (MINUTE + 1);
    }
  }
}
