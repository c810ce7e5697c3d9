// Whole-run properties of the Anthropic agent: one-time refresh tokens, the
// refresh guards, and the paused-recovery schedule.
module AnthropicTheorems {
  import opened Basics
  import opened Powers
  import opened AnthropicSpec

  // --- Backoff arithmetic ---

  function UncappedMinimum(base: int, max: int, n: nat): int
    requires n >= 1
  {
    var b := base * Pow2(n - 1);
    if b > max then max else b
  }

  lemma ScaleLe(base: int, p: int, q: int)
    requires base >= 0 && p <= q
    ensures base * p <= base * q
  {}

  // The shift cap at 10 never shows: both schedules equal min(base * 2^(n-1), max)
  // for every n >= 1, and even the intermediate product fits an int64.
  lemma BackoffIsUncapped(base: int, max: int, n: nat)
    requires n >= 1 && base > 0 && base <= max <= base * 1024 && base * 1024 < TWO_TO_THE_63
    ensures Backoff(base, max, n) == UncappedMinimum(base, max, n)
    ensures base * Pow2(if n - 1 > 10 then 10 else n - 1) < TWO_TO_THE_63
  {
    assert Pow2(10) == 1024 by { assert Pow2(5) == 32; }
    if n - 1 > 10 {
      Pow2Monotone(10, n - 1);
      ScaleLe(base, 1024, Pow2(n - 1));
    } else {
      Pow2Monotone(n - 1, 10);
      ScaleLe(base, Pow2(n - 1), 1024);
    }
  }

  lemma BackoffMonotone(base: int, max: int, m: int, n: int)
    requires base > 0 && base <= max && m <= n
    ensures base <= Backoff(base, max, m) <= Backoff(base, max, n) <= max
  {
    var s := if m - 1 > 10 then 10 else m - 1;
    var t := if n - 1 > 10 then 10 else n - 1;
    if m > 0 {
      Pow2Monotone(s, t);
      ScaleLe(base, Pow2(s), Pow2(t));
      ScaleLe(base, 1, Pow2(s));
    } else if n > 0 {
      ScaleLe(base, 1, Pow2(t));
    }
  }

  // Both schedules of the agent.
  lemma Schedules(m: nat, n: nat)
    requires 1 <= m <= n
    ensures RateLimitBackoff(n) == UncappedMinimum(RATE_LIMIT_BASE, RATE_LIMIT_MAX, n)
    ensures AuthRetryBackoff(n) == UncappedMinimum(RETRY_INTERVAL, RETRY_MAX, n)
    ensures RATE_LIMIT_BASE <= RateLimitBackoff(m) <= RateLimitBackoff(n) <= RATE_LIMIT_MAX < TWO_TO_THE_63
    ensures RETRY_INTERVAL <= AuthRetryBackoff(m) <= AuthRetryBackoff(n) <= RETRY_MAX < TWO_TO_THE_63
  {
    BackoffIsUncapped(RATE_LIMIT_BASE, RATE_LIMIT_MAX, n);
    BackoffIsUncapped(RETRY_INTERVAL, RETRY_MAX, n);
    BackoffMonotone(RATE_LIMIT_BASE, RATE_LIMIT_MAX, m, n);
    BackoffMonotone(RETRY_INTERVAL, RETRY_MAX, m, n);
  }

  // --- What the log alone says ---

  // Refresh tokens already exchanged.
  ghost function Spent(log: seq<Action>): set<Token> {
    set i | 0 <= i < |log| && log[i].Refreshed? && log[i].accepted :: log[i].presented
  }

  // The latest accepted refresh: the access token it replaced, and its write.
  function LastApplied(log: seq<Action>): Option<(Token, Write)> {
    if log == [] then None
    else match log[|log| - 1]
      case Applied(replaced, write) => Some((replaced, write))
      case _ => LastApplied(log[..|log| - 1])
  }

  // The stored access token the agent believes stale: its write reported an error.
  function Superseded(log: seq<Action>): Token {
    match LastApplied(log)
    case None => NoToken
    case Some(p) => if p.1.reported then NoToken else p.0
  }

  // The access token of a spent pair that the write in fact left in place.
  function Stale(log: seq<Action>): Token {
    match LastApplied(log)
    case None => NoToken
    case Some(p) => if p.1.effect.Kept? then p.0 else NoToken
  }

  // The latest write reported success but kept the spent pair.
  predicate Silent(log: seq<Action>) {
    var l := LastApplied(log);
    l.Some? && l.value.1.reported && l.value.1.effect.Kept?
  }

  // The OAuth backoff in force: the last one set, until a refresh succeeds, new
  // credentials are installed, or it is found expired.
  function BackoffUntil(log: seq<Action>): Option<int> {
    if log == [] then None
    else match log[|log| - 1]
      case Deferred(until) => Some(until)
      case Expired(_) => None
      case Installed(_) => None
      case Refreshed(_, _, _, _, _, _, accepted) => if accepted then None else BackoffUntil(log[..|log| - 1])
      case _ => BackoffUntil(log[..|log| - 1])
  }

  // The latest paused-state attempt since polling last worked or the pause was
  // lifted by new credentials.
  function LastAttempt(log: seq<Action>): Option<(nat, int)> {
    if log == [] then None
    else match log[|log| - 1]
      case Attempted(k, at) => Some((k, at))
      case Resumed => None
      case PollOk => None
      case _ => LastAttempt(log[..|log| - 1])
  }

  predicate NotBefore(at: int, deadline: Option<int>) {
    deadline.Some? ==> at >= deadline.value
  }

  // What each action promises, given everything logged before it.
  ghost predicate Allowed(before: seq<Action>, x: Action) {
    match x
    case Refreshed(source, stored, presented, at, auto, claudeRunning, _) =>
      && stored != NoToken && presented != NoToken && auto && !claudeRunning
      && NotBefore(at, BackoffUntil(before))
      && (presented in Spent(before) <==> stored == Stale(before))
      && (source == Proactive ==> stored != Superseded(before))
    case Expired(at) => NotBefore(at, BackoffUntil(before))
    case Installed(token) => token != Superseded(before)
    case Attempted(k, at) =>
      (match LastAttempt(before)
       case None => k == 1
       case Some(p) => k == p.0 + 1 && at >= p.1 + AuthRetryBackoff(p.0))
    case _ => true
  }

  ghost predicate GoodLog(log: seq<Action>) {
    forall i :: 0 <= i < |log| ==> Allowed(log[..i], log[i])
  }

  // --- The invariant ---

  predicate Known(t: Token, w: World) { t.Issued? ==> t.n < w.issued }

  // A stored pair whose refresh token this agent already spent is there only
  // because the latest write kept it: those are exactly the stale pairs.
  ghost predicate TokensSafe(s: Sys) {
    && (forall t :: t in Spent(s.w.log) ==> t.Issued? && t.n < s.w.issued)
    && Known(Stale(s.w.log), s.w)
    && (s.w.disk.Some? ==>
          var c := s.w.disk.value;
          && c.access.Issued? && Known(c.access, s.w) && Known(c.refresh, s.w)
          && (c.refresh in Spent(s.w.log) <==> c.access == Stale(s.w.log)))
  }

  // The agent's fields agree with what its log says.
  ghost predicate FieldsMatch(a: Agent, log: seq<Action>) {
    && a.supersededToken == Superseded(log)
    && BackoffUntil(log) == (if a.rateLimitPaused then a.rateLimitResumeAt else None)
    && match LastAttempt(log)
       case None => a.authRetryCount == 0
       case Some(p) => a.authRetryCount == p.0 && p.0 >= 1 && a.authRetryAt == Some(p.1 + AuthRetryBackoff(p.0))
  }

  ghost predicate Good(s: Sys) {
    && TokensSafe(s)
    && GoodLog(s.w.log)
    && FieldsMatch(s.a, s.w.log)
    && (s.a.authPaused ==> s.a.authRetryAt.Some?)
  }

  // --- One more action ---

  ghost function SpentBy(x: Action): set<Token> {
    if x.Refreshed? && x.accepted then {x.presented} else {}
  }

  lemma Extend(log: seq<Action>, x: Action)
    ensures Spent(log + [x]) == Spent(log) + SpentBy(x)
    ensures LastApplied(log + [x]) == if x.Applied? then Some((x.replaced, x.write)) else LastApplied(log)
    ensures BackoffUntil(log + [x]) ==
            if x.Deferred? then Some(x.until)
            else if x.Expired? || x.Installed? || (x.Refreshed? && x.accepted) then None
            else BackoffUntil(log)
    ensures LastAttempt(log + [x]) ==
            if x.Attempted? then Some((x.attempt, x.at))
            else if x.Resumed? || x.PollOk? then None
            else LastAttempt(log)
    ensures GoodLog(log) && Allowed(log, x) ==> GoodLog(log + [x])
  {
    var l := log + [x];
    assert l[..|l| - 1] == log;
    SpentSnoc(log, x);
    if GoodLog(log) && Allowed(log, x) {
      GoodSnoc(log, x);
    }
  }

  lemma AppliedSnoc(log: seq<Action>, x: Action)
    ensures LastApplied(log + [x]) == if x.Applied? then Some((x.replaced, x.write)) else LastApplied(log)
  {
    var l := log + [x];
    assert l[..|l| - 1] == log;
  }

  lemma SpentSnoc(log: seq<Action>, x: Action)
    ensures Spent(log + [x]) == Spent(log) + SpentBy(x)
  {
    var l := log + [x];
    forall t
      ensures t in Spent(l) <==> t in Spent(log) || t in SpentBy(x)
    {
      if t in Spent(log) {
        var i :| 0 <= i < |log| && log[i].Refreshed? && log[i].accepted && log[i].presented == t;
        assert l[i] == log[i];
      }
      if t in SpentBy(x) {
        assert l[|log|] == x;
      }
    }
  }

  lemma GoodSnoc(log: seq<Action>, x: Action)
    requires GoodLog(log) && Allowed(log, x)
    ensures GoodLog(log + [x])
  {
    hide Allowed;
    var l := log + [x];
    forall i | 0 <= i < |l|
      ensures Allowed(l[..i], l[i])
    {
      if i < |log| {
        assert l[..i] == log[..i];
      } else {
        assert l[..i] == log;
      }
    }
  }

  // The token invariant looks at the log only through the spent tokens and the
  // latest write.
  lemma TokensSafeAlong(s: Sys, t: Sys)
    requires TokensSafe(s) && Spent(t.w.log) == Spent(s.w.log)
    requires LastApplied(t.w.log) == LastApplied(s.w.log)
    requires t.w.disk == s.w.disk && t.w.issued == s.w.issued
    ensures TokensSafe(t)
  {
    hide Spent, LastApplied;
  }

  // Actions that no field depends on.
  lemma LogKeeps(s: Sys, x: Action)
    requires Good(s) && Allowed(s.w.log, x)
    requires x.Fetched? || x.GrantInvalid? || x.PauseLifted? || (x.Refreshed? && !x.accepted)
    ensures Good(Log(s, x))
  {
    hide GoodLog, Spent, Allowed, TokensSafe, AuthRetryBackoff, BackoffUntil, LastAttempt, LastApplied;
    Extend(s.w.log, x);
    TokensSafeAlong(s, Log(s, x));
  }

  lemma ExternalKeeps(s: Sys, p: Option<NewPair>)
    requires Good(s)
    ensures Good(s.(w := External(s.w, p)))
  {
    hide GoodLog, FieldsMatch, Spent;
  }

  // Changes to fields no part of the invariant mentions.
  lemma SameFields(s: Sys, b: Agent)
    requires Good(s)
    requires b.supersededToken == s.a.supersededToken && b.rateLimitPaused == s.a.rateLimitPaused
    requires b.rateLimitResumeAt == s.a.rateLimitResumeAt
    requires b.authRetryCount == s.a.authRetryCount
    requires s.a.authRetryAt.Some? ==> b.authRetryAt == s.a.authRetryAt
    requires b.authPaused ==> b.authRetryAt.Some? || (s.a.authPaused && b.authRetryAt == s.a.authRetryAt)
    ensures Good(s.(a := b))
  {
    hide GoodLog, Spent;
  }

  // --- Exchanges ---

  // What holds before an exchange at one of the three sites.
  ghost predicate Ready(s: Sys, source: Source, creds: Creds, site: Site) {
    && Good(s) && s.w.disk == Some(creds) && creds.refresh != NoToken
    && site.auto && !site.claudeRunning && !InBackoff(s.a, site.now)
    && (source == Proactive ==> creds.access != s.a.supersededToken)
  }

  lemma ReadyAllows(s: Sys, source: Source, creds: Creds, site: Site)
    requires Ready(s, source, creds, site)
    ensures Allowed(s.w.log, Refreshed(source, creds.access, creds.refresh, site.now, site.auto, site.claudeRunning,
                                       site.answer.Tokens?))
  {
    hide GoodLog, Spent;
  }

  lemma DeferKeeps(s: Sys, until: int)
    requires Good(s)
    ensures Good(DeferRefresh(s, until))
  {
    hide GoodLog, Spent, TokensSafe, AuthRetryBackoff, BackoffUntil, LastAttempt, LastApplied;
    AppliedAllowed(s.w.log, Deferred(until));
    Extend(s.w.log, Deferred(until));
    TokensSafeAlong(s, DeferRefresh(s, until));
  }

  lemma NoteFailureKeeps(s: Sys, answer: OAuth, now: int)
    requires Good(s) && !answer.Tokens?
    ensures Good(NoteFailure(s, answer, now))
  {
    hide Good, RateLimitBackoff;
    match answer
    case RateLimited(d) =>
      var n := s.a.rateLimitFailCount + 1;
      BumpKeeps(s, n);
      DeferKeeps(s.(a := s.a.(rateLimitFailCount := n)), now + if d > 0 then d else RateLimitBackoff(n));
    case InvalidGrant =>
      PauseKeeps(s, InvalidGrantPause(s.a, now), now);
      AppliedAllowed(s.w.log, GrantInvalid);
      LogKeeps(s.(a := InvalidGrantPause(s.a, now)), GrantInvalid);
    case OtherFailure =>
  }

  lemma BumpKeeps(s: Sys, n: nat)
    requires Good(s)
    ensures Good(s.(a := s.a.(rateLimitFailCount := n)))
  {
    SameFields(s, s.a.(rateLimitFailCount := n));
  }

  lemma PauseKeeps(s: Sys, b: Agent, now: int)
    requires Good(s)
    requires b == InvalidGrantPause(s.a, now) || exists t :: b == PauseAuth(s.a, t, now)
    ensures Good(s.(a := b))
  {
    SameFields(s, b);
  }

  lemma NoteBypassFailureKeeps(s: Sys, answer: OAuth, now: int)
    requires Good(s) && !answer.Tokens?
    ensures Good(NoteBypassFailure(s, answer, now))
  {
    hide Good, RateLimitBackoff;
    NoteFailureKeeps(s, answer, now);
    if answer.OtherFailure? {
      var n := s.a.rateLimitFailCount + 1;
      BumpKeeps(s, n);
      DeferKeeps(s.(a := s.a.(rateLimitFailCount := n)), now + RateLimitBackoff(n));
    }
  }

  lemma RejectedExchangeKeeps(s: Sys, source: Source, creds: Creds, site: Site)
    requires Ready(s, source, creds, site) && !site.answer.Tokens?
    ensures Good(Exchange(s, source, creds, site))
  {
    hide Good;
    ReadyAllows(s, source, creds, site);
    assert Good(s) by { ReadyIsGood(s, source, creds, site); }
    var x := Refreshed(source, creds.access, creds.refresh, site.now, site.auto, site.claudeRunning, false);
    LogKeeps(s, x);
    ExternalKeeps(Log(s, x), site.during);
  }

  lemma ReadyIsGood(s: Sys, source: Source, creds: Creds, site: Site)
    requires Ready(s, source, creds, site)
    ensures Good(s)
  {}

  // The schedule fields a refresh leaves alone.
  predicate SameSchedule(a: Agent, b: Agent) {
    a.authPaused == b.authPaused && a.authRetryAt == b.authRetryAt && a.authRetryCount == b.authRetryCount
  }

  // An accepted refresh spends the stored refresh token; afterwards the stored
  // pair is spent exactly when the write kept it.
  lemma SucceedTokens(s: Sys, source: Source, creds: Creds, site: Site)
    requires TokensSafe(s) && s.w.disk == Some(creds) && site.answer.Tokens? && creds.refresh != NoToken
    ensures TokensSafe(Succeed(s, source, creds, site))
  {
    hide Spent;
    var x := Refreshed(source, creds.access, creds.refresh, site.now, site.auto, site.claudeRunning, true);
    var y := Applied(creds.access, site.write);
    SpentSnoc(s.w.log, x);
    SpentSnoc(s.w.log + [x], y);
    AppliedSnoc(s.w.log + [x], y);
    assert Succeed(s, source, creds, site).w.log == s.w.log + [x] + [y];
  }

  lemma SucceedLog(s: Sys, source: Source, creds: Creds, site: Site)
    requires Ready(s, source, creds, site) && site.answer.Tokens?
    ensures var t := Succeed(s, source, creds, site); GoodLog(t.w.log) && FieldsMatch(t.a, t.w.log)
  {
    hide GoodLog, Spent, Allowed, TokensSafe;
    ReadyAllows(s, source, creds, site);
    var x := Refreshed(source, creds.access, creds.refresh, site.now, site.auto, site.claudeRunning, true);
    var y := Applied(creds.access, site.write);
    Extend(s.w.log, x);
    Extend(s.w.log + [x], y);
    AppliedAllowed(s.w.log + [x], y);
    assert Succeed(s, source, creds, site).w.log == s.w.log + [x] + [y];
  }

  lemma SucceedKeeps(s: Sys, source: Source, creds: Creds, site: Site)
    requires Ready(s, source, creds, site) && site.answer.Tokens?
    ensures Good(Succeed(s, source, creds, site))
    ensures SameSchedule(s.a, Succeed(s, source, creds, site).a)
  {
    SucceedTokens(s, source, creds, site);
    SucceedLog(s, source, creds, site);
    hide TokensSafe, GoodLog, FieldsMatch;
  }

  lemma AppliedAllowed(log: seq<Action>, x: Action)
    requires x.Applied? || x.Fetched? || x.Resumed? || x.PollOk? || x.Deferred? || x.GrantInvalid? || x.PauseLifted?
    ensures Allowed(log, x)
  {}
}
