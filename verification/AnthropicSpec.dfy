// The Anthropic polling agent on values: one poll as a function of the agent's
// fields, the outside world, and everything the poll samples from it.
module AnthropicSpec {
  import opened Basics
  import opened Powers

  // Times and durations in nanoseconds. The zero time.Time is None.
  const MINUTE: int := 60_000_000_000
  const HOUR: int := 60 * MINUTE

  const MAX_AUTH_FAILURES: nat := 3
  const MAX_RATE_LIMIT_FAILURES: nat := 5
  const RATE_LIMIT_BASE: int := 5 * MINUTE
  const RATE_LIMIT_MAX: int := 6 * HOUR
  const REFRESH_THRESHOLD: int := HOUR
  const RETRY_INTERVAL: int := 15 * MINUTE
  const RETRY_MAX: int := 6 * HOUR

  // --- The world ---

  // Tokens are numbered in order of issue, so a newly issued pair is fresh by
  // construction, whether Claude Code or this agent obtained it.
  datatype Token = NoToken | Issued(n: nat)

  datatype Creds = Creds(access: Token, refresh: Token, expiresAt: int)

  // A pair someone obtains: its expiry, and whether it came with a refresh token.
  datatype NewPair = NewPair(expiresAt: int, hasRefresh: bool)

  datatype Source = Proactive | Bypass | Recovery

  // What a credential write does to the pair read next. The source ignores
  // keyring errors, so a write may report success and yet keep the old pair.
  datatype Effect = Replaced | Kept | Erased

  datatype Write = Write(reported: bool, effect: Effect)

  datatype Fetch = FetchOk | FetchRateLimited | FetchAuthError | FetchFailed | Cancelled

  // Where a poll asks the usage API: first, or again after one of its repairs.
  datatype Stage = Initially | OnBypass | OnRetry | OnRecovery

  // What the outside can observe of the agent, in order.
  datatype Action =
    // An OAuth refresh: the stored pair it read, the samples its guards saw, the outcome.
    | Refreshed(source: Source, stored: Token, presented: Token, at: int, auto: bool, claudeRunning: bool, accepted: bool)
    | Applied(replaced: Token, write: Write) // a rotated pair installed, and what became of its write
    | Deferred(until: int) // OAuth backoff set
    | Expired(at: int) // OAuth backoff found expired
    | Fetched(token: Token, stage: Stage, outcome: Fetch)
    | GrantInvalid // a refresh was answered invalid_grant
    | Installed(token: Token) // by the pre-poll credential re-read
    | Attempted(attempt: nat, at: int) // paused-state recovery
    | Resumed // pause lifted because credentials changed
    | PauseLifted // pause lifted by an accepted recovery refresh
    | PollOk

  datatype World = World(disk: Option<Creds>, issued: nat, log: seq<Action>)

  function Issue(w: World, p: NewPair): (Creds, World) {
    var t := Issued(w.issued);
    (Creds(t, if p.hasRefresh then t else NoToken, p.expiresAt), w.(issued := w.issued + 1))
  }

  // Claude Code rewrites the stored credentials, or does nothing.
  function External(w: World, p: Option<NewPair>): World {
    match p
    case None => w
    case Some(pair) => var (c, v) := Issue(w, pair); v.(disk := Some(c))
  }


  // --- What one poll samples ---

  datatype OAuth = Tokens(pair: NewPair) | RateLimited(retryAfter: int) | InvalidGrant | OtherFailure

  // One place that may refresh: external writes before the read and during the
  // exchange, the clock before and after it, the two guard samples, the answer.
  datatype Site = Site(before: Option<NewPair>, now: int, auto: bool, claudeRunning: bool,
                       answer: OAuth, during: Option<NewPair>, after: int, write: Write)

  datatype Statusline = NoStatusline | StatuslineInsertFailed | StatuslineStored

  datatype Env = Env(enabled: bool, statusline: Statusline,
                     proactive: Site, beforeReread: Option<NewPair>,
                     pausedAt: int, paused: Site,
                     fetch: Fetch, bypass: Site, bypassFetch: Fetch,
                     beforeRetry: Option<NewPair>, retryFetch: Fetch,
                     recovery: Site, recoveryFetch: Fetch)

  // --- The agent ---

  datatype Config = Config(hasCredsRefresh: bool, hasTokenRefresh: bool,
                           apiPollingDisabled: bool, apiPollCycleInterval: nat)

  datatype Agent = Agent(
    clientToken: Token, lastToken: Token,
    authFailCount: nat, authPaused: bool, lastFailedToken: Token,
    authRetryAt: Option<int>, authRetryCount: nat,
    supersededToken: Token,
    rateLimitFailCount: nat, rateLimitPaused: bool, rateLimitResumeAt: Option<int>,
    pollCycleCount: nat)

  datatype Sys = Sys(a: Agent, w: World)

  // base * (1 << shift) with the shift capped at 10, then capped at max.
  function Backoff(base: int, max: int, n: int): int {
    if n <= 0 then base
    else
      var shift := if n - 1 > 10 then 10 else n - 1;
      var backoff := base * Pow2(shift);
      if backoff > max then max else backoff
  }

  function RateLimitBackoff(failCount: int): int { Backoff(RATE_LIMIT_BASE, RATE_LIMIT_MAX, failCount) }

  function AuthRetryBackoff(attempt: int): int { Backoff(RETRY_INTERVAL, RETRY_MAX, attempt) }

  function PauseAuth(a: Agent, failed: Token, now: int): Agent {
    a.(authPaused := true, lastFailedToken := failed,
       authRetryAt := if a.authRetryAt.None? then Some(now + RETRY_INTERVAL) else a.authRetryAt)
  }

  function ResumeAuth(a: Agent): Agent {
    a.(authPaused := false, authFailCount := 0, lastFailedToken := NoToken, authRetryAt := None, authRetryCount := 0)
  }

  function Decay(n: nat): nat { if n > 0 then n - 1 else 0 }

  predicate InBackoff(a: Agent, now: int) {
    a.rateLimitPaused && a.rateLimitResumeAt.Some? && now < a.rateLimitResumeAt.value
  }

  function ClearRateLimit(a: Agent): Agent {
    a.(rateLimitFailCount := 0, rateLimitPaused := false, rateLimitResumeAt := None)
  }

  function Log(s: Sys, x: Action): Sys { s.(w := s.w.(log := s.w.log + [x])) }

  function DeferRefresh(s: Sys, until: int): Sys {
    Log(s.(a := s.a.(rateLimitPaused := true, rateLimitResumeAt := Some(until))), Deferred(until))
  }

  // A 429 from the OAuth endpoint: the server's delay, else the exponential one.
  function RateLimit(s: Sys, retryAfter: int, now: int): Sys {
    var n := s.a.rateLimitFailCount + 1;
    DeferRefresh(s.(a := s.a.(rateLimitFailCount := n)),
                 now + if retryAfter > 0 then retryAfter else RateLimitBackoff(n))
  }

  function InvalidGrantPause(a: Agent, now: int): Agent {
    PauseAuth(a.(authFailCount := MAX_AUTH_FAILURES), a.lastToken, now)
  }

  function NoteFailure(s: Sys, answer: OAuth, now: int): Sys
    requires !answer.Tokens?
  {
    match answer
    case RateLimited(d) => RateLimit(s, d, now)
    case InvalidGrant => Log(s.(a := InvalidGrantPause(s.a, now)), GrantInvalid)
    case OtherFailure => s
  }

  // The 429 bypass also counts transient failures, and backs off at the fifth.
  function NoteBypassFailure(s: Sys, answer: OAuth, now: int): Sys
    requires !answer.Tokens?
  {
    if !answer.OtherFailure? then NoteFailure(s, answer, now)
    else
      var n := s.a.rateLimitFailCount + 1;
      var t := s.(a := s.a.(rateLimitFailCount := n));
      if n >= MAX_RATE_LIMIT_FAILURES then DeferRefresh(t, now + RateLimitBackoff(n)) else t
  }

  // The exchange itself, and whatever Claude Code writes meanwhile.
  function Exchange(s: Sys, source: Source, creds: Creds, site: Site): Sys {
    var t := Log(s, Refreshed(source, creds.access, creds.refresh, site.now, site.auto, site.claudeRunning,
                              site.answer.Tokens?));
    t.(w := External(t.w, site.during))
  }

  // The stored credentials after a write of c.
  function Written(w: World, c: Creds, effect: Effect): World {
    match effect
    case Replaced => w.(disk := Some(c))
    case Kept => w
    case Erased => w.(disk := None)
  }

  // Persist the rotated pair and install it; if the write reports an error,
  // remember the stored access token as superseded.
  function ApplyRefreshed(s: Sys, pair: NewPair, superseded: Token, write: Write): Sys {
    var (c, w) := Issue(s.w, pair);
    Log(Sys(s.a.(clientToken := c.access, lastToken := c.access,
                 supersededToken := if write.reported then NoToken else superseded),
            Written(w, c, write.effect)),
        Applied(superseded, write))
  }

  // A successful exchange, from the read credentials to the installed pair.
  function Succeed(s: Sys, source: Source, creds: Creds, site: Site): Sys
    requires site.answer.Tokens?
  {
    var t := Exchange(s, source, creds, site);
    ApplyRefreshed(t.(a := ClearRateLimit(t.a)), site.answer.pair, creds.access, site.write)
  }

  function ProactiveRefresh(s: Sys, creds: Creds, site: Site): Sys {
    if !site.auto then s
    else if creds.access != NoToken && creds.access == s.a.supersededToken then s
    else if site.claudeRunning then s
    else if InBackoff(s.a, site.now) then s
    else if !site.answer.Tokens? then
      NoteFailure(Exchange(s, Proactive, creds, site), site.answer, site.after)
    else
      var t := Succeed(s, Proactive, creds, site);
      if t.a.authPaused then Log(t.(a := ResumeAuth(t.a)), Resumed) else t
  }

  function TryOAuthRecovery(cfg: Config, s: Sys, site: Site): (Sys, bool) {
    if !cfg.hasCredsRefresh || !site.auto || site.claudeRunning || InBackoff(s.a, site.now) then (s, false)
    else
      var t := s.(w := External(s.w, site.before));
      if t.w.disk.None? || t.w.disk.value.refresh == NoToken then (t, false)
      else if !site.answer.Tokens? then
        (NoteFailure(Exchange(t, Recovery, t.w.disk.value, site), site.answer, site.after), false)
      else (Succeed(t, Recovery, t.w.disk.value, site), true)
  }

  function TryPausedAuthRecovery(cfg: Config, s: Sys, now: int, site: Site): (Sys, bool) {
    if s.a.authRetryAt.None? || now < s.a.authRetryAt.value then (s, false)
    else
      var k := s.a.authRetryCount + 1;
      var next := Some(now + AuthRetryBackoff(k));
      var t := Log(s.(a := s.a.(authRetryCount := k, authRetryAt := next)), Attempted(k, now));
      var (u, ok) := TryOAuthRecovery(cfg, t, site);
      if !ok then (u, false)
      else (Log(u.(a := ResumeAuth(u.a).(authRetryAt := u.a.authRetryAt, authRetryCount := u.a.authRetryCount)),
                PauseLifted), true)
  }

  function Success(s: Sys): Sys {
    Log(s.(a := s.a.(authFailCount := 0, authRetryCount := 0, authRetryAt := None)), PollOk)
  }

  function FetchQuotas(s: Sys, stage: Stage, outcome: Fetch): Sys {
    Log(s, Fetched(s.a.clientToken, stage, outcome))
  }

  // --- The stages of poll ---

  // Whether the statusline stage lets this poll reach the API path.
  function StatuslineStage(cfg: Config, a: Agent, st: Statusline): (Agent, bool) {
    match st
    case NoStatusline => (a, true)
    case StatuslineInsertFailed => (a, false)
    case StatuslineStored =>
      var n := a.pollCycleCount + 1;
      (a.(pollCycleCount := n, rateLimitFailCount := Decay(a.rateLimitFailCount)),
       cfg.apiPollCycleInterval > 0 && n % cfg.apiPollCycleInterval == 0)
  }

  function ProactiveStage(cfg: Config, s: Sys, site: Site): Sys {
    if !cfg.hasCredsRefresh || s.a.authPaused then s
    else
      var t := s.(w := External(s.w, site.before));
      match t.w.disk
      case None => t
      case Some(c) =>
        if c.expiresAt - site.now < REFRESH_THRESHOLD && c.refresh != NoToken then ProactiveRefresh(t, c, site) else t
  }

  function StoredAccess(w: World): Token {
    match w.disk case None => NoToken case Some(c) => c.access
  }

  function Install(s: Sys, token: Token): Sys {
    var t := Log(s.(a := s.a.(clientToken := token, lastToken := token)), Installed(token));
    var u := if t.a.authPaused && token != t.a.lastFailedToken then Log(t.(a := ResumeAuth(t.a)), Resumed) else t;
    if u.a.rateLimitPaused then u.(a := ClearRateLimit(u.a)) else u
  }

  function RereadStage(cfg: Config, s: Sys, before: Option<NewPair>): Sys {
    if !cfg.hasTokenRefresh then s
    else
      var t := s.(w := External(s.w, before));
      var stored := StoredAccess(t.w);
      var token := if stored != NoToken && stored == t.a.supersededToken then t.a.lastToken else stored;
      if token != NoToken && token != t.a.lastToken then Install(t, token) else t
  }

  // The 429 branch: refresh once for a fresh window, then fetch again.
  function BypassStage(cfg: Config, s: Sys, env: Env): Sys {
    var site := env.bypass;
    if InBackoff(s.a, site.now) then s
    else
      var r := if s.a.rateLimitPaused
               then Log(s.(a := s.a.(rateLimitFailCount := Decay(s.a.rateLimitFailCount), rateLimitPaused := false)),
                        Expired(site.now))
               else s;
      if !site.auto || site.claudeRunning || !cfg.hasCredsRefresh then r
      else
        var t := r.(w := External(r.w, site.before));
        if t.w.disk.None? || t.w.disk.value.refresh == NoToken then t
        else if !site.answer.Tokens? then
          NoteBypassFailure(Exchange(t, Bypass, t.w.disk.value, site), site.answer, site.after)
        else
          var u := FetchQuotas(Succeed(t, Bypass, t.w.disk.value, site), OnBypass, env.bypassFetch);
          if env.bypassFetch == FetchOk then Success(u) else u
  }

  // The third auth failure in a row: one OAuth refresh, else pause.
  function ThirdFailure(cfg: Config, s: Sys, retryToken: Token, env: Env): Sys {
    var (t, ok) := TryOAuthRecovery(cfg, s, env.recovery);
    var u := if ok then FetchQuotas(t, OnRecovery, env.recoveryFetch) else t;
    if ok && env.recoveryFetch == FetchOk then Success(u.(a := u.a.(authFailCount := 0, lastFailedToken := NoToken)))
    else if ok && env.recoveryFetch == Cancelled then u
    else if u.a.authPaused then u
    else u.(a := PauseAuth(u.a, retryToken, env.recovery.after))
  }

  // The 401/403 branch: re-read the stored token and retry once.
  function AuthErrorStage(cfg: Config, s: Sys, env: Env): Sys {
    if !cfg.hasTokenRefresh then s
    else
      var r := Sys(s.a.(lastToken := NoToken), External(s.w, env.beforeRetry));
      var token := StoredAccess(r.w);
      if token == NoToken then r
      else
        var t := FetchQuotas(r.(a := r.a.(clientToken := token, lastToken := token)), OnRetry, env.retryFetch);
        match env.retryFetch
        case FetchOk => Success(t.(a := t.a.(authFailCount := 0)))
        case FetchAuthError =>
          var u := t.(a := t.a.(authFailCount := t.a.authFailCount + 1));
          if u.a.authFailCount >= MAX_AUTH_FAILURES then ThirdFailure(cfg, u, token, env) else u
        case _ => t
  }

  function FetchStage(cfg: Config, s: Sys, env: Env): Sys {
    var t := FetchQuotas(s, Initially, env.fetch);
    match env.fetch
    case FetchOk => Success(t.(a := t.a.(rateLimitFailCount := Decay(t.a.rateLimitFailCount))))
    case FetchRateLimited => BypassStage(cfg, t, env)
    case FetchAuthError => AuthErrorStage(cfg, t, env)
    case FetchFailed => t
    case Cancelled => t
  }

  function ApiPath(cfg: Config, s: Sys, env: Env): Sys {
    var t := RereadStage(cfg, ProactiveStage(cfg, s, env.proactive), env.beforeReread);
    if t.a.authPaused then
      var (u, ok) := TryPausedAuthRecovery(cfg, t, env.pausedAt, env.paused);
      if ok then FetchStage(cfg, u, env) else u
    else FetchStage(cfg, t, env)
  }

  function Poll(cfg: Config, s: Sys, env: Env): Sys {
    if !env.enabled then s
    else
      var (a, onward) := StatuslineStage(cfg, s.a, env.statusline);
      var t := s.(a := a);
      if !onward || cfg.apiPollingDisabled then t else ApiPath(cfg, t, env)
  }

  function Run(cfg: Config, s: Sys, envs: seq<Env>): Sys {
    if envs == [] then s else Poll(cfg, Run(cfg, s, envs[..|envs| - 1]), envs[|envs| - 1])
  }
}
