// The Anthropic agent as the source has it, an object whose methods update its
// fields, proved against the functions of AnthropicSpec.
module AnthropicAgents {
  import opened Basics
  import opened AnthropicSpec

  class AnthropicAgent {
    const cfg: Config

    var clientToken: Token
    var lastToken: Token
    var authFailCount: nat
    var authPaused: bool
    var lastFailedToken: Token
    var authRetryAt: Option<int>
    var authRetryCount: nat
    var supersededToken: Token
    var rateLimitFailCount: nat
    var rateLimitPaused: bool
    var rateLimitResumeAt: Option<int>
    var pollCycleCount: nat

    // Stored credentials, the token issuer, and everything observed so far.
    var world: World

    function Fields(): Agent
      reads this
    {
      Agent(clientToken, lastToken, authFailCount, authPaused, lastFailedToken, authRetryAt, authRetryCount,
            supersededToken, rateLimitFailCount, rateLimitPaused, rateLimitResumeAt, pollCycleCount)
    }

    function Value(): Sys
      reads this
    {
      Sys(Fields(), world)
    }

    constructor (cfg: Config, token: Token, world: World)
      ensures this.cfg == cfg && this.world == world
      ensures Fields() == Agent(token, NoToken, 0, false, NoToken, None, 0, NoToken, 0, false, None, 0)
    {
      this.cfg, this.world := cfg, world;
      clientToken, lastToken, authFailCount, authPaused := token, NoToken, 0, false;
      lastFailedToken, authRetryAt, authRetryCount, supersededToken := NoToken, None, 0, NoToken;
      rateLimitFailCount, rateLimitPaused, rateLimitResumeAt, pollCycleCount := 0, false, None, 0;
    }

    method Record(x: Action)
      modifies this`world
      ensures Value() == Log(old(Value()), x)
    {
      world := world.(log := world.log + [x]);
    }

    method PauseAuthAt(failed: Token, now: int)
      modifies this
      ensures Value() == old(Value()).(a := PauseAuth(old(Fields()), failed, now))
    {
      authPaused := true;
      lastFailedToken := failed;
      if authRetryAt.None? {
        authRetryAt := Some(now + RETRY_INTERVAL);
      }
    }

    method Resume()
      modifies this
      ensures Value() == old(Value()).(a := ResumeAuth(old(Fields())))
    {
      authPaused, authFailCount, lastFailedToken := false, 0, NoToken;
      authRetryAt, authRetryCount := None, 0;
    }

    method ApplyRefreshedTokens(pair: NewPair, superseded: Token, write: Write)
      modifies this
      ensures Value() == ApplyRefreshed(old(Value()), pair, superseded, write)
    {
      var (c, w) := Issue(world, pair);
      world := Written(w, c, write.effect);
      if !write.reported {
        supersededToken := superseded;
      } else {
        supersededToken := NoToken;
      }
      clientToken, lastToken := c.access, c.access;
      Record(Applied(superseded, write));
    }

    method Defer(until: int)
      modifies this
      ensures Value() == DeferRefresh(old(Value()), until)
    {
      rateLimitPaused, rateLimitResumeAt := true, Some(until);
      Record(Deferred(until));
    }

    method NoteOAuthRefreshFailure(answer: OAuth, now: int)
      requires !answer.Tokens?
      modifies this
      ensures Value() == NoteFailure(old(Value()), answer, now)
    {
      match answer {
        case RateLimited(retryAfter) =>
          rateLimitFailCount := rateLimitFailCount + 1;
          var backoff := retryAfter;
          if backoff <= 0 {
            backoff := RateLimitBackoff(rateLimitFailCount);
          }
          Defer(now + backoff);
        case InvalidGrant =>
          authFailCount := MAX_AUTH_FAILURES;
          PauseAuthAt(lastToken, now);
          Record(GrantInvalid);
        case OtherFailure =>
      }
    }

    method NoteBypassRefreshFailure(answer: OAuth, now: int)
      requires !answer.Tokens?
      modifies this
      ensures Value() == NoteBypassFailure(old(Value()), answer, now)
    {
      if answer.OtherFailure? {
        rateLimitFailCount := rateLimitFailCount + 1;
        if rateLimitFailCount >= MAX_RATE_LIMIT_FAILURES {
          Defer(now + RateLimitBackoff(rateLimitFailCount));
        }
      } else {
        NoteOAuthRefreshFailure(answer, now);
      }
    }

    // The call to the OAuth endpoint; on success the backoff is cleared and the
    // new pair applied, as all three callers do.
    method RefreshWith(source: Source, creds: Creds, site: Site) returns (ok: bool)
      modifies this
      ensures ok == site.answer.Tokens?
      ensures Value() == if ok then Succeed(old(Value()), source, creds, site)
                         else Exchange(old(Value()), source, creds, site)
    {
      Record(Refreshed(source, creds.access, creds.refresh, site.now, site.auto, site.claudeRunning, site.answer.Tokens?));
      world := External(world, site.during);
      ok := site.answer.Tokens?;
      if ok {
        rateLimitFailCount, rateLimitPaused, rateLimitResumeAt := 0, false, None;
        ApplyRefreshedTokens(site.answer.pair, creds.access, site.write);
      }
    }

    method RefreshProactively(creds: Creds, site: Site)
      modifies this
      ensures Value() == ProactiveRefresh(old(Value()), creds, site)
    {
      hide Succeed, Exchange, NoteFailure;
      if !site.auto {
        return;
      }
      if creds.access != NoToken && creds.access == supersededToken {
        return;
      }
      if site.claudeRunning {
        return;
      }
      if InBackoff(Fields(), site.now) {
        return;
      }
      var ok := RefreshWith(Proactive, creds, site);
      if !ok {
        NoteOAuthRefreshFailure(site.answer, site.after);
      } else if authPaused {
        Resume();
        Record(Resumed);
      }
    }

    method RecoverByOAuth(site: Site) returns (ok: bool)
      modifies this
      ensures Value() == TryOAuthRecovery(cfg, old(Value()), site).0
      ensures ok == TryOAuthRecovery(cfg, old(Value()), site).1
    {
      hide Succeed, Exchange, NoteFailure;
      if !cfg.hasCredsRefresh || !site.auto || site.claudeRunning || InBackoff(Fields(), site.now) {
        return false;
      }
      world := External(world, site.before);
      if world.disk.None? || world.disk.value.refresh == NoToken {
        return false;
      }
      ok := RefreshWith(Recovery, world.disk.value, site);
      if !ok {
        NoteOAuthRefreshFailure(site.answer, site.after);
      }
    }

    method RecoverWhilePaused(now: int, site: Site) returns (ok: bool)
      modifies this
      ensures Value() == TryPausedAuthRecovery(cfg, old(Value()), now, site).0
      ensures ok == TryPausedAuthRecovery(cfg, old(Value()), now, site).1
    {
      hide TryOAuthRecovery, AuthRetryBackoff;
      if authRetryAt.None? || now < authRetryAt.value {
        return false;
      }
      authRetryCount := authRetryCount + 1;
      authRetryAt := Some(now + AuthRetryBackoff(authRetryCount));
      Record(Attempted(authRetryCount, now));
      ok := RecoverByOAuth(site);
      if ok {
        var nextRetry, attempts := authRetryAt, authRetryCount;
        Resume();
        authRetryAt, authRetryCount := nextRetry, attempts;
        Record(PauseLifted);
      }
    }

    method FetchUsage(stage: Stage, outcome: Fetch)
      modifies this
      ensures Value() == FetchQuotas(old(Value()), stage, outcome)
    {
      Record(Fetched(clientToken, stage, outcome));
    }

    // processResponse: the auth and schedule fields it clears.
    method ProcessResponse()
      modifies this
      ensures Value() == Success(old(Value()))
    {
      authFailCount, authRetryCount, authRetryAt := 0, 0, None;
      Record(PollOk);
    }

    method RefreshIfExpiring(site: Site)
      modifies this
      ensures Value() == ProactiveStage(cfg, old(Value()), site)
    {
      hide ProactiveRefresh;
      if cfg.hasCredsRefresh && !authPaused {
        world := External(world, site.before);
        if world.disk.Some? {
          var creds := world.disk.value;
          if creds.expiresAt - site.now < REFRESH_THRESHOLD && creds.refresh != NoToken {
            RefreshProactively(creds, site);
          }
        }
      }
    }

    // New credentials on disk: use them, and lift the pause and the backoff.
    method InstallToken(newToken: Token)
      modifies this
      ensures Value() == Install(old(Value()), newToken)
    {
      clientToken, lastToken := newToken, newToken;
      Record(Installed(newToken));
      if authPaused && newToken != lastFailedToken {
        Resume();
        Record(Resumed);
      }
      if rateLimitPaused {
        rateLimitPaused, rateLimitFailCount, rateLimitResumeAt := false, 0, None;
      }
    }

    method RereadToken(before: Option<NewPair>)
      modifies this
      ensures Value() == RereadStage(cfg, old(Value()), before)
    {
      hide Install;
      if cfg.hasTokenRefresh {
        world := External(world, before);
        var newToken := StoredAccess(world);
        if newToken != NoToken && newToken == supersededToken {
          newToken := lastToken;
        }
        if newToken != NoToken && newToken != lastToken {
          InstallToken(newToken);
        }
      }
    }

    method BypassRateLimit(env: Env)
      modifies this
      ensures Value() == BypassStage(cfg, old(Value()), env)
    {
      hide Succeed, Exchange, NoteBypassFailure, Success;
      var site := env.bypass;
      if rateLimitPaused {
        if InBackoff(Fields(), site.now) {
          return;
        }
        if rateLimitFailCount > 0 {
          rateLimitFailCount := rateLimitFailCount - 1;
        }
        rateLimitPaused := false;
        Record(Expired(site.now));
      }
      if !site.auto || site.claudeRunning || !cfg.hasCredsRefresh {
        return;
      }
      world := External(world, site.before);
      if world.disk.None? || world.disk.value.refresh == NoToken {
        return;
      }
      var ok := RefreshWith(Bypass, world.disk.value, site);
      if !ok {
        NoteBypassRefreshFailure(site.answer, site.after);
        return;
      }
      FetchUsage(OnBypass, env.bypassFetch);
      if env.bypassFetch == FetchOk {
        ProcessResponse();
      }
    }

    method HandleThirdFailure(retryToken: Token, env: Env)
      modifies this
      ensures Value() == ThirdFailure(cfg, old(Value()), retryToken, env)
    {
      hide TryOAuthRecovery, Success, FetchQuotas;
      var ok := RecoverByOAuth(env.recovery);
      if ok {
        FetchUsage(OnRecovery, env.recoveryFetch);
        if env.recoveryFetch == FetchOk {
          authFailCount, lastFailedToken := 0, NoToken;
          ProcessResponse();
          return;
        }
        if env.recoveryFetch == Cancelled {
          return;
        }
      }
      if authPaused {
        return;
      }
      PauseAuthAt(retryToken, env.recovery.after);
    }

    method RetryAfterAuthError(env: Env)
      modifies this
      ensures Value() == AuthErrorStage(cfg, old(Value()), env)
    {
      hide ThirdFailure, Success, FetchQuotas;
      if !cfg.hasTokenRefresh {
        return;
      }
      lastToken := NoToken;
      world := External(world, env.beforeRetry);
      var retryToken := StoredAccess(world);
      if retryToken == NoToken {
        return;
      }
      clientToken, lastToken := retryToken, retryToken;
      FetchUsage(OnRetry, env.retryFetch);
      if env.retryFetch == FetchAuthError {
        authFailCount := authFailCount + 1;
        if authFailCount >= MAX_AUTH_FAILURES {
          HandleThirdFailure(retryToken, env);
        }
      } else if env.retryFetch == FetchOk {
        authFailCount := 0;
        ProcessResponse();
      }
    }

    method FetchAndRecover(env: Env)
      modifies this
      ensures Value() == FetchStage(cfg, old(Value()), env)
    {
      hide BypassStage, AuthErrorStage, Success;
      FetchUsage(Initially, env.fetch);
      match env.fetch {
        case FetchRateLimited => BypassRateLimit(env);
        case FetchAuthError => RetryAfterAuthError(env);
        case FetchOk =>
          if rateLimitFailCount > 0 {
            rateLimitFailCount := rateLimitFailCount - 1;
          }
          ProcessResponse();
        case FetchFailed =>
        case Cancelled =>
      }
    }

    method PollOnce(env: Env)
      modifies this
      ensures Value() == Poll(cfg, old(Value()), env)
    {
      hide ProactiveStage, RereadStage, TryPausedAuthRecovery, FetchStage;
      if !env.enabled {
        return;
      }
      match env.statusline {
        case NoStatusline =>
        case StatuslineInsertFailed => return;
        case StatuslineStored =>
          pollCycleCount := pollCycleCount + 1;
          if rateLimitFailCount > 0 {
            rateLimitFailCount := rateLimitFailCount - 1;
          }
          if !(cfg.apiPollCycleInterval > 0 && pollCycleCount % cfg.apiPollCycleInterval == 0) {
            return;
          }
      }
      if cfg.apiPollingDisabled {
        return;
      }
      RefreshIfExpiring(env.proactive);
      RereadToken(env.beforeReread);
      if authPaused {
        var ok := RecoverWhilePaused(env.pausedAt, env.paused);
        if !ok {
          return;
        }
      }
      FetchAndRecover(env);
    }

    // The polling loop of Run, one environment per tick.
    method PollRepeatedly(envs: seq<Env>)
      modifies this
      ensures Value() == Run(cfg, old(Value()), envs)
    {
      hide Poll;
      for i := 0 to |envs|
        invariant Value() == Run(cfg, old(Value()), envs[..i])
      {
        PollOnce(envs[i]);
        assert envs[..i + 1][..i] == envs[..i];
      }
      assert envs[..|envs|] == envs;
    }
  }
}
