// Every stage of a poll keeps the invariant, so every run does; then what a
// reader of the log can conclude.
module AnthropicRuns {
  import opened Basics
  import opened AnthropicSpec
  import opened AnthropicTheorems

  // --- Stages ---

  lemma ProactiveRefreshKeeps(s: Sys, creds: Creds, site: Site)
    requires Good(s) && !s.a.authPaused && s.w.disk == Some(creds) && creds.refresh != NoToken
    ensures Good(ProactiveRefresh(s, creds, site))
  {
    hide Succeed, Exchange, NoteFailure;
    DiskKnown(s);
    hide Good;
    if site.auto && creds.access != s.a.supersededToken && !site.claudeRunning && !InBackoff(s.a, site.now) {
      if site.answer.Tokens? {
        SucceedKeeps(s, Proactive, creds, site);
      } else {
        RejectedExchangeKeeps(s, Proactive, creds, site);
        NoteFailureKeeps(Exchange(s, Proactive, creds, site), site.answer, site.after);
      }
    }
  }

  lemma DiskKnown(s: Sys)
    requires Good(s)
    ensures s.w.disk.Some? ==> s.w.disk.value.access.Issued?
  {}

  lemma ProactiveStageKeeps(cfg: Config, s: Sys, site: Site)
    requires Good(s)
    ensures Good(ProactiveStage(cfg, s, site))
  {
    hide Good, ProactiveRefresh;
    ExternalKeeps(s, site.before);
    var t := s.(w := External(s.w, site.before));
    if !s.a.authPaused && t.w.disk.Some? && t.w.disk.value.refresh != NoToken {
      ProactiveRefreshKeeps(t, t.w.disk.value, site);
    }
  }

  lemma InstallKeeps(s: Sys, token: Token)
    requires Good(s) && token != s.a.supersededToken
    ensures Good(Install(s, token))
  {
    hide GoodLog, Spent, Allowed, TokensSafe, AuthRetryBackoff, BackoffUntil, LastAttempt, LastApplied;
    var x := Installed(token);
    InstallAllowed(s, token);
    Extend(s.w.log, x);
    Extend(s.w.log + [x], Resumed);
    AppliedAllowed(s.w.log + [x], Resumed);
    TokensSafeAlong(s, Install(s, token));
  }

  lemma InstallAllowed(s: Sys, token: Token)
    requires Good(s) && token != s.a.supersededToken
    ensures Allowed(s.w.log, Installed(token))
  {}

  // The re-read installs a token only when it differs from the superseded one.
  lemma RereadStageKeeps(cfg: Config, s: Sys, before: Option<NewPair>)
    requires Good(s)
    ensures Good(RereadStage(cfg, s, before))
  {
    hide Good, Install;
    ExternalKeeps(s, before);
    var t := s.(w := External(s.w, before));
    var stored := StoredAccess(t.w);
    if stored != NoToken && stored != t.a.supersededToken {
      InstallKeeps(t, stored);
    }
  }

  lemma RecoveryKeeps(cfg: Config, s: Sys, site: Site)
    requires Good(s)
    ensures Good(TryOAuthRecovery(cfg, s, site).0)
    ensures TryOAuthRecovery(cfg, s, site).1 ==> SameSchedule(s.a, TryOAuthRecovery(cfg, s, site).0.a)
  {
    hide Good, Succeed, Exchange, NoteFailure;
    ExternalKeeps(s, site.before);
    var t := s.(w := External(s.w, site.before));
    if site.auto && !site.claudeRunning && !InBackoff(s.a, site.now) && t.w.disk.Some? && t.w.disk.value.refresh != NoToken {
      var c := t.w.disk.value;
      if site.answer.Tokens? {
        SucceedKeeps(t, Recovery, c, site);
      } else {
        RejectedExchangeKeeps(t, Recovery, c, site);
        NoteFailureKeeps(Exchange(t, Recovery, c, site), site.answer, site.after);
      }
    }
  }

  // An attempt is due, so it keeps its distance from the previous one.
  lemma AttemptKeeps(s: Sys, now: int)
    requires Good(s) && s.a.authRetryAt.Some? && now >= s.a.authRetryAt.value
    ensures var k := s.a.authRetryCount + 1;
            Good(Log(s.(a := s.a.(authRetryCount := k, authRetryAt := Some(now + AuthRetryBackoff(k)))), Attempted(k, now)))
  {
    hide GoodLog, Spent, AuthRetryBackoff, BackoffUntil, LastApplied;
    Extend(s.w.log, Attempted(s.a.authRetryCount + 1, now));
  }

  lemma PausedRecoveryKeeps(cfg: Config, s: Sys, now: int, site: Site)
    requires Good(s)
    ensures var (t, ok) := TryPausedAuthRecovery(cfg, s, now, site);
            Good(t) && (ok ==> !t.a.authPaused)
  {
    hide Good, TryOAuthRecovery;
    if s.a.authRetryAt.Some? && now >= s.a.authRetryAt.value {
      AttemptKeeps(s, now);
      var k := s.a.authRetryCount + 1;
      var t := Log(s.(a := s.a.(authRetryCount := k, authRetryAt := Some(now + AuthRetryBackoff(k)))), Attempted(k, now));
      RecoveryKeeps(cfg, t, site);
      var u := TryOAuthRecovery(cfg, t, site).0;
      var b := ResumeAuth(u.a).(authRetryAt := u.a.authRetryAt, authRetryCount := u.a.authRetryCount);
      SameFields(u, b);
      AppliedAllowed(u.w.log, PauseLifted);
      LogKeeps(u.(a := b), PauseLifted);
    }
  }

  lemma SuccessKeeps(s: Sys)
    requires Good(s) && !s.a.authPaused
    ensures Good(Success(s))
  {
    hide GoodLog, Spent, Allowed, TokensSafe, AuthRetryBackoff, BackoffUntil, LastAttempt, LastApplied;
    AppliedAllowed(s.w.log, PollOk);
    Extend(s.w.log, PollOk);
    TokensSafeAlong(s, Success(s));
  }

  lemma FetchKeeps(s: Sys, stage: Stage, outcome: Fetch)
    requires Good(s)
    ensures Good(FetchQuotas(s, stage, outcome))
  {
    AppliedAllowed(s.w.log, Fetched(s.a.clientToken, stage, outcome));
    LogKeeps(s, Fetched(s.a.clientToken, stage, outcome));
  }

  lemma ExpireKeeps(s: Sys, now: int)
    requires Good(s) && s.a.rateLimitPaused && !InBackoff(s.a, now)
    ensures Good(Log(s.(a := s.a.(rateLimitFailCount := Decay(s.a.rateLimitFailCount), rateLimitPaused := false)),
                     Expired(now)))
  {
    hide GoodLog, Spent;
    Extend(s.w.log, Expired(now));
  }

  lemma BypassStageKeeps(cfg: Config, s: Sys, env: Env)
    requires Good(s) && !s.a.authPaused
    ensures Good(BypassStage(cfg, s, env))
  {
    hide Good, Succeed, Exchange, NoteBypassFailure, Success;
    var site := env.bypass;
    if !InBackoff(s.a, site.now) {
      var r := s;
      if s.a.rateLimitPaused {
        ExpireKeeps(s, site.now);
        r := Log(s.(a := s.a.(rateLimitFailCount := Decay(s.a.rateLimitFailCount), rateLimitPaused := false)),
                 Expired(site.now));
      }
      ExternalKeeps(r, site.before);
      var t := r.(w := External(r.w, site.before));
      if site.auto && !site.claudeRunning && t.w.disk.Some? && t.w.disk.value.refresh != NoToken {
        var c := t.w.disk.value;
        if site.answer.Tokens? {
          SucceedKeeps(t, Bypass, c, site);
          FetchKeeps(Succeed(t, Bypass, c, site), OnBypass, env.bypassFetch);
          SuccessKeeps(FetchQuotas(Succeed(t, Bypass, c, site), OnBypass, env.bypassFetch));
        } else {
          RejectedExchangeKeeps(t, Bypass, c, site);
          NoteBypassFailureKeeps(Exchange(t, Bypass, c, site), site.answer, site.after);
        }
      }
    }
  }

  lemma ThirdFailureKeeps(cfg: Config, s: Sys, token: Token, env: Env)
    requires Good(s) && !s.a.authPaused
    ensures Good(ThirdFailure(cfg, s, token, env))
  {
    hide Good, TryOAuthRecovery, Success;
    RecoveryKeeps(cfg, s, env.recovery);
    var (t, ok) := TryOAuthRecovery(cfg, s, env.recovery);
    FetchKeeps(t, OnRecovery, env.recoveryFetch);
    var u := if ok then FetchQuotas(t, OnRecovery, env.recoveryFetch) else t;
    if ok {
      var b := u.a.(authFailCount := 0, lastFailedToken := NoToken);
      SameFields(u, b);
      SuccessKeeps(u.(a := b));
    }
    PauseKeeps(u, PauseAuth(u.a, token, env.recovery.after), env.recovery.after);
  }

  lemma AuthErrorStageKeeps(cfg: Config, s: Sys, env: Env)
    requires Good(s) && !s.a.authPaused
    ensures Good(AuthErrorStage(cfg, s, env))
  {
    hide Good, ThirdFailure, Success;
    SameFields(s, s.a.(lastToken := NoToken));
    var p := s.(a := s.a.(lastToken := NoToken));
    ExternalKeeps(p, env.beforeRetry);
    var r := p.(w := External(p.w, env.beforeRetry));
    var token := StoredAccess(r.w);
    if token != NoToken {
      var b := r.a.(clientToken := token, lastToken := token);
      SameFields(r, b);
      FetchKeeps(r.(a := b), OnRetry, env.retryFetch);
      var t := FetchQuotas(r.(a := b), OnRetry, env.retryFetch);
      SameFields(t, t.a.(authFailCount := 0));
      SuccessKeeps(t.(a := t.a.(authFailCount := 0)));
      var u := t.a.(authFailCount := t.a.authFailCount + 1);
      SameFields(t, u);
      ThirdFailureKeeps(cfg, t.(a := u), token, env);
    }
  }

  lemma FetchStageKeeps(cfg: Config, s: Sys, env: Env)
    requires Good(s) && !s.a.authPaused
    ensures Good(FetchStage(cfg, s, env))
  {
    hide Good, BypassStage, AuthErrorStage, Success;
    FetchKeeps(s, Initially, env.fetch);
    var t := FetchQuotas(s, Initially, env.fetch);
    var b := t.a.(rateLimitFailCount := Decay(t.a.rateLimitFailCount));
    SameFields(t, b);
    SuccessKeeps(t.(a := b));
    BypassStageKeeps(cfg, t, env);
    AuthErrorStageKeeps(cfg, t, env);
  }

  lemma ApiPathKeeps(cfg: Config, s: Sys, env: Env)
    requires Good(s)
    ensures Good(ApiPath(cfg, s, env))
  {
    hide Good, ProactiveStage, RereadStage, TryPausedAuthRecovery, FetchStage;
    ProactiveStageKeeps(cfg, s, env.proactive);
    var p := ProactiveStage(cfg, s, env.proactive);
    RereadStageKeeps(cfg, p, env.beforeReread);
    var t := RereadStage(cfg, p, env.beforeReread);
    if t.a.authPaused {
      PausedRecoveryKeeps(cfg, t, env.pausedAt, env.paused);
      var (u, ok) := TryPausedAuthRecovery(cfg, t, env.pausedAt, env.paused);
      if ok {
        FetchStageKeeps(cfg, u, env);
      }
    } else {
      FetchStageKeeps(cfg, t, env);
    }
  }

  lemma PollKeeps(cfg: Config, s: Sys, env: Env)
    requires Good(s)
    ensures Good(Poll(cfg, s, env))
  {
    hide Good, ApiPath;
    var (a, _) := StatuslineStage(cfg, s.a, env.statusline);
    SameFields(s, a);
    ApiPathKeeps(cfg, s.(a := a), env);
  }

  // A newly built agent beside whatever credentials are stored.
  ghost predicate Initial(s: Sys) {
    && s.w.log == [] && s.a.supersededToken == NoToken
    && !s.a.authPaused && s.a.authRetryCount == 0 && s.a.authRetryAt.None?
    && !s.a.rateLimitPaused && s.a.rateLimitResumeAt.None?
    && (s.w.disk.Some? ==>
          s.w.disk.value.access.Issued? && Known(s.w.disk.value.access, s.w) && Known(s.w.disk.value.refresh, s.w))
  }

  lemma InitialGood(s: Sys)
    requires Initial(s)
    ensures Good(s)
  {}

  // The invariant holds after every sequence of polls in every environment.
  lemma {:induction false} RunGood(cfg: Config, s: Sys, envs: seq<Env>)
    requires Initial(s)
    ensures Good(Run(cfg, s, envs))
  {
    hide Good, Poll;
    if envs == [] {
      InitialGood(s);
    } else {
      RunGood(cfg, s, envs[..|envs| - 1]);
      PollKeeps(cfg, Run(cfg, s, envs[..|envs| - 1]), envs[|envs| - 1]);
    }
  }

  lemma LogGood(cfg: Config, s: Sys, envs: seq<Env>)
    requires Initial(s)
    ensures GoodLog(Run(cfg, s, envs).w.log)
  {
    hide Run;
    RunGood(cfg, s, envs);
  }

  // --- What a run's log shows ---

  // An earlier refresh already exchanged the token presented at j.
  ghost predicate Reuses(log: seq<Action>, j: nat)
    requires j < |log| && log[j].Refreshed?
  {
    exists i :: 0 <= i < j && Spends(log[i], log[j].presented)
  }

  predicate Spends(x: Action, t: Token) { x.Refreshed? && x.accepted && x.presented == t }

  lemma ReusesSpent(log: seq<Action>, j: nat)
    requires j < |log| && log[j].Refreshed?
    ensures Reuses(log, j) <==> log[j].presented in Spent(log[..j])
  {
    var b := log[..j];
    if log[j].presented in Spent(b) {
      var i :| 0 <= i < |b| && b[i].Refreshed? && b[i].accepted && b[i].presented == log[j].presented;
      assert Spends(log[i], log[j].presented);
    }
    if Reuses(log, j) {
      var i :| 0 <= i < j && Spends(log[i], log[j].presented);
      assert b[i] == log[i];
    }
  }

  // A refresh, from any of the three sites, presents an already exchanged token
  // exactly when the stored pair is the one the latest write should have
  // replaced and did not.
  lemma ReuseExactly(cfg: Config, s: Sys, envs: seq<Env>, j: nat)
    requires Initial(s)
    requires var log := Run(cfg, s, envs).w.log; j < |log| && log[j].Refreshed?
    ensures var log := Run(cfg, s, envs).w.log;
            Reuses(log, j) <==> log[j].stored == Stale(log[..j])
  {
    hide Run;
    LogGood(cfg, s, envs);
    var log := Run(cfg, s, envs).w.log;
    assert Allowed(log[..j], log[j]);
    ReusesSpent(log, j);
  }

  // Proactive refresh skips the superseded pair, so it presents an exchanged
  // token exactly when that write also reported success.
  lemma ProactiveReuseExactly(cfg: Config, s: Sys, envs: seq<Env>, j: nat)
    requires Initial(s)
    requires var log := Run(cfg, s, envs).w.log; j < |log| && log[j].Refreshed? && log[j].source == Proactive
    ensures var log := Run(cfg, s, envs).w.log;
            Reuses(log, j) <==> Silent(log[..j]) && log[j].stored == Stale(log[..j])
  {
    hide Run;
    LogGood(cfg, s, envs);
    var log := Run(cfg, s, envs).w.log;
    assert Allowed(log[..j], log[j]);
    ReusesSpent(log, j);
  }

  // No write reported success and yet kept the old pair.
  predicate NoSilentWrite(log: seq<Action>) {
    forall i :: 0 <= i < |log| && log[i].Applied? ==> !(log[i].write.reported && log[i].write.effect.Kept?)
  }

  lemma {:induction false} NeverSilent(log: seq<Action>)
    requires NoSilentWrite(log)
    ensures !Silent(log)
  {
    if log != [] && !log[|log| - 1].Applied? {
      NeverSilent(log[..|log| - 1]);
    }
  }

  // One-time tokens: where every reported write took effect, proactive refresh
  // never presents a refresh token that any earlier refresh already exchanged,
  // however many writes failed openly.
  lemma ProactiveNeverReuses(cfg: Config, s: Sys, envs: seq<Env>, j: nat)
    requires Initial(s) && NoSilentWrite(Run(cfg, s, envs).w.log)
    requires var log := Run(cfg, s, envs).w.log; j < |log| && log[j].Refreshed? && log[j].source == Proactive
    ensures !Reuses(Run(cfg, s, envs).w.log, j)
  {
    hide Run;
    ProactiveReuseExactly(cfg, s, envs, j);
    NeverSilent(Run(cfg, s, envs).w.log[..j]);
  }

  // The proactive stage presents an already exchanged token.
  ghost predicate StageReuses(cfg: Config, p: Sys, site: Site) {
    var log, n := ProactiveStage(cfg, p, site).w.log, |p.w.log|;
    n < |log| && log[n].Refreshed? && log[n].presented in Spent(p.w.log)
  }

  // The stored pair is spent, refreshable, and was left by a silent write.
  predicate Exposed(cfg: Config, p: Sys) {
    && cfg.hasCredsRefresh && !p.a.authPaused && Silent(p.w.log)
    && p.w.disk.Some? && p.w.disk.value.refresh != NoToken && p.w.disk.value.access == Stale(p.w.log)
  }

  // What the proactive stage logs first, if anything, and what it checked before.
  lemma ProactiveLog(cfg: Config, p: Sys, site: Site)
    ensures var log, n, disk := ProactiveStage(cfg, p, site).w.log, |p.w.log|, External(p.w, site.before).disk;
            && p.w.log <= log
            && (n < |log| ==>
                  && log[n].Refreshed? && disk.Some? && log[n].presented == disk.value.refresh != NoToken
                  && cfg.hasCredsRefresh && !p.a.authPaused
                  && !(disk.value.access != NoToken && disk.value.access == p.a.supersededToken))
  {}

  lemma StageReusesOnlyExposed(cfg: Config, p: Sys, site: Site)
    requires Good(p) && StageReuses(cfg, p, site)
    ensures Exposed(cfg, p)
  {
    hide GoodLog, Spent, LastApplied, BackoffUntil, LastAttempt, ProactiveStage;
    ProactiveLog(cfg, p, site);
  }

  lemma ExposedReuses(cfg: Config, p: Sys, site: Site)
    requires Good(p) && Exposed(cfg, p)
    requires site.before.None? && site.auto && !site.claudeRunning && site.answer == OtherFailure && site.during.None?
    requires p.w.disk.value.expiresAt <= site.now && !InBackoff(p.a, site.now)
    ensures StageReuses(cfg, p, site)
  {
    hide GoodLog, Spent, LastApplied, BackoffUntil, LastAttempt;
  }

  // After any run some environment makes the next proactive stage present an
  // exchanged token if and only if the agent is exposed by a silent write.
  lemma NextReuseExactly(cfg: Config, s: Sys, envs: seq<Env>)
    requires Initial(s)
    ensures (exists site :: StageReuses(cfg, Run(cfg, s, envs), site)) <==> Exposed(cfg, Run(cfg, s, envs))
  {
    var p := Run(cfg, s, envs);
    RunGood(cfg, s, envs);
    hide Run, Good, StageReuses;
    if Exposed(cfg, p) {
      var until := if p.a.rateLimitResumeAt.Some? then p.a.rateLimitResumeAt.value else 0;
      var expiry := p.w.disk.value.expiresAt;
      var site := Site(None, if until < expiry then expiry else until, true, false, OtherFailure, None, 0,
                       Write(true, Replaced));
      ExposedReuses(cfg, p, site);
    }
    if site :| StageReuses(cfg, p, site) {
      StageReusesOnlyExposed(cfg, p, site);
    }
  }

  // One poll is enough: a keyring error is swallowed, the write reports success,
  // and the next poll presents the spent token again.
  lemma SilentWriteExposes(cfg: Config, s: Sys, env: Env)
    requires Initial(s) && cfg.hasCredsRefresh && !cfg.apiPollingDisabled && env.beforeReread.None?
    requires s.w.disk.Some? && s.w.disk.value.refresh != NoToken && s.w.disk.value.expiresAt <= env.proactive.now
    requires env.enabled && env.statusline == NoStatusline && env.fetch == FetchOk
    requires var p := env.proactive;
             p.before.None? && p.auto && !p.claudeRunning && p.answer.Tokens? && p.during.None?
             && p.write == Write(true, Kept)
    ensures Exposed(cfg, Poll(cfg, s, env))
  {
    var c := s.w.disk.value;
    var x := Refreshed(Proactive, c.access, c.refresh, env.proactive.now, true, false, true);
    var y := Applied(c.access, env.proactive.write);
    var reread := if cfg.hasTokenRefresh then [Installed(c.access)] else [];
    var token := if cfg.hasTokenRefresh then c.access else Issued(s.w.issued);
    assert Poll(cfg, s, env).w.log == [x] + [y] + reread + [Fetched(token, Initially, FetchOk)] + [PollOk];
    AppliedSnoc([x], y);
    if cfg.hasTokenRefresh {
      AppliedSnoc([x] + [y], Installed(c.access));
    } else {
      assert [x] + [y] + reread == [x] + [y];
    }
    AppliedSnoc([x] + [y] + reread, Fetched(token, Initially, FetchOk));
    AppliedSnoc([x] + [y] + reread + [Fetched(token, Initially, FetchOk)], PollOk);
  }

  // The bypass and the recovery paths do not look at the superseded token: an
  // accepted proactive refresh whose write fails openly, then a rate-limited
  // fetch, and the same poll presents the token twice.
  lemma BypassReuses(cfg: Config, s: Sys, env: Env)
    requires Initial(s) && cfg.hasCredsRefresh && cfg.hasTokenRefresh && !cfg.apiPollingDisabled
    requires s.w.disk.Some? && s.w.disk.value.refresh != NoToken && s.w.disk.value.expiresAt <= env.proactive.now
    requires env.enabled && env.statusline == NoStatusline && env.fetch == FetchRateLimited
    requires var p := env.proactive;
             p.before.None? && p.auto && !p.claudeRunning && p.answer.Tokens? && p.during.None?
             && p.write == Write(false, Kept)
    requires env.beforeReread.None?
    requires env.bypass.before.None? && env.bypass.auto && !env.bypass.claudeRunning && env.bypass.answer.OtherFailure?
    ensures var log := Poll(cfg, s, env).w.log;
            && |log| == 4 && log[0].Refreshed? && log[0].accepted && log[3].Refreshed?
            && log[0].presented == log[3].presented
  {}

  // The pre-poll re-read never goes back to the access token that the latest
  // unsaved refresh replaced.
  lemma RereadNeverDowngrades(cfg: Config, s: Sys, envs: seq<Env>, i: nat, j: nat)
    requires Initial(s)
    requires var log := Run(cfg, s, envs).w.log;
             && i < j < |log| && log[i].Applied? && !log[i].write.reported && log[j].Installed?
             && (forall m :: i < m < j ==> !log[m].Applied?)
    ensures var log := Run(cfg, s, envs).w.log;
            log[j].token != log[i].replaced
  {
    hide Run;
    LogGood(cfg, s, envs);
    var log := Run(cfg, s, envs).w.log;
    assert Allowed(log[..j], log[j]);
    SupersededSince(log, i, j);
  }

  // It goes back to a spent pair's access token only after a silent write.
  lemma RereadDowngradesOnlySilent(cfg: Config, s: Sys, envs: seq<Env>, j: nat)
    requires Initial(s)
    requires var log := Run(cfg, s, envs).w.log;
             j < |log| && log[j].Installed? && Stale(log[..j]) != NoToken && log[j].token == Stale(log[..j])
    ensures Silent(Run(cfg, s, envs).w.log[..j])
  {
    hide Run;
    LogGood(cfg, s, envs);
    var log := Run(cfg, s, envs).w.log;
    assert Allowed(log[..j], log[j]);
  }

  lemma {:induction false} SupersededSince(log: seq<Action>, i: nat, j: nat)
    requires i < j <= |log| && log[i].Applied? && !log[i].write.reported
    requires forall m :: i < m < j ==> !log[m].Applied?
    ensures Superseded(log[..j]) == log[i].replaced
    decreases j
  {
    assert log[..j][..j - 1] == log[..j - 1];
    if i < j - 1 {
      SupersededSince(log, i, j - 1);
    }
  }

  // Every refresh, from any of the three call sites, found auto-refresh allowed
  // and Claude Code not running, and came no earlier than the backoff in force.
  lemma RefreshesGuarded(cfg: Config, s: Sys, envs: seq<Env>, i: nat)
    requires Initial(s)
    requires var log := Run(cfg, s, envs).w.log; i < |log| && log[i].Refreshed?
    ensures var log := Run(cfg, s, envs).w.log;
            && log[i].auto && !log[i].claudeRunning && log[i].presented != NoToken
            && NotBefore(log[i].at, BackoffUntil(log[..i]))
  {
    hide Run;
    LogGood(cfg, s, envs);
    var log := Run(cfg, s, envs).w.log;
    assert Allowed(log[..i], log[i]);
  }

  predicate LiftsBackoff(x: Action) {
    x.Deferred? || x.Expired? || x.Installed? || (x.Refreshed? && x.accepted)
  }

  lemma {:induction false} BackoffSince(log: seq<Action>, i: nat, j: nat)
    requires i < j <= |log| && log[i].Deferred?
    requires forall m :: i < m < j ==> !LiftsBackoff(log[m])
    ensures BackoffUntil(log[..j]) == Some(log[i].until)
    decreases j
  {
    assert log[..j][..j - 1] == log[..j - 1];
    if i < j - 1 {
      BackoffSince(log, i, j - 1);
      assert !LiftsBackoff(log[j - 1]);
    }
  }

  // The backoff spelled out: between the 429 that set a deadline and its expiry,
  // a success or new credentials, no refresh happens before the deadline.
  lemma RefreshRespectsDeadline(cfg: Config, s: Sys, envs: seq<Env>, i: nat, j: nat)
    requires Initial(s)
    requires var log := Run(cfg, s, envs).w.log;
             && i < j < |log| && log[i].Deferred? && (log[j].Refreshed? || log[j].Expired?)
             && (forall m :: i < m < j ==> !LiftsBackoff(log[m]))
    ensures var log := Run(cfg, s, envs).w.log;
            log[j].at >= log[i].until
  {
    hide Run;
    LogGood(cfg, s, envs);
    var log := Run(cfg, s, envs).w.log;
    assert Allowed(log[..j], log[j]);
    BackoffSince(log, i, j);
  }

  predicate ResetsSchedule(x: Action) { x.Attempted? || x.Resumed? || x.PollOk? }

  lemma {:induction false} AttemptSince(log: seq<Action>, i: nat, j: nat)
    requires i < j <= |log| && log[i].Attempted?
    requires forall m :: i < m < j ==> !ResetsSchedule(log[m])
    ensures LastAttempt(log[..j]) == Some((log[i].attempt, log[i].at))
    decreases j
  {
    assert log[..j][..j - 1] == log[..j - 1];
    if i < j - 1 {
      AttemptSince(log, i, j - 1);
      assert !ResetsSchedule(log[j - 1]);
    }
  }

  // Consecutive recovery attempts with no successful poll and no credential
  // change between them: the next one is numbered k + 1 and comes at least
  // min(15min * 2^(k-1), 6h) after attempt k.
  lemma AttemptsSpaced(cfg: Config, s: Sys, envs: seq<Env>, i: nat, j: nat)
    requires Initial(s)
    requires var log := Run(cfg, s, envs).w.log;
             && i < j < |log| && log[i].Attempted? && log[j].Attempted?
             && (forall m :: i < m < j ==> !ResetsSchedule(log[m]))
    ensures var log := Run(cfg, s, envs).w.log;
            var k := log[i].attempt;
            k >= 1 && log[j].attempt == k + 1 && log[j].at - log[i].at >= UncappedMinimum(RETRY_INTERVAL, RETRY_MAX, k)
  {
    hide Run, AuthRetryBackoff, UncappedMinimum;
    LogGood(cfg, s, envs);
    var log := Run(cfg, s, envs).w.log;
    assert Allowed(log[..i], log[i]);
    assert Allowed(log[..j], log[j]);
    AttemptSince(log, i, j);
    AttemptsCountFromOne(log, i);
    Schedules(log[i].attempt, log[i].attempt);
  }

  lemma {:induction false} AttemptsCountFromOne(log: seq<Action>, i: nat)
    requires GoodLog(log) && i < |log| && log[i].Attempted?
    ensures log[i].attempt >= 1
  {
    assert Allowed(log[..i], log[i]);
  }

  // --- A due attempt is made ---

  predicate Appends(s: Sys, t: Sys) { s.w.log <= t.w.log }

  lemma RecoveryAppends(cfg: Config, s: Sys, site: Site)
    ensures Appends(s, TryOAuthRecovery(cfg, s, site).0)
  {}

  lemma SucceedAppends(s: Sys, source: Source, creds: Creds, site: Site)
    requires site.answer.Tokens?
    ensures Appends(s, Succeed(s, source, creds, site))
  {}

  lemma FailAppends(s: Sys, source: Source, creds: Creds, site: Site)
    requires !site.answer.Tokens?
    ensures Appends(s, NoteBypassFailure(Exchange(s, source, creds, site), site.answer, site.after))
  {}

  lemma BypassAppends(cfg: Config, s: Sys, env: Env)
    ensures Appends(s, BypassStage(cfg, s, env))
  {
    hide Succeed, Exchange, NoteBypassFailure;
    var site := env.bypass;
    var r := if s.a.rateLimitPaused
             then Log(s.(a := s.a.(rateLimitFailCount := Decay(s.a.rateLimitFailCount), rateLimitPaused := false)),
                      Expired(site.now))
             else s;
    var t := r.(w := External(r.w, site.before));
    if t.w.disk.Some? {
      if site.answer.Tokens? {
        SucceedAppends(t, Bypass, t.w.disk.value, site);
      } else {
        FailAppends(t, Bypass, t.w.disk.value, site);
      }
    }
  }

  lemma ThirdFailureAppends(cfg: Config, s: Sys, token: Token, env: Env)
    ensures Appends(s, ThirdFailure(cfg, s, token, env))
  {
    hide TryOAuthRecovery;
    RecoveryAppends(cfg, s, env.recovery);
  }

  // The fetch comes first, and nothing logged is lost.
  lemma FetchStageFirst(cfg: Config, s: Sys, env: Env)
    ensures Appends(FetchQuotas(s, Initially, env.fetch), FetchStage(cfg, s, env))
  {
    hide BypassStage, ThirdFailure;
    var t := FetchQuotas(s, Initially, env.fetch);
    BypassAppends(cfg, t, env);
    var r := Sys(t.a.(lastToken := NoToken), External(t.w, env.beforeRetry));
    var token := StoredAccess(r.w);
    var u := FetchQuotas(r.(a := r.a.(clientToken := token, lastToken := token)), OnRetry, env.retryFetch);
    ThirdFailureAppends(cfg, u.(a := u.a.(authFailCount := u.a.authFailCount + 1)), token, env);
  }

  // The poll is not cut short before the API path.
  predicate ReachesApi(cfg: Config, s: Sys, env: Env) {
    env.enabled && !cfg.apiPollingDisabled && StatuslineStage(cfg, s.a, env.statusline).1
  }

  // The state in which such a poll looks at the pause flag.
  function AfterReread(cfg: Config, s: Sys, env: Env): Sys {
    var t := s.(a := StatuslineStage(cfg, s.a, env.statusline).0);
    RereadStage(cfg, ProactiveStage(cfg, t, env.proactive), env.beforeReread)
  }

  // After any run, a poll that reaches the API path and is still paused has a
  // deadline, and if it is due the poll logs the next attempt.
  lemma DueAttemptHappens(cfg: Config, s: Sys, envs: seq<Env>, env: Env)
    requires Initial(s)
    requires var p := Run(cfg, s, envs);
             ReachesApi(cfg, p, env) && AfterReread(cfg, p, env).a.authPaused
    ensures var p := Run(cfg, s, envs);
            var t := AfterReread(cfg, p, env);
            && t.a.authRetryAt.Some?
            && (env.pausedAt >= t.a.authRetryAt.value ==>
                  t.w.log + [Attempted(t.a.authRetryCount + 1, env.pausedAt)] <= Poll(cfg, p, env).w.log)
  {
    hide Run;
    var p := Run(cfg, s, envs);
    RunGood(cfg, s, envs);
    DueAttempt(cfg, p, env);
  }

  lemma DueAttempt(cfg: Config, p: Sys, env: Env)
    requires Good(p) && ReachesApi(cfg, p, env) && AfterReread(cfg, p, env).a.authPaused
    ensures var t := AfterReread(cfg, p, env);
            && t.a.authRetryAt.Some?
            && (env.pausedAt >= t.a.authRetryAt.value ==>
                  t.w.log + [Attempted(t.a.authRetryCount + 1, env.pausedAt)] <= Poll(cfg, p, env).w.log)
  {
    hide ProactiveStage, RereadStage, Good, TryOAuthRecovery, FetchStage;
    var b := StatuslineStage(cfg, p.a, env.statusline).0;
    SameFields(p, b);
    ProactiveStageKeeps(cfg, p.(a := b), env.proactive);
    RereadStageKeeps(cfg, ProactiveStage(cfg, p.(a := b), env.proactive), env.beforeReread);
    var t := AfterReread(cfg, p, env);
    PausedHasDeadline(t);
    if env.pausedAt >= t.a.authRetryAt.value {
      var k := t.a.authRetryCount + 1;
      var v := Log(t.(a := t.a.(authRetryCount := k, authRetryAt := Some(env.pausedAt + AuthRetryBackoff(k)))),
                   Attempted(k, env.pausedAt));
      RecoveryAppends(cfg, v, env.paused);
      FetchStageFirst(cfg, TryPausedAuthRecovery(cfg, t, env.pausedAt, env.paused).0, env);
    }
  }

  lemma PausedHasDeadline(s: Sys)
    requires Good(s)
    ensures s.a.authPaused ==> s.a.authRetryAt.Some?
  {}

  // Statusline-only mode: no run fetches, refreshes, or touches a token at all.
  lemma {:induction false} DisabledApiIsSilent(cfg: Config, s: Sys, envs: seq<Env>)
    requires cfg.apiPollingDisabled
    ensures Run(cfg, s, envs).w == s.w
  {
    hide ApiPath;
    if envs != [] {
      DisabledApiIsSilent(cfg, s, envs[..|envs| - 1]);
    }
  }
}
