// What it takes to pause polling, and what a paused agent may still do.
module AnthropicPause {
  import opened Basics
  import opened AnthropicSpec
  import opened AnthropicRuns

  // --- What the log says about auth failures ---

  // Actions after which the failure count starts over.
  predicate ClearsCount(x: Action) { x.Resumed? || x.PauseLifted? || x.PollOk? }

  predicate RetryFailed(x: Action) { x.Fetched? && x.stage.OnRetry? && x.outcome.FetchAuthError? }

  // Retries refused with 401 or 403 since the count was last cleared.
  function Refusals(log: seq<Action>): nat {
    if log == [] || ClearsCount(log[|log| - 1]) then 0
    else Refusals(log[..|log| - 1]) + if RetryFailed(log[|log| - 1]) then 1 else 0
  }

  // An invalid_grant answer since then.
  predicate GrantSince(log: seq<Action>) {
    log != [] && !ClearsCount(log[|log| - 1]) && (log[|log| - 1].GrantInvalid? || GrantSince(log[..|log| - 1]))
  }

  // The context was cancelled during a fetch after an accepted recovery.
  predicate CutShort(x: Action) { x.Fetched? && x.stage.OnRecovery? && x.outcome.Cancelled? }

  predicate NoneCutShort(log: seq<Action>) {
    forall i :: 0 <= i < |log| ==> !CutShort(log[i])
  }

  // The failure count is what the log says, and a pause has used it up.
  predicate Counted(s: Sys) {
    && (GrantSince(s.w.log) ==> s.a.authFailCount >= MAX_AUTH_FAILURES)
    && (!GrantSince(s.w.log) ==> s.a.authFailCount == Refusals(s.w.log))
    && (s.a.authPaused ==> s.a.authFailCount >= MAX_AUTH_FAILURES)
  }

  // A used-up count has paused the agent.
  predicate Prompt(s: Sys) {
    NoneCutShort(s.w.log) && s.a.authFailCount >= MAX_AUTH_FAILURES ==> s.a.authPaused
  }

  // --- Steps that leave the count alone ---

  predicate Quiet(x: Action) {
    !ClearsCount(x) && !RetryFailed(x) && !x.GrantInvalid? && !CutShort(x)
  }

  // t follows s by quiet actions and the same auth fields.
  predicate QuietAfter(s: Sys, t: Sys) {
    && s.w.log <= t.w.log && (forall i :: |s.w.log| <= i < |t.w.log| ==> Quiet(t.w.log[i]))
    && t.a.authFailCount == s.a.authFailCount && t.a.authPaused == s.a.authPaused
  }

  lemma {:induction false} QuietLog(a: seq<Action>, b: seq<Action>)
    requires a <= b && forall i :: |a| <= i < |b| ==> Quiet(b[i])
    ensures Refusals(b) == Refusals(a) && GrantSince(b) == GrantSince(a) && NoneCutShort(b) == NoneCutShort(a)
  {
    if |b| == |a| {
      assert a == b;
    } else {
      QuietLog(a, b[..|b| - 1]);
      assert Quiet(b[|b| - 1]);
    }
  }

  lemma QuietKeeps(s: Sys, t: Sys)
    requires QuietAfter(s, t)
    ensures Counted(s) ==> Counted(t)
    ensures Prompt(s) ==> Prompt(t)
  {
    QuietLog(s.w.log, t.w.log);
    hide Refusals, GrantSince, NoneCutShort;
  }

  lemma Snoc(log: seq<Action>, x: Action)
    ensures Refusals(log + [x]) ==
            if ClearsCount(x) then 0 else Refusals(log) + if RetryFailed(x) then 1 else 0
    ensures GrantSince(log + [x]) <==> !ClearsCount(x) && (x.GrantInvalid? || GrantSince(log))
    ensures NoneCutShort(log + [x]) <==> NoneCutShort(log) && !CutShort(x)
  {
    var l := log + [x];
    assert l[..|l| - 1] == log;
    assert NoneCutShort(l) ==> NoneCutShort(log) && !CutShort(x) by {
      if NoneCutShort(l) {
        assert forall i :: 0 <= i < |log| ==> l[i] == log[i];
        assert l[|log|] == x;
      }
    }
  }

  // The count starts over, whatever else the action is.
  lemma ClearKeeps(s: Sys, x: Action)
    requires ClearsCount(x) && s.a.authFailCount == 0 && !s.a.authPaused
    ensures Counted(Log(s, x)) && Prompt(Log(s, x))
  {
    Snoc(s.w.log, x);
  }

  lemma GrantKeeps(s: Sys, now: int)
    ensures var t := Log(s.(a := InvalidGrantPause(s.a, now)), GrantInvalid); Counted(t) && Prompt(t)
  {
    Snoc(s.w.log, GrantInvalid);
  }

  lemma NoteKeeps(s: Sys, answer: OAuth, now: int)
    requires Counted(s) && !answer.Tokens?
    ensures Counted(NoteFailure(s, answer, now)) && Counted(NoteBypassFailure(s, answer, now))
    ensures Prompt(s) ==> Prompt(NoteFailure(s, answer, now)) && Prompt(NoteBypassFailure(s, answer, now))
    ensures !NoteFailure(s, answer, now).a.authPaused ==>
              NoteFailure(s, answer, now).a.authFailCount == s.a.authFailCount
  {
    hide Counted, Prompt;
    if answer.InvalidGrant? {
      GrantKeeps(s, now);
    } else {
      QuietKeeps(s, NoteFailure(s, answer, now));
      QuietKeeps(s, NoteBypassFailure(s, answer, now));
    }
  }

  lemma ExchangeQuiet(s: Sys, source: Source, creds: Creds, site: Site)
    ensures QuietAfter(s, Exchange(s, source, creds, site))
    ensures site.answer.Tokens? ==> QuietAfter(s, Succeed(s, source, creds, site))
  {}

  lemma WorldQuiet(s: Sys, p: Option<NewPair>)
    ensures QuietAfter(s, s.(w := External(s.w, p)))
  {}

  // --- Stages ---

  lemma RecoveryCounts(cfg: Config, s: Sys, site: Site)
    requires Counted(s)
    ensures var (t, ok) := TryOAuthRecovery(cfg, s, site);
            && Counted(t) && (Prompt(s) ==> Prompt(t))
            && (ok ==> QuietAfter(s, t))
            && (!t.a.authPaused && !s.a.authPaused ==> t.a.authFailCount == s.a.authFailCount)
  {
    hide Counted, Prompt, Exchange, Succeed, NoteFailure, QuietAfter;
    WorldQuiet(s, site.before);
    var t := s.(w := External(s.w, site.before));
    QuietKeeps(s, t);
    if t.w.disk.Some? {
      var c := t.w.disk.value;
      ExchangeQuiet(t, Recovery, c, site);
      QuietKeeps(t, Exchange(t, Recovery, c, site));
      if site.answer.Tokens? {
        QuietThrough(s, t, Succeed(t, Recovery, c, site));
        QuietKeeps(t, Succeed(t, Recovery, c, site));
      } else {
        NoteKeeps(Exchange(t, Recovery, c, site), site.answer, site.after);
      }
    }
  }

  lemma QuietThrough(s: Sys, t: Sys, u: Sys)
    requires QuietAfter(s, t) && QuietAfter(t, u)
    ensures QuietAfter(s, u)
  {}

  lemma ProactiveCounts(cfg: Config, s: Sys, site: Site)
    requires Counted(s) && Prompt(s)
    ensures Counted(ProactiveStage(cfg, s, site)) && Prompt(ProactiveStage(cfg, s, site))
  {
    hide Counted, Prompt, Exchange, Succeed, NoteFailure;
    WorldQuiet(s, site.before);
    var t := s.(w := External(s.w, site.before));
    QuietKeeps(s, t);
    if t.w.disk.Some? {
      var c := t.w.disk.value;
      ExchangeQuiet(t, Proactive, c, site);
      QuietKeeps(t, Exchange(t, Proactive, c, site));
      if site.answer.Tokens? {
        QuietKeeps(t, Succeed(t, Proactive, c, site));
      } else {
        NoteKeeps(Exchange(t, Proactive, c, site), site.answer, site.after);
      }
    }
  }

  lemma InstallCounts(s: Sys, token: Token)
    requires Counted(s) && Prompt(s)
    ensures Counted(Install(s, token)) && Prompt(Install(s, token))
  {
    hide Counted, Prompt;
    var t := Log(s.(a := s.a.(clientToken := token, lastToken := token)), Installed(token));
    QuietKeeps(s, t);
    ClearKeeps(t.(a := ResumeAuth(t.a)), Resumed);
    var u := if t.a.authPaused && token != t.a.lastFailedToken then Log(t.(a := ResumeAuth(t.a)), Resumed) else t;
    QuietKeeps(u, u.(a := ClearRateLimit(u.a)));
  }

  lemma RereadCounts(cfg: Config, s: Sys, before: Option<NewPair>)
    requires Counted(s) && Prompt(s)
    ensures Counted(RereadStage(cfg, s, before)) && Prompt(RereadStage(cfg, s, before))
  {
    hide Counted, Prompt, Install;
    WorldQuiet(s, before);
    var t := s.(w := External(s.w, before));
    QuietKeeps(s, t);
    InstallCounts(t, StoredAccess(t.w));
    InstallCounts(t, t.a.lastToken);
  }

  // The state in which a due recovery attempt is made.
  function Attempting(s: Sys, now: int): Sys {
    var k := s.a.authRetryCount + 1;
    Log(s.(a := s.a.(authRetryCount := k, authRetryAt := Some(now + AuthRetryBackoff(k)))), Attempted(k, now))
  }

  lemma PausedRecoveryCounts(cfg: Config, s: Sys, now: int, site: Site)
    requires Counted(s) && Prompt(s)
    ensures var (t, ok) := TryPausedAuthRecovery(cfg, s, now, site);
            Counted(t) && Prompt(t) && (ok ==> !t.a.authPaused)
  {
    hide Counted, Prompt, TryOAuthRecovery, AuthRetryBackoff;
    if s.a.authRetryAt.Some? && now >= s.a.authRetryAt.value {
      QuietKeeps(s, Attempting(s, now));
      RecoveryCounts(cfg, Attempting(s, now), site);
      var u := TryOAuthRecovery(cfg, Attempting(s, now), site).0;
      ClearKeeps(u.(a := ResumeAuth(u.a).(authRetryAt := u.a.authRetryAt, authRetryCount := u.a.authRetryCount)),
                 PauseLifted);
    }
  }

  lemma SuccessCounts(s: Sys)
    requires !s.a.authPaused
    ensures Counted(Success(s)) && Prompt(Success(s))
  {
    ClearKeeps(s.(a := s.a.(authFailCount := 0, authRetryCount := 0, authRetryAt := None)), PollOk);
  }

  lemma BypassCounts(cfg: Config, s: Sys, env: Env)
    requires Counted(s) && Prompt(s) && !s.a.authPaused
    ensures Counted(BypassStage(cfg, s, env)) && Prompt(BypassStage(cfg, s, env))
  {
    hide Counted, Prompt, Exchange, Succeed, NoteBypassFailure, Success;
    var site := env.bypass;
    var r := if s.a.rateLimitPaused
             then Log(s.(a := s.a.(rateLimitFailCount := Decay(s.a.rateLimitFailCount), rateLimitPaused := false)),
                      Expired(site.now))
             else s;
    QuietKeeps(s, r);
    WorldQuiet(r, site.before);
    var t := r.(w := External(r.w, site.before));
    QuietKeeps(r, t);
    if t.w.disk.Some? {
      var c := t.w.disk.value;
      ExchangeQuiet(t, Bypass, c, site);
      QuietKeeps(t, Exchange(t, Bypass, c, site));
      if site.answer.Tokens? {
        var u := FetchQuotas(Succeed(t, Bypass, c, site), OnBypass, env.bypassFetch);
        QuietKeeps(t, u);
        SuccessCounts(u);
      } else {
        NoteKeeps(Exchange(t, Bypass, c, site), site.answer, site.after);
      }
    }
  }

  // A third refusal pauses unless a recovery refresh is accepted and its fetch
  // succeeds or is cut short.
  lemma ThirdFailureCounts(cfg: Config, s: Sys, token: Token, env: Env)
    requires Counted(s) && !s.a.authPaused && s.a.authFailCount >= MAX_AUTH_FAILURES
    ensures Counted(ThirdFailure(cfg, s, token, env)) && Prompt(ThirdFailure(cfg, s, token, env))
  {
    hide Counted, TryOAuthRecovery, Success, Refusals, GrantSince;
    RecoveryCounts(cfg, s, env.recovery);
    var (t, ok) := TryOAuthRecovery(cfg, s, env.recovery);
    var u := if ok then FetchQuotas(t, OnRecovery, env.recoveryFetch) else t;
    FetchedCounts(t, OnRecovery, env.recoveryFetch);
    if ok && env.recoveryFetch == FetchOk {
      SuccessCounts(u.(a := u.a.(authFailCount := 0, lastFailedToken := NoToken)));
    } else if ok && env.recoveryFetch == Cancelled {
      Snoc(t.w.log, Fetched(t.a.clientToken, OnRecovery, env.recoveryFetch));
    } else if !u.a.authPaused {
      PauseCounts(u, token, env.recovery.after);
    }
  }

  lemma FetchedCounts(s: Sys, stage: Stage, outcome: Fetch)
    requires Counted(s) && !stage.OnRetry?
    ensures Counted(FetchQuotas(s, stage, outcome))
  {
    Snoc(s.w.log, Fetched(s.a.clientToken, stage, outcome));
  }

  // Pausing an agent whose count is used up.
  lemma PauseCounts(s: Sys, token: Token, now: int)
    requires Counted(s) && s.a.authFailCount >= MAX_AUTH_FAILURES
    ensures Counted(s.(a := PauseAuth(s.a, token, now))) && Prompt(s.(a := PauseAuth(s.a, token, now)))
  {}

  lemma AuthErrorCounts(cfg: Config, s: Sys, env: Env)
    requires Counted(s) && Prompt(s) && !s.a.authPaused
    ensures Counted(AuthErrorStage(cfg, s, env)) && Prompt(AuthErrorStage(cfg, s, env))
  {
    hide Counted, Prompt, ThirdFailure, Success;
    var r := Sys(s.a.(lastToken := NoToken), External(s.w, env.beforeRetry));
    QuietKeeps(s, r);
    var token := StoredAccess(r.w);
    var b := r.(a := r.a.(clientToken := token, lastToken := token));
    var t := FetchQuotas(b, OnRetry, env.retryFetch);
    if env.retryFetch == FetchOk {
      SuccessCounts(t.(a := t.a.(authFailCount := 0)));
    } else if env.retryFetch == FetchAuthError {
      QuietKeeps(s, b);
      RefusalCounts(b);
      var u := t.(a := t.a.(authFailCount := t.a.authFailCount + 1));
      if u.a.authFailCount >= MAX_AUTH_FAILURES {
        ThirdFailureCounts(cfg, u, token, env);
      }
    } else {
      QuietKeeps(s, t);
    }
  }

  lemma RefusalCounts(s: Sys)
    requires Counted(s) && !s.a.authPaused
    ensures var t := FetchQuotas(s, OnRetry, FetchAuthError);
            var u := t.(a := t.a.(authFailCount := t.a.authFailCount + 1));
            Counted(u) && (u.a.authFailCount < MAX_AUTH_FAILURES ==> Prompt(u))
  {
    Snoc(s.w.log, Fetched(s.a.clientToken, OnRetry, FetchAuthError));
  }

  lemma FetchCounts(cfg: Config, s: Sys, env: Env)
    requires Counted(s) && Prompt(s) && !s.a.authPaused
    ensures Counted(FetchStage(cfg, s, env)) && Prompt(FetchStage(cfg, s, env))
  {
    hide Counted, Prompt, BypassStage, AuthErrorStage, Success;
    var t := FetchQuotas(s, Initially, env.fetch);
    QuietKeeps(s, t);
    SuccessCounts(t.(a := t.a.(rateLimitFailCount := Decay(t.a.rateLimitFailCount))));
    BypassCounts(cfg, t, env);
    AuthErrorCounts(cfg, t, env);
  }

  lemma ApiPathCounts(cfg: Config, s: Sys, env: Env)
    requires Counted(s) && Prompt(s)
    ensures Counted(ApiPath(cfg, s, env)) && Prompt(ApiPath(cfg, s, env))
  {
    hide Counted, Prompt, ProactiveStage, RereadStage, TryPausedAuthRecovery, FetchStage;
    var p := ProactiveStage(cfg, s, env.proactive);
    var t := RereadStage(cfg, p, env.beforeReread);
    ProactiveCounts(cfg, s, env.proactive);
    RereadCounts(cfg, p, env.beforeReread);
    PausedRecoveryCounts(cfg, t, env.pausedAt, env.paused);
    var u := if t.a.authPaused then TryPausedAuthRecovery(cfg, t, env.pausedAt, env.paused).0 else t;
    if !u.a.authPaused {
      FetchCounts(cfg, u, env);
    }
  }

  lemma {:induction false} RunCounts(cfg: Config, s: Sys, envs: seq<Env>)
    requires Initial(s) && s.a.authFailCount == 0
    ensures Counted(Run(cfg, s, envs)) && Prompt(Run(cfg, s, envs))
  {
    if envs == [] {
    } else {
      hide ApiPath, Counted, Prompt;
      var last := |envs| - 1;
      RunCounts(cfg, s, envs[..last]);
      var t := Run(cfg, s, envs[..last]);
      var a := StatuslineStage(cfg, t.a, envs[last].statusline).0;
      QuietKeeps(t, t.(a := a));
      ApiPathCounts(cfg, t.(a := a), envs[last]);
    }
  }

  // On every run polling is paused only if, since the failure count was last
  // cleared, a refresh was answered invalid_grant or three retries were refused;
  // and then it is paused, unless the context was cancelled right after an
  // accepted recovery.
  lemma PausedExactly(cfg: Config, s: Sys, envs: seq<Env>)
    requires Initial(s) && s.a.authFailCount == 0
    ensures var t := Run(cfg, s, envs);
            var used := GrantSince(t.w.log) || Refusals(t.w.log) >= MAX_AUTH_FAILURES;
            (t.a.authPaused ==> used) && (NoneCutShort(t.w.log) ==> (t.a.authPaused <==> used))
  {
    hide Run;
    RunCounts(cfg, s, envs);
  }

  // --- A paused poll ---

  predicate HasFetch(log: seq<Action>, from: nat) {
    exists i :: from <= i < |log| && log[i].Fetched?
  }

  predicate HasAccepted(log: seq<Action>, from: nat) {
    exists i :: from <= i < |log| && log[i].Refreshed? && log[i].accepted
  }

  // What one recovery attempt adds to the log: an accepted refresh when it
  // reports success, and otherwise neither a refresh that succeeded nor a fetch.
  lemma RecoveryLog(cfg: Config, s: Sys, site: Site)
    ensures var (t, ok) := TryOAuthRecovery(cfg, s, site);
            var n := |s.w.log|;
            && s.w.log <= t.w.log
            && (ok ==> n < |t.w.log| && t.w.log[n].Refreshed? && t.w.log[n].accepted)
            && (!ok ==> !HasAccepted(t.w.log, n) && !HasFetch(t.w.log, n))
  {
    hide Succeed, Exchange, NoteFailure, HasAccepted, HasFetch;
    NothingYet(s);
    var t := s.(w := External(s.w, site.before));
    NothingYet(t);
    if t.w.disk.Some? {
      if site.answer.Tokens? {
        AcceptedLog(t, t.w.disk.value, site);
      } else {
        RejectedLog(t, t.w.disk.value, site);
      }
    }
  }

  lemma NothingYet(s: Sys)
    ensures !HasAccepted(s.w.log, |s.w.log|) && !HasFetch(s.w.log, |s.w.log|)
  {}

  lemma AcceptedLog(s: Sys, creds: Creds, site: Site)
    requires site.answer.Tokens?
    ensures var t, n := Succeed(s, Recovery, creds, site), |s.w.log|;
            s.w.log <= t.w.log && n < |t.w.log| && t.w.log[n].Refreshed? && t.w.log[n].accepted
  {}

  lemma RejectedLog(s: Sys, creds: Creds, site: Site)
    requires !site.answer.Tokens?
    ensures var t, n := NoteFailure(Exchange(s, Recovery, creds, site), site.answer, site.after), |s.w.log|;
            s.w.log <= t.w.log && !HasAccepted(t.w.log, n) && !HasFetch(t.w.log, n)
  {}

  lemma FetchStageFetches(cfg: Config, s: Sys, env: Env)
    ensures var t := FetchStage(cfg, s, env);
            s.w.log <= t.w.log && |s.w.log| < |t.w.log| && t.w.log[|s.w.log|].Fetched?
  {
    FetchStageFirst(cfg, s, env);
    hide FetchStage;
    var t := FetchQuotas(s, Initially, env.fetch);
    assert t.w.log[|s.w.log|].Fetched?;
  }

  // A poll that finds the agent still paused asks the usage API if and only if a
  // refresh was accepted in that same poll.
  lemma PausedPollNeedsRefresh(cfg: Config, s: Sys, env: Env)
    requires ReachesApi(cfg, s, env) && AfterReread(cfg, s, env).a.authPaused
    ensures var from, log := |AfterReread(cfg, s, env).w.log|, Poll(cfg, s, env).w.log;
            HasFetch(log, from) <==> HasAccepted(log, from)
  {
    hide ProactiveStage, RereadStage, TryOAuthRecovery, FetchStage, AuthRetryBackoff;
    var t := AfterReread(cfg, s, env);
    var n := |t.w.log|;
    if t.a.authRetryAt.Some? && env.pausedAt >= t.a.authRetryAt.value {
      var v := Attempting(t, env.pausedAt);
      RecoveryLog(cfg, v, env.paused);
      var (u, ok) := TryOAuthRecovery(cfg, v, env.paused);
      var log := Poll(cfg, s, env).w.log;
      if ok {
        var resumed := TryPausedAuthRecovery(cfg, t, env.pausedAt, env.paused).0;
        assert resumed.w.log == u.w.log + [PauseLifted];
        FetchStageFetches(cfg, resumed, env);
        assert log[n + 1].Refreshed? && log[n + 1].accepted;
        assert log[|u.w.log| + 1].Fetched?;
      } else {
        assert log == u.w.log;
      }
    }
  }
}
