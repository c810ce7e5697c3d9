// Ownership of the managed agy process: what is launched here, what is killed,
// and when.
module AgyRunner {
  import opened Basics

  const MAX_FAILURES := 2
  const WARM_TTL := 300_000_000_000 // five minutes in nanoseconds

  // Processes are numbered in launch order. `killed` logs every kill, `started`
  // says that the watchdog has been started, `cancelled` that the root context has.
  datatype Runner = Runner(session: Option<nat>, lastUsed: int, failures: nat, started: bool, cancelled: bool,
                           launched: nat, killed: seq<nat>)

  const NEW_RUNNER := Runner(None, 0, 0, false, false, 0, [])

  // The watchdog runs from its start until the root context is cancelled, and is
  // never started twice.
  predicate Watched(r: Runner) { r.started && !r.cancelled }

  // What one Fetch meets: whether the session still answers, the binary is
  // found, the process starts and becomes ready in time, the quota summary comes
  // back with status 200, and it parses.
  datatype World = World(healthy: bool, found: bool, started: bool, ready: bool, served: bool, parsed: bool, now: int)

  function Torn(r: Runner): Runner {
    if r.session.None? then r else r.(session := None, killed := r.killed + [r.session.value])
  }

  function Failed(r: Runner): Runner {
    if r.failures + 1 >= MAX_FAILURES then Torn(r).(failures := 0) else r.(failures := r.failures + 1)
  }

  predicate Reuses(r: Runner, w: World) { r.session.Some? && w.healthy }

  predicate HasSession(r: Runner, w: World) { Reuses(r, w) || (w.found && w.started && w.ready) }

  function Ensured(r: Runner, w: World): Runner {
    if Reuses(r, w) then r
    else if !(w.found && w.started) then Torn(r)
    else
      var t, p := Torn(r).(launched := r.launched + 1), r.launched;
      if w.ready then t.(session := Some(p)) else t.(killed := t.killed + [p])
  }

  predicate Succeeds(r: Runner, w: World) { HasSession(r, w) && w.served && w.parsed }

  function Fetched(r: Runner, w: World): Runner {
    if Succeeds(r, w) then Ensured(r, w).(failures := 0, lastUsed := w.now, started := true)
    else Failed(Ensured(r, w))
  }

  function Ticked(r: Runner, now: int): Runner {
    if Watched(r) && now - r.lastUsed > WARM_TTL then Torn(r) else r
  }

  class AntigravityCLIRunner {
    var sess: Option<nat>
    var lastUsed: int
    var failures: nat
    var watchdogStarted: bool
    var rootCancelled: bool
    var launched: nat
    var killed: seq<nat>

    ghost function Value(): Runner
      reads this
    {
      Runner(sess, lastUsed, failures, watchdogStarted, rootCancelled, launched, killed)
    }

    constructor ()
      ensures Value() == NEW_RUNNER
    {
      sess, lastUsed, failures, launched, killed := None, 0, 0, 0, [];
      watchdogStarted, rootCancelled := false, false;
    }

    method KillSession(p: nat)
      modifies this
      ensures Value() == old(Value()).(killed := old(killed) + [p])
    {
      killed := killed + [p];
    }

    method TeardownLocked()
      modifies this
      ensures Value() == Torn(old(Value()))
    {
      if sess.None? {
        return;
      }
      KillSession(sess.value);
      sess := None;
    }

    method RecordFailureLocked()
      modifies this
      ensures Value() == Failed(old(Value()))
    {
      failures := failures + 1;
      if failures >= MAX_FAILURES {
        TeardownLocked();
        failures := 0;
      }
    }

    method EnsureLocked(w: World) returns (ok: bool)
      modifies this
      ensures Value() == Ensured(old(Value()), w) && ok == HasSession(old(Value()), w)
    {
      if sess.Some? && w.healthy {
        return true;
      }
      TeardownLocked();
      if !w.found {
        return false;
      }
      if !w.started {
        return false;
      }
      var p := launched;
      launched := launched + 1;
      if !w.ready {
        KillSession(p);
        return false;
      }
      sess := Some(p);
      return true;
    }

    method Fetch(w: World) returns (ok: bool)
      requires Owned(Value())
      modifies this
      ensures Value() == Fetched(old(Value()), w) && ok == Succeeds(old(Value()), w)
      ensures Owned(Value())
    {
      ghost var before := Value();
      FetchOwned(before, w);
      ok := EnsureLocked(w);
      if !ok {
        RecordFailureLocked();
        return false;
      }
      if !w.served {
        RecordFailureLocked();
        return false;
      }
      if !w.parsed {
        RecordFailureLocked();
        return false;
      }
      failures := 0;
      lastUsed := w.now;
      watchdogStarted := true;
      return true;
    }

    method WatchdogTick(now: int)
      requires Owned(Value())
      modifies this
      ensures Value() == Ticked(old(Value()), now) && Owned(Value())
    {
      TornOwned(Value());
      if watchdogStarted && !rootCancelled && sess.Some? && now - lastUsed > WARM_TTL {
        TeardownLocked();
      }
    }

    method Stop()
      requires Owned(Value())
      modifies this
      ensures Value() == Torn(old(Value())).(cancelled := true) && Owned(Value()) && sess == None
    {
      TornOwned(Value());
      TeardownLocked();
      rootCancelled := true;
    }
  }

  // --- Ownership ---

  // The launched processes are the killed ones, each killed once, and the
  // session, which is not killed.
  predicate Owned(r: Runner) {
    && (forall p :: 0 <= p < r.launched ==> (p in r.killed <==> r.session != Some(p)))
    && (forall i :: 0 <= i < |r.killed| ==> r.killed[i] < r.launched)
    && (forall i, j :: 0 <= i < j < |r.killed| ==> r.killed[i] != r.killed[j])
    && (r.session.Some? ==> r.session.value < r.launched)
    && r.launched == |r.killed| + (if r.session.Some? then 1 else 0)
    && r.failures < MAX_FAILURES
  }

  lemma TornOwned(r: Runner)
    requires Owned(r)
    ensures Owned(Torn(r))
  {
    if r.session.Some? {
      var p := r.session.value;
      assert p !in r.killed;
      assert (r.killed + [p])[|r.killed|] == p;
    }
  }

  lemma LaunchOwned(r: Runner, ready: bool)
    requires Owned(r) && r.session.None?
    ensures var t := r.(launched := r.launched + 1);
            Owned(if ready then t.(session := Some(r.launched)) else t.(killed := t.killed + [r.launched]))
  {
    assert r.launched !in r.killed;
    assert (r.killed + [r.launched])[|r.killed|] == r.launched;
  }

  lemma EnsuredOwned(r: Runner, w: World)
    requires Owned(r)
    ensures Owned(Ensured(r, w))
  {
    hide Owned;
    TornOwned(r);
    LaunchOwned(Torn(r), w.ready);
  }

  lemma FailedOwned(r: Runner)
    requires Owned(r)
    ensures Owned(Failed(r))
  {
    TornOwned(r);
    TornKeeps(r);
    CountOwned(Torn(r), 0);
    if r.failures + 1 < MAX_FAILURES {
      CountOwned(r, r.failures + 1);
    }
    hide Owned, Torn;
  }

  lemma CountOwned(r: Runner, failures: nat)
    requires Owned(r) && failures < MAX_FAILURES
    ensures Owned(r.(failures := failures))
  {}

  lemma ServedOwned(r: Runner, now: int)
    requires Owned(r)
    ensures Owned(r.(failures := 0, lastUsed := now, started := true))
  {}

  lemma FetchOwned(r: Runner, w: World)
    requires Owned(r)
    ensures Owned(Fetched(r, w))
  {
    hide Owned, Ensured, Failed, Succeeds;
    EnsuredOwned(r, w);
    FailedOwned(Ensured(r, w));
    ServedOwned(Ensured(r, w), w.now);
  }

  lemma TornKeeps(r: Runner)
    ensures Torn(r).failures == r.failures && Torn(r).launched == r.launched && Torn(r).session.None?
  {}

  // --- Whole runs ---

  // Stop tears the session down under the lock and cancels the root context after
  // releasing it; a fetch may come between.
  datatype Event = Fetch(w: World) | Tick(now: int) | Stop | RootCancel

  function Next(r: Runner, e: Event): Runner {
    match e
    case Fetch(w) => Fetched(r, w)
    case Tick(now) => Ticked(r, now)
    case Stop => Torn(r)
    case RootCancel => r.(cancelled := true)
  }

  function RunFrom(r: Runner, es: seq<Event>): Runner {
    if es == [] then r else Next(RunFrom(r, es[..|es| - 1]), es[|es| - 1])
  }

  function Run(es: seq<Event>): Runner { RunFrom(NEW_RUNNER, es) }

  lemma CancelOwned(r: Runner)
    requires Owned(r)
    ensures Owned(r.(cancelled := true))
  {}

  // Whenever the lock is free, launched minus killed is exactly the session.
  lemma {:induction false} RunOwned(es: seq<Event>)
    ensures Owned(Run(es))
  {
    if es != [] {
      hide Owned, Torn, Fetched;
      var r := Run(es[..|es| - 1]);
      RunOwned(es[..|es| - 1]);
      TornOwned(r);
      match es[|es| - 1] {
        case Fetch(w) => FetchOwned(r, w);
        case Tick(_) =>
        case Stop =>
        case RootCancel => CancelOwned(r);
      }
    } else {
    }
  }

  predicate FetchFailed(es: seq<Event>, i: nat)
    requires i < |es|
  {
    es[i].Fetch? && !Succeeds(Run(es[..i]), es[i].w)
  }

  predicate FetchSucceeded(es: seq<Event>, i: nat)
    requires i < |es|
  {
    es[i].Fetch? && Succeeds(Run(es[..i]), es[i].w)
  }

  // Failed fetches since the last successful one.
  function Streak(es: seq<Event>): nat {
    if es == [] then 0
    else
      var n := |es| - 1;
      if FetchSucceeded(es, n) then 0 else Streak(es[..n]) + if FetchFailed(es, n) then 1 else 0
  }

  // Every second failure in a row tears the session down, whatever the others
  // left behind.
  lemma {:induction false} StreakClears(es: seq<Event>)
    ensures Run(es).failures == Streak(es) % 2
    ensures es != [] && FetchFailed(es, |es| - 1) && Streak(es) % 2 == 0 ==> Run(es).session.None?
  {
    if es != [] {
      var n := |es| - 1;
      StreakClears(es[..n]);
      EnsureKeeps(Run(es[..n]), es[n]);
      hide Ensured, HasSession, Owned;
    }
  }

  lemma EnsureKeeps(r: Runner, e: Event)
    ensures e.Fetch? ==> Ensured(r, e.w).failures == r.failures
  {}

  // Two failing fetches in a row leave no process exactly when the first of them
  // began a streak at an even count, or the second could not get a session.
  lemma PairExactly(r: Runner, v: World, w: World)
    requires Owned(r) && !Succeeds(r, v) && !Succeeds(Fetched(r, v), w)
    ensures Fetched(Fetched(r, v), w).session.None? <==> r.failures == 0 || !HasSession(Fetched(r, v), w)
  {
    EnsureKeeps(r, Fetch(v));
    EnsureKeeps(Fetched(r, v), Fetch(w));
    EnsureSession(Fetched(r, v), w);
    hide Ensured, HasSession, Owned;
  }

  // Over all outcomes: every pair of failing fetches leaves no process exactly
  // when the failure count was even before it.
  lemma PairAlways(r: Runner)
    requires Owned(r)
    ensures r.failures == 0 <==>
            forall v, w :: !Succeeds(r, v) && !Succeeds(Fetched(r, v), w) ==>
              Fetched(Fetched(r, v), w).session.None?
  {
    hide Owned, Succeeds, Fetched;
    FailuresBound(r);
    if r.failures == 0 {
      forall v, w | !Succeeds(r, v) && !Succeeds(Fetched(r, v), w)
        ensures Fetched(Fetched(r, v), w).session.None?
      {
        PairExactly(r, v, w);
      }
    } else {
      var v := World(false, false, false, false, false, false, 0);
      var w := World(true, true, true, true, false, false, 0);
      MissedFetch(r, v);
      UnservedFetch(Fetched(r, v), w);
      assert !Succeeds(r, v) && !Succeeds(Fetched(r, v), w) && Fetched(Fetched(r, v), w).session.Some?;
    }
  }

  lemma FailuresBound(r: Runner)
    requires Owned(r)
    ensures r.failures == 0 || r.failures == 1
  {}

  // A fetch that cannot even find the binary, at an odd count.
  lemma MissedFetch(r: Runner, w: World)
    requires r.failures == 1 && !w.found && !w.healthy
    ensures !Succeeds(r, w) && Fetched(r, w).session.None? && Fetched(r, w).failures == 0
  {}

  lemma EnsureSession(r: Runner, w: World)
    ensures Ensured(r, w).session.Some? <==> HasSession(r, w)
  {}

  // A fetch whose session comes up but whose summary does not arrive: at an even
  // count the session stays, at an odd one it is torn down.
  lemma UnservedFetch(r: Runner, w: World)
    requires w.found && w.started && w.ready && w.healthy && !w.served && r.failures < MAX_FAILURES
    ensures !Succeeds(r, w)
    ensures r.session.None? && r.failures == 0 ==>
              Fetched(r, w) == r.(session := Some(r.launched), launched := r.launched + 1, failures := 1)
    ensures r.session.Some? && r.failures == 1 ==> Fetched(r, w) == Torn(r).(failures := 0)
  {}

  // Three fetches whose summary never arrives: the second clears the session,
  // the third starts a process that stays.
  lemma ThirdFailureLeavesProcess() returns (es: seq<Event>)
    ensures |es| == 3 && FetchFailed(es, 1) && FetchFailed(es, 2) && Run(es).session == Some(1)
  {
    var w := World(true, true, true, true, false, false, 0);
    hide Run, Fetched, Succeeds;
    es := [Fetch(w), Fetch(w), Fetch(w)];
    RunSnoc([], Fetch(w));
    RunSnoc([Fetch(w)], Fetch(w));
    RunSnoc([Fetch(w), Fetch(w)], Fetch(w));
    assert [] + [Fetch(w)] == [Fetch(w)] == es[..1];
    assert [Fetch(w)] + [Fetch(w)] == es[..2] && [Fetch(w), Fetch(w)] + [Fetch(w)] == es;
    UnservedFetch(Run([]), w);
    UnservedFetch(Run(es[..1]), w);
    UnservedFetch(Run(es[..2]), w);
  }

  lemma RunSnoc(es: seq<Event>, e: Event)
    ensures Run(es + [e]) == Next(Run(es), e) && Run([]) == NEW_RUNNER
  {
    var all := es + [e];
    assert all[..|all| - 1] == es;
  }

  // The idle watchdog runs exactly from the first successful fetch until the root
  // context is cancelled: a session that never served a fetch, or is launched
  // after Stop, is left to failures.
  lemma WatchedExactly(es: seq<Event>)
    ensures Run(es).started <==> SomeSucceeded(es)
    ensures Watched(Run(es)) <==> SomeSucceeded(es) && !SomeCancelled(es)
  {
    StartedAndCancelled(es);
    hide Run, SomeSucceeded, SomeCancelled;
  }

  predicate SomeSucceeded(es: seq<Event>) { exists i :: 0 <= i < |es| && FetchSucceeded(es, i) }

  predicate SomeCancelled(es: seq<Event>) { exists i :: 0 <= i < |es| && es[i].RootCancel? }

  lemma {:induction false} StartedAndCancelled(es: seq<Event>)
    ensures Run(es).started <==> SomeSucceeded(es)
    ensures Run(es).cancelled <==> SomeCancelled(es)
  {
    if es == [] {
    } else {
      hide Succeeds, Next, SomeSucceeded, SomeCancelled;
      var n := |es| - 1;
      StartedAndCancelled(es[..n]);
      SoFarStep(es);
      StepWatch(Run(es[..n]), es[n]);
    }
  }

  lemma SoFarStep(es: seq<Event>)
    requires es != []
    ensures var n := |es| - 1;
            && (SomeSucceeded(es) <==> SomeSucceeded(es[..n]) || FetchSucceeded(es, n))
            && (SomeCancelled(es) <==> SomeCancelled(es[..n]) || es[n].RootCancel?)
  {
    hide Run, Succeeds;
    var n := |es| - 1;
    forall i | 0 <= i < n
      ensures FetchSucceeded(es, i) == FetchSucceeded(es[..n], i) && es[i] == es[..n][i]
    {
      assert es[..n][..i] == es[..i];
    }
  }

  lemma StepWatch(r: Runner, e: Event)
    ensures Next(r, e).started <==> r.started || (e.Fetch? && Succeeds(r, e.w))
    ensures Next(r, e).cancelled <==> r.cancelled || e.RootCancel?
  {
    hide Succeeds, HasSession;
  }

  predicate Launches(e: Event) { e.Fetch? && e.w.found && e.w.started }

  // Once the session is torn down, by Stop in particular, a process is launched
  // again exactly when a later fetch gets one started; where starts under the
  // cancelled context are refused, none is, and no session ever lives again.
  lemma {:induction false} LaunchesAfterTeardown(r: Runner, es: seq<Event>)
    requires r.session.None?
    ensures RunFrom(r, es).launched >= r.launched
    ensures RunFrom(r, es).launched > r.launched <==> exists i :: 0 <= i < |es| && Launches(es[i])
    ensures RunFrom(r, es).launched == r.launched ==> RunFrom(r, es).session.None? && RunFrom(r, es).killed == r.killed
  {
    if es != [] {
      var n := |es| - 1;
      LaunchesAfterTeardown(r, es[..n]);
      assert forall i :: 0 <= i < n ==> es[..n][i] == es[i];
      StepLaunches(RunFrom(r, es[..n]), es[n]);
      hide Next;
    }
  }

  lemma StepLaunches(r: Runner, e: Event)
    ensures Next(r, e).launched >= r.launched
    ensures r.session.None? ==> (Next(r, e).launched > r.launched <==> Launches(e))
    ensures r.session.None? && !Launches(e) ==> Next(r, e).session.None? && Next(r, e).killed == r.killed
  {}

  // A warm session is reused: fetches that find it healthy and succeed launch
  // and kill nothing.
  lemma {:induction false} WarmSessionKept(r: Runner, es: seq<Event>)
    requires r.session.Some?
    requires forall i :: 0 <= i < |es| ==> es[i].Fetch? && es[i].w.healthy && es[i].w.served && es[i].w.parsed
    ensures var s := RunFrom(r, es); s.session == r.session && s.launched == r.launched && s.killed == r.killed
  {
    if es != [] {
      WarmSessionKept(r, es[..|es| - 1]);
    }
  }
}
