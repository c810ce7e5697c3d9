// Starts, stops, cancellations and late exits in any order.
module CodexRuns {
  import opened CodexManager

  // The scanner takes two steps to stop an agent (unregister, then cancel) and
  // two to start one (look, then register); everything else may come between.
  datatype Scanner = Free | Stopping(k: nat) | Starting(name: string)

  datatype System = System(m: Manager, scanner: Scanner)

  datatype Event =
    | Look(name: string)
    | Register
    | Unregister(name: string)
    | CancelStopped
    | Return(k: nat)
    | Exit(k: nat)
    | ContextDone
    | StopAll

  function Everyone(agents: seq<Agent>): seq<Agent> {
    seq(|agents|, k requires 0 <= k < |agents| => agents[k].(cancelled := true))
  }

  // An event that cannot happen in a state leaves it alone.
  function Next(s: System, e: Event): System {
    var m := s.m;
    match e
    case Look(name) => if s.scanner.Free? && name !in m.instances then s.(scanner := Starting(name)) else s
    case Register =>
      if s.scanner.Starting? then System(Launched(m, s.scanner.name), Free) else s
    case Unregister(name) =>
      if s.scanner.Free? && name in m.instances then
        System(m.(instances := m.instances - {name}), Stopping(m.instances[name]))
      else s
    case CancelStopped =>
      if s.scanner.Stopping? && s.scanner.k < |m.agents| then
        System(m.(agents := m.agents[s.scanner.k := m.agents[s.scanner.k].(cancelled := true)]), Free)
      else s
    case Return(k) =>
      if k < |m.agents| && m.agents[k].phase.Running? then
        s.(m := m.(agents := m.agents[k := m.agents[k].(phase := Returned)]))
      else s
    case Exit(k) => if k < |m.agents| && m.agents[k].phase.Returned? then s.(m := Exited(m, k)) else s
    case ContextDone => s.(m := m.(done := true, agents := Everyone(m.agents)))
    case StopAll => if m.done then s.(m := m.(instances := map[])) else s
  }

  function RunFrom(s: System, es: seq<Event>): System {
    if es == [] then s else Next(RunFrom(s, es[..|es| - 1]), es[|es| - 1])
  }

  function Run(es: seq<Event>): System { RunFrom(System(NEW_MANAGER, Free), es) }

  predicate Alive(a: Agent) { !a.phase.Gone? && !a.cancelled }

  // Registered agents have not exited and carry their name.
  ghost predicate Registry(m: Manager) {
    forall n :: n in m.instances ==>
      m.instances[n] < |m.agents| && m.agents[m.instances[n]].name == n && !m.agents[m.instances[n]].phase.Gone?
  }

  // An alive agent is registered, unless the scanner is about to cancel it.
  ghost predicate Accounted(s: System) {
    forall k :: 0 <= k < |s.m.agents| && Alive(s.m.agents[k]) ==>
      (s.m.agents[k].name in s.m.instances && s.m.instances[s.m.agents[k].name] == k) || s.scanner == Stopping(k)
  }

  // The name the scanner is working on is not registered.
  predicate Vacant(s: System) {
    && (s.scanner.Stopping? ==>
          s.scanner.k < |s.m.agents| && s.m.agents[s.scanner.k].name !in s.m.instances)
    && (s.scanner.Starting? ==> s.scanner.name !in s.m.instances)
  }

  predicate AllCancelled(m: Manager) {
    m.done ==> forall k :: 0 <= k < |m.agents| ==> m.agents[k].cancelled
  }

  ghost predicate Sound(s: System) {
    Registry(s.m) && Accounted(s) && Vacant(s) && AllCancelled(s.m)
  }

  lemma RegisterSound(s: System)
    requires Sound(s)
    ensures Sound(Next(s, Register))
  {}

  lemma UnregisterSound(s: System, name: string)
    requires Sound(s)
    ensures Sound(Next(s, Unregister(name)))
  {}

  lemma CancelSound(s: System)
    requires Sound(s)
    ensures Sound(Next(s, CancelStopped))
  {}

  lemma ReturnSound(s: System, k: nat)
    requires Sound(s)
    ensures Sound(Next(s, Return(k)))
  {}

  lemma ExitSound(s: System, k: nat)
    requires Sound(s)
    ensures Sound(Next(s, Exit(k)))
  {}

  lemma DoneSound(s: System, e: Event)
    requires Sound(s) && (e.ContextDone? || e.StopAll?)
    ensures Sound(Next(s, e))
  {}

  lemma StepSound(s: System, e: Event)
    requires Sound(s)
    ensures Sound(Next(s, e))
  {
    match e {
      case Look(_) =>
      case Register => RegisterSound(s);
      case Unregister(name) => UnregisterSound(s, name);
      case CancelStopped => CancelSound(s);
      case Return(k) => ReturnSound(s, k);
      case Exit(k) => ExitSound(s, k);
      case ContextDone => DoneSound(s, e);
      case StopAll => DoneSound(s, e);
    }
    hide Registry, Accounted, AllCancelled;
  }

  lemma {:induction false} RunSound(s: System, es: seq<Event>)
    requires Sound(s)
    ensures Sound(RunFrom(s, es))
  {
    if es != [] {
      hide Sound, Next;
      RunSound(s, es[..|es| - 1]);
      StepSound(RunFrom(s, es[..|es| - 1]), es[|es| - 1]);
    } else {
    }
  }

  // In every interleaving a profile name has at most one agent that has neither
  // been cancelled nor exited.
  lemma OneAlivePerName(es: seq<Event>, j: nat, k: nat)
    requires j < |Run(es).m.agents| && k < |Run(es).m.agents| && j != k
    requires Alive(Run(es).m.agents[j]) && Alive(Run(es).m.agents[k])
    ensures Run(es).m.agents[j].name != Run(es).m.agents[k].name
  {
    RunSound(System(NEW_MANAGER, Free), es);
    hide Run, Registry;
  }

  // That agent is the registered one whenever the scanner is not halfway through
  // stopping it.
  lemma AliveIsRegistered(es: seq<Event>, k: nat)
    requires k < |Run(es).m.agents| && Alive(Run(es).m.agents[k]) && !Run(es).scanner.Stopping?
    ensures Run(es).m.agents[k].name in Run(es).m.instances
    ensures Run(es).m.instances[Run(es).m.agents[k].name] == k
  {
    RunSound(System(NEW_MANAGER, Free), es);
    hide Run;
  }

  predicate Spares(e: Event, name: string, k: nat) {
    e != Unregister(name) && e != Exit(k) && e != StopAll
  }

  lemma StepKeepsRegistered(s: System, e: Event, name: string)
    requires Sound(s) && name in s.m.instances && Spares(e, name, s.m.instances[name])
    ensures name in Next(s, e).m.instances && Next(s, e).m.instances[name] == s.m.instances[name]
  {
    hide Accounted, AllCancelled;
  }

  // From any reachable state a registered agent stays registered until it is
  // stopped by name, everything is stopped, or it exits itself: no other exit,
  // start or stop, however late, touches its entry.
  lemma {:induction false} StaysRegistered(before: seq<Event>, es: seq<Event>, name: string)
    requires name in Run(before).m.instances
    requires forall i :: 0 <= i < |es| ==> Spares(es[i], name, Run(before).m.instances[name])
    ensures var s := RunFrom(Run(before), es);
            name in s.m.instances && s.m.instances[name] == Run(before).m.instances[name]
  {
    if es != [] {
      hide Run, Sound, Next;
      var n := |es| - 1;
      StaysRegistered(before, es[..n], name);
      RunSound(System(NEW_MANAGER, Free), before) by {
        Unrolled(before);
      }
      Unrolled(before);
      RunSound(Run(before), es[..n]);
      StepKeepsRegistered(RunFrom(Run(before), es[..n]), es[n], name);
    } else {
    }
  }

  lemma Unrolled(es: seq<Event>)
    ensures Run(es) == RunFrom(System(NEW_MANAGER, Free), es) && Sound(System(NEW_MANAGER, Free))
  {}

  // The manager's operations are these steps taken in a row.
  lemma OperationsAreSteps(m: Manager, name: string)
    requires InRange(m)
    ensures Next(Next(System(m, Free), Unregister(name)), CancelStopped) == System(StopAgents(m, {name}), Free)
    ensures name !in m.instances ==>
              Next(Next(System(m, Free), Look(name)), Register) == System(Launched(m, name), Free)
  {
    if name in m.instances {
      assert Holders(m.instances, {name}) == {m.instances[name]};
      assert Cancelled(m.agents, {m.instances[name]}) ==
             m.agents[m.instances[name] := m.agents[m.instances[name]].(cancelled := true)];
    } else {
      StopAbsent(m, name);
    }
  }
}
