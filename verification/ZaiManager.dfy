// One polling agent per Z.ai account, through reloads and shutdown.
module ZaiManager {
  import opened Basics

  // A row of the account query; the key is None when the metadata does not parse.
  datatype Account = Account(id: int, key: Option<string>)

  predicate Keyed(a: Account) { a.key.Some? && a.key.value != "" }

  // A launched agent goroutine; agents are numbered in launch order, and an
  // instance is known by its number.
  datatype Agent = Agent(account: int, cancelled: bool, running: bool)

  datatype Context = Unset | Live | Done

  datatype Manager = Manager(instances: map<int, nat>, agents: seq<Agent>, ctx: Context)

  function KeyedIds(accounts: seq<Account>): set<int> {
    set a | a in accounts && Keyed(a) :: a.id
  }

  function Launched(m: Manager, id: int): Manager {
    m.(agents := m.agents + [Agent(id, m.ctx == Done, true)], instances := m.instances[id := |m.agents|])
  }

  // One turn of the loading loop: accounts without a readable key are skipped,
  // and so is one that is registered already.
  function Started(m: Manager, a: Account): Manager {
    if Keyed(a) && a.id !in m.instances then Launched(m, a.id) else m
  }

  function LoadedUpTo(m: Manager, accounts: seq<Account>): Manager {
    if accounts == [] then m
    else Started(LoadedUpTo(m, accounts[..|accounts| - 1]), accounts[|accounts| - 1])
  }

  function CancelAll(agents: seq<Agent>, ids: set<nat>): seq<Agent> {
    seq(|agents|, k requires 0 <= k < |agents| =>
      if k in ids then agents[k].(cancelled := true) else agents[k])
  }

  function CancelEvery(agents: seq<Agent>): seq<Agent> {
    seq(|agents|, k requires 0 <= k < |agents| => agents[k].(cancelled := true))
  }

  function StopAll(agents: seq<Agent>): seq<Agent> {
    seq(|agents|, k requires 0 <= k < |agents| => agents[k].(running := false))
  }

  function Current(instances: map<int, nat>): set<nat> {
    set id | id in instances :: instances[id]
  }

  // The map is emptied and every registered agent cancelled.
  function Cleared(m: Manager): Manager {
    m.(instances := map[], agents := CancelAll(m.agents, Current(m.instances)))
  }

  // Registered agents are launched under their own account, and an agent that
  // still runs uncancelled is registered.
  ghost predicate Sound(m: Manager) {
    && (forall id :: id in m.instances ==> m.instances[id] < |m.agents| && m.agents[m.instances[id]].account == id)
    && (forall k :: 0 <= k < |m.agents| && m.agents[k].running && !m.agents[k].cancelled ==>
          m.agents[k].account in m.instances && m.instances[m.agents[k].account] == k)
  }

  // Emptying the map leaves nothing uncancelled, so the wait group can drain.
  lemma ClearedDrains(m: Manager)
    requires Sound(m)
    ensures Sound(Cleared(m))
    ensures forall k :: 0 <= k < |m.agents| && m.agents[k].running ==> Cleared(m).agents[k].cancelled
  {}

  lemma RegisteredBounds(m: Manager)
    requires Sound(m)
    ensures forall k :: k in Current(m.instances) ==> k < |m.agents|
  {}

  lemma CancelNone(agents: seq<Agent>)
    ensures CancelAll(agents, {}) == agents
  {}

  lemma CancelOneMore(agents: seq<Agent>, ids: set<nat>, k: nat)
    requires k < |agents|
    ensures |CancelAll(agents, ids)| == |agents|
    ensures CancelAll(agents, ids)[k := CancelAll(agents, ids)[k].(cancelled := true)] == CancelAll(agents, ids + {k})
  {}

  class ZaiAgentManager {
    var instances: map<int, nat>
    var agents: seq<Agent>
    var ctx: Context

    ghost function Value(): Manager
      reads this
    {
      Manager(instances, agents, ctx)
    }

    constructor ()
      ensures Value() == Manager(map[], [], Unset)
    {
      instances, agents, ctx := map[], [], Unset;
    }

    method StartAgentForAccount(id: int)
      modifies this
      ensures Value() == if id in old(instances) then old(Value()) else Launched(old(Value()), id)
    {
      if id in instances {
        return;
      }
      instances := instances[id := |agents|];
      agents := agents + [Agent(id, ctx == Done, true)];
    }

    // The query result, or None when it fails.
    method LoadAndStartAccounts(query: Option<seq<Account>>)
      modifies this
      ensures Value() == if query.None? then old(Value()) else LoadedUpTo(old(Value()), query.value)
    {
      if query.None? {
        return;
      }
      var accounts := query.value;
      for n := 0 to |accounts|
        invariant Value() == LoadedUpTo(old(Value()), accounts[..n])
      {
        assert accounts[..n + 1][..n] == accounts[..n];
        if accounts[n].key.None? {
          continue;
        }
        if accounts[n].key.value == "" {
          continue;
        }
        StartAgentForAccount(accounts[n].id);
      }
      assert accounts[..|accounts|] == accounts;
    }

    // Ends when the wait group has drained: every goroutine has finished.
    method StopAllAgents()
      requires Sound(Value())
      modifies this
      ensures Value() == Cleared(old(Value())).(agents := StopAll(Cleared(old(Value())).agents))
    {
      hide CancelAll, StopAll, Sound;
      ghost var before := agents;
      RegisteredBounds(Value());
      CancelNone(before);
      var toCancel := Current(instances);
      ghost var done: set<nat> := {};
      instances := map[];
      while toCancel != {}
        invariant instances == map[] && ctx == old(ctx) && agents == CancelAll(before, done)
        invariant done + toCancel == Current(old(instances))
        invariant forall k :: k in toCancel ==> k < |before|
        decreases |toCancel|
      {
        var k :| k in toCancel;
        CancelOneMore(before, done, k);
        agents := agents[k := agents[k].(cancelled := true)];
        toCancel := toCancel - {k};
        done := done + {k};
      }
      assert done == Current(old(instances));
      agents := StopAll(agents);
    }

    // After a reload the registered accounts are the keyed ones of the query,
    // each with one new agent, and no earlier agent runs.
    method Reload(query: Option<seq<Account>>)
      requires Sound(Value())
      modifies this
      ensures Sound(Value()) && ctx == old(ctx)
      ensures ctx != Live ==> Value() == old(Value())
      ensures ctx == Live ==> instances.Keys == KeyedIds(if query.None? then [] else query.value)
      ensures |agents| >= |old(agents)|
      ensures ctx == Live ==> forall k :: 0 <= k < |old(agents)| ==>
                agents[k].account == old(agents)[k].account && !agents[k].running
      ensures ctx == Live ==> forall k :: |old(agents)| <= k < |agents| ==>
                agents[k] == Agent(agents[k].account, false, true)
                && agents[k].account in instances && instances[agents[k].account] == k
    {
      if ctx == Unset || ctx == Done {
        return;
      }
      StopAllAgents();
      ghost var stopped := Value();
      LoadedExactly(stopped, if query.None? then [] else query.value);
      LoadAndStartAccounts(query);
    }
  }

  // From manager m, a load has registered the accounts in ids with one fresh,
  // running agent each, besides those of m.
  ghost predicate LoadsOnto(m: Manager, n: Manager, ids: set<int>) {
    && Sound(n) && n.ctx == m.ctx
    && n.instances.Keys == m.instances.Keys + ids
    && m.agents <= n.agents
    && forall k :: |m.agents| <= k < |n.agents| ==>
         n.agents[k] == Agent(n.agents[k].account, false, true)
         && n.agents[k].account in n.instances && n.instances[n.agents[k].account] == k
  }

  lemma LaunchLoadsOnto(m: Manager, n: Manager, ids: set<int>, id: int)
    requires LoadsOnto(m, n, ids) && m.ctx == Live && id !in n.instances
    ensures LoadsOnto(m, Launched(n, id), ids + {id})
  {
    LaunchSound(n, id);
    hide Sound;
  }

  lemma StartLoadsOnto(m: Manager, n: Manager, ids: set<int>, a: Account)
    requires LoadsOnto(m, n, ids) && m.ctx == Live
    ensures LoadsOnto(m, Started(n, a), ids + if Keyed(a) then {a.id} else {})
  {
    hide Sound, Launched;
    if Keyed(a) && a.id !in n.instances {
      LaunchLoadsOnto(m, n, ids, a.id);
    } else {
      assert n.instances.Keys == m.instances.Keys + (ids + if Keyed(a) then {a.id} else {});
    }
  }

  lemma {:induction false} LoadedExactly(m: Manager, accounts: seq<Account>)
    requires Sound(m) && m.ctx == Live
    ensures LoadsOnto(m, LoadedUpTo(m, accounts), KeyedIds(accounts))
  {
    if accounts != [] {
      var last := |accounts| - 1;
      LoadedExactly(m, accounts[..last]);
      StartLoadsOnto(m, LoadedUpTo(m, accounts[..last]), KeyedIds(accounts[..last]), accounts[last]);
      KeyedIdsStep(accounts, last);
      hide KeyedIds, LoadsOnto;
      assert accounts[..|accounts|] == accounts;
    } else {
      assert KeyedIds(accounts) == {};
    }
  }

  lemma KeyedIdsStep(accounts: seq<Account>, n: nat)
    requires n < |accounts|
    ensures KeyedIds(accounts[..n + 1]) ==
            KeyedIds(accounts[..n]) + if Keyed(accounts[n]) then {accounts[n].id} else {}
    ensures Keyed(accounts[n]) ==> accounts[n].id in KeyedIds(accounts)
  {
    assert accounts[..n + 1] == accounts[..n] + [accounts[n]];
  }

  // --- Interleavings ---

  // Where the one reload (or the first load) in progress stands.
  datatype Stage = Idle | Waiting | Loading(next: nat)

  // `query` is what the latest load read, and `base` the number of agents
  // launched before it.
  datatype System = System(m: Manager, stage: Stage, query: seq<Account>, base: nat)

  // Exits may come at any time; a wait ends only when nothing runs; the context
  // may be cancelled in the middle of a load, and the shutdown that follows
  // empties the map without taking the reload lock.
  datatype Event =
    | FirstLoad(query: Option<seq<Account>>)
    | Reload
    | WaitOver(query: Option<seq<Account>>)
    | StartNext
    | Exit(k: nat)
    | Cancel
    | Shutdown

  const NEW_SYSTEM := System(Manager(map[], [], Unset), Idle, [], 0)

  function BeginLoad(s: System, query: Option<seq<Account>>): System {
    var t := s.(base := |s.m.agents|);
    if query.None? then t.(stage := Idle, query := []) else t.(stage := Loading(0), query := query.value)
  }

  predicate NoneRunning(agents: seq<Agent>) {
    forall k :: 0 <= k < |agents| ==> !agents[k].running
  }

  function Next(s: System, e: Event): System {
    match e
    case FirstLoad(query) =>
      if s.m.ctx == Unset then BeginLoad(s.(m := s.m.(ctx := Live)), query) else s
    case Reload =>
      if s.stage.Idle? && s.m.ctx == Live then s.(stage := Waiting, m := Cleared(s.m)) else s
    case WaitOver(query) =>
      if s.stage.Waiting? && NoneRunning(s.m.agents) then BeginLoad(s, query) else s
    case StartNext =>
      if !s.stage.Loading? then s
      else if s.stage.next < |s.query| then
        s.(m := Started(s.m, s.query[s.stage.next]), stage := Loading(s.stage.next + 1))
      else s.(stage := Idle)
    case Exit(k) =>
      if k < |s.m.agents| then
        s.(m := s.m.(agents := s.m.agents[k := s.m.agents[k].(running := false)]))
      else s
    case Cancel =>
      if s.m.ctx == Live then
        s.(m := s.m.(ctx := Done, agents := CancelEvery(s.m.agents)))
      else s
    case Shutdown => if s.m.ctx == Done then s.(m := Cleared(s.m)) else s
  }

  function Run(es: seq<Event>): System {
    if es == [] then NEW_SYSTEM else Next(Run(es[..|es| - 1]), es[|es| - 1])
  }

  // Account ids are the table's primary key.
  predicate DistinctIds(accounts: seq<Account>) {
    forall i, j :: 0 <= i < j < |accounts| ==> accounts[i].id != accounts[j].id
  }

  predicate Realistic(e: Event) {
    match e
    case FirstLoad(q) => q.Some? ==> DistinctIds(q.value)
    case WaitOver(q) => q.Some? ==> DistinctIds(q.value)
    case _ => true
  }

  ghost predicate OneEach(agents: seq<Agent>) {
    forall j, k :: 0 <= j < k < |agents| && agents[j].running && agents[k].running ==>
      agents[j].account != agents[k].account
  }

  predicate LoadAhead(s: System) {
    s.stage.Loading? ==>
      && s.stage.next <= |s.query|
      && forall k, i :: 0 <= k < |s.m.agents| && s.stage.next <= i < |s.query| && s.m.agents[k].running ==>
           s.m.agents[k].account != s.query[i].id
  }

  predicate WaitDrains(s: System) {
    s.stage.Waiting? ==> forall k :: 0 <= k < |s.m.agents| && s.m.agents[k].running ==> s.m.agents[k].cancelled
  }

  ghost predicate Registered(s: System) {
    s.m.ctx == Live && !s.stage.Waiting? ==>
      s.m.instances.Keys == KeyedIds(if s.stage.Loading? && s.stage.next <= |s.query|
                                     then s.query[..s.stage.next] else s.query)
  }

  // Outside a wait only agents of the latest load run, and none of them has been
  // cancelled while the context is live.
  predicate Fresh(s: System) {
    !s.stage.Waiting? ==>
      && s.base <= |s.m.agents|
      && (forall k :: 0 <= k < s.base ==> !s.m.agents[k].running)
      && (s.m.ctx == Live ==> forall k :: s.base <= k < |s.m.agents| ==> !s.m.agents[k].cancelled)
  }

  ghost predicate Safe(s: System) {
    && Sound(s.m) && OneEach(s.m.agents) && DistinctIds(s.query) && LoadAhead(s) && WaitDrains(s)
    && Registered(s) && Fresh(s)
    && (s.m.ctx == Unset ==> s == NEW_SYSTEM)
    && (s.stage.Waiting? && s.m.ctx == Live ==> s.m.instances == map[])
  }

  lemma LaunchSound(m: Manager, id: int)
    requires Sound(m) && id !in m.instances
    ensures Sound(Launched(m, id))
  {}

  lemma LaunchOneEach(agents: seq<Agent>, a: Agent)
    requires OneEach(agents)
    requires forall k :: 0 <= k < |agents| && agents[k].running ==> agents[k].account != a.account
    ensures OneEach(agents + [a])
  {}

  // A launch in the loading loop meets no running agent of its account and
  // leaves the accounts still to come free.
  lemma StartOneEach(s: System)
    requires OneEach(s.m.agents) && DistinctIds(s.query) && LoadAhead(s) && s.stage.Loading?
    requires s.stage.next < |s.query|
    ensures OneEach(Started(s.m, s.query[s.stage.next]).agents) && LoadAhead(Next(s, StartNext))
  {
    var a := s.query[s.stage.next];
    LaunchOneEach(s.m.agents, Agent(a.id, s.m.ctx == Done, true));
    hide OneEach, KeyedIds;
  }

  lemma StartSafe(s: System)
    requires Safe(s) && s.stage.Loading?
    ensures Safe(Next(s, StartNext))
  {
    hide KeyedIds, OneEach, DistinctIds, LoadAhead, Sound;
    if s.stage.next < |s.query| {
      var a := s.query[s.stage.next];
      StartOneEach(s);
      if Keyed(a) && a.id !in s.m.instances {
        LaunchSound(s.m, a.id);
      }
      StartRegistered(s);
    } else {
      IdleSafe(s);
    }
  }

  lemma StartRegistered(s: System)
    requires Registered(s) && s.stage.Loading? && s.stage.next < |s.query|
    ensures Registered(Next(s, StartNext))
  {
    KeyedIdsStep(s.query, s.stage.next);
    hide KeyedIds;
  }

  lemma IdleSafe(s: System)
    requires Safe(s) && s.stage.Loading? && s.stage.next >= |s.query|
    ensures Safe(s.(stage := Idle))
  {
    hide KeyedIds, OneEach, DistinctIds, Sound;
    assert s.stage.next == |s.query|;
    assert s.query[..s.stage.next] == s.query;
  }

  lemma BeginSafe(s: System, query: Option<seq<Account>>)
    requires Sound(s.m) && OneEach(s.m.agents) && NoneRunning(s.m.agents) && s.m.ctx != Unset
    requires s.m.ctx == Live ==> s.m.instances == map[]
    requires query.Some? ==> DistinctIds(query.value)
    ensures Safe(BeginLoad(s, query))
  {
    hide Sound, OneEach;
  }

  lemma ClearedOneEach(m: Manager)
    requires OneEach(m.agents)
    ensures OneEach(Cleared(m).agents)
  {}

  lemma ReloadSafe(s: System)
    requires Safe(s)
    ensures Safe(Next(s, Reload))
  {
    ClearedDrains(s.m);
    ClearedOneEach(s.m);
    hide Sound, OneEach, DistinctIds, KeyedIds, Cleared;
    assert Cleared(s.m).instances == map[] && |Cleared(s.m).agents| == |s.m.agents| && Cleared(s.m).ctx == s.m.ctx by {
      ClearedShape(s.m);
    }
  }

  lemma ClearedShape(m: Manager)
    ensures Cleared(m).instances == map[] && Cleared(m).ctx == m.ctx && |Cleared(m).agents| == |m.agents|
    ensures forall k :: 0 <= k < |m.agents| ==>
              Cleared(m).agents[k].running == m.agents[k].running
              && Cleared(m).agents[k].account == m.agents[k].account
              && (m.agents[k].cancelled ==> Cleared(m).agents[k].cancelled)
  {}

  lemma ShutdownSafe(s: System)
    requires Safe(s)
    ensures Safe(Next(s, Shutdown))
  {
    ClearedDrains(s.m);
    ClearedOneEach(s.m);
    ClearedShape(s.m);
    hide Sound, OneEach, DistinctIds, KeyedIds, Cleared;
  }

  lemma ExitKeeps(m: Manager, k: nat)
    requires Sound(m) && OneEach(m.agents) && k < |m.agents|
    ensures var n := m.(agents := m.agents[k := m.agents[k].(running := false)]); Sound(n) && OneEach(n.agents)
  {}

  lemma ExitSafe(s: System, k: nat)
    requires Safe(s)
    ensures Safe(Next(s, Exit(k)))
  {
    if k < |s.m.agents| {
      ExitKeeps(s.m, k);
    }
    hide Sound, OneEach, DistinctIds, KeyedIds;
  }

  lemma CancelKeeps(m: Manager)
    requires Sound(m) && OneEach(m.agents)
    ensures var n := m.(ctx := Done, agents := CancelEvery(m.agents)); Sound(n) && OneEach(n.agents)
  {}

  lemma CancelSafe(s: System)
    requires Safe(s)
    ensures Safe(Next(s, Cancel))
  {
    CancelKeeps(s.m);
    hide Sound, OneEach, DistinctIds, KeyedIds;
  }

  lemma FirstSafe(query: Option<seq<Account>>)
    requires query.Some? ==> DistinctIds(query.value)
    ensures Safe(Next(NEW_SYSTEM, FirstLoad(query)))
  {
    BeginSafe(NEW_SYSTEM.(m := NEW_SYSTEM.m.(ctx := Live)), query);
  }

  lemma StepSafe(s: System, e: Event)
    requires Safe(s) && Realistic(e)
    ensures Safe(Next(s, e))
  {
    hide Sound, OneEach, LoadAhead, WaitDrains, Registered, Cleared, Started;
    match e {
      case StartNext =>
        if s.stage.Loading? {
          StartSafe(s);
        }
      case Reload => ReloadSafe(s);
      case Shutdown => ShutdownSafe(s);
      case FirstLoad(query) =>
        if s.m.ctx == Unset {
          FirstSafe(query);
        }
      case WaitOver(query) =>
        if s.stage.Waiting? && NoneRunning(s.m.agents) {
          BeginSafe(s, query);
        }
      case Exit(k) => ExitSafe(s, k);
      case Cancel => CancelSafe(s);
    }
  }

  lemma {:induction false} RunSafe(es: seq<Event>)
    requires forall i :: 0 <= i < |es| ==> Realistic(es[i])
    ensures Safe(Run(es))
  {
    if es != [] {
      hide Safe, Next, Realistic;
      RunSafe(es[..|es| - 1]);
      StepSafe(Run(es[..|es| - 1]), es[|es| - 1]);
    } else {
    }
  }

  // At every reachable state an account has at most one running agent, and an
  // agent of an earlier load never runs beside one of the latest.
  lemma ReloadNeverOverlaps(es: seq<Event>, j: nat, k: nat)
    requires forall i :: 0 <= i < |es| ==> Realistic(es[i])
    requires j < k < |Run(es).m.agents| && Run(es).m.agents[j].running && Run(es).m.agents[k].running
    ensures Run(es).m.agents[j].account != Run(es).m.agents[k].account
    ensures !Run(es).stage.Waiting? ==> Run(es).base <= j
  {
    RunSafe(es);
    hide Run;
  }

  // Between reloads of a live manager the registered ids are exactly the
  // accounts of the latest query whose metadata parses and carries a key.
  lemma ReloadRegistersExactly(es: seq<Event>)
    requires forall i :: 0 <= i < |es| ==> Realistic(es[i])
    requires Run(es).stage.Idle? && Run(es).m.ctx == Live
    ensures Run(es).m.instances.Keys == KeyedIds(Run(es).query)
    ensures forall k :: 0 <= k < |Run(es).m.agents| && Run(es).m.agents[k].running ==>
              Run(es).m.agents[k].account in KeyedIds(Run(es).query)
  {
    RunSafe(es);
    hide Run, KeyedIds;
  }

  // A waiting reload is never stuck on an agent nobody told to stop.
  lemma WaitIsOnCancelled(es: seq<Event>, k: nat)
    requires forall i :: 0 <= i < |es| ==> Realistic(es[i])
    requires Run(es).stage.Waiting? && k < |Run(es).m.agents| && Run(es).m.agents[k].running
    ensures Run(es).m.agents[k].cancelled
  {
    RunSafe(es);
    hide Run;
  }
}
