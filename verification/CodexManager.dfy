// One polling agent per Codex profile file: registration, restart, deletion.
module CodexManager {
  import opened Basics

  // A listed .json file. The profile is the name its contents carry, None when
  // they cannot be read; accountOk says whether the database knows or takes the
  // account.
  datatype Entry = Entry(stem: string, infoOk: bool, modTime: int, profile: Option<string>, accountOk: bool)

  // One reading of the profiles directory: the listing, and every name whose
  // file is not reported missing.
  datatype Directory = Directory(entries: seq<Entry>, files: set<string>)

  const DEFAULT := "default"

  // A goroutine has finished only after it has looked at the registry.
  datatype Phase = Running | Returned | Gone

  // Agents are numbered in launch order; an instance is known by its number.
  datatype Agent = Agent(name: string, cancelled: bool, phase: Phase)

  datatype Manager = Manager(instances: map<string, nat>, lastScan: map<string, int>, agents: seq<Agent>, done: bool)

  const NEW_MANAGER := Manager(map[], map[], [], false)

  function NameOf(e: Entry): string
    requires e.profile.Some?
  {
    if e.profile.value == "" then e.stem else e.profile.value
  }

  function Launched(m: Manager, name: string): Manager {
    m.(instances := m.instances[name := |m.agents|], agents := m.agents + [Agent(name, m.done, Running)])
  }

  predicate LoadFails(m: Manager, e: Entry) {
    e.profile.None? || (NameOf(e) !in m.instances && !e.accountOk)
  }

  function LoadProfile(m: Manager, e: Entry): Manager {
    if LoadFails(m, e) || NameOf(e) in m.instances then m else Launched(m, NameOf(e))
  }

  function Cancelled(agents: seq<Agent>, ids: set<nat>): seq<Agent> {
    seq(|agents|, k requires 0 <= k < |agents| =>
      if k in ids then agents[k].(cancelled := true) else agents[k])
  }

  // Registered numbers of a set of names.
  function Holders(instances: map<string, nat>, names: set<string>): set<nat> {
    set n | n in names && n in instances :: instances[n]
  }

  function StopAgents(m: Manager, names: set<string>): Manager {
    m.(instances := m.instances - names, agents := Cancelled(m.agents, Holders(m.instances, names)))
  }

  // The exit of goroutine k: it unregisters itself only while still registered.
  function Exited(m: Manager, k: nat): Manager
    requires k < |m.agents|
  {
    var name := m.agents[k].name;
    var current := name in m.instances && m.instances[name] == k;
    m.(instances := if current then m.instances - {name} else m.instances,
       agents := m.agents[k := m.agents[k].(phase := Gone)])
  }

  // --- The scan ---

  predicate Due(m: Manager, e: Entry) {
    e.infoOk && (e.stem in m.lastScan ==> e.modTime > m.lastScan[e.stem])
  }

  function ScanEntry(m: Manager, e: Entry): Manager {
    if !Due(m, e) then m
    else
      var stopped := if e.stem in m.lastScan then StopAgents(m, {e.stem}) else m;
      LoadProfile(stopped, e).(lastScan := m.lastScan[e.stem := e.modTime])
  }

  function ScanEntries(m: Manager, entries: seq<Entry>): Manager {
    if entries == [] then m
    else ScanEntry(ScanEntries(m, entries[..|entries| - 1]), entries[|entries| - 1])
  }

  // Registered names other than the default whose file is gone.
  function Missing(m: Manager, files: set<string>): set<string> {
    set n | n in m.instances && n != DEFAULT && n !in files
  }

  // Agents stopped and their files forgotten.
  function Dropped(m: Manager, names: set<string>): Manager {
    StopAgents(m, names).(lastScan := m.lastScan - names)
  }

  function DropMissing(m: Manager, files: set<string>): Manager {
    Dropped(m, Missing(m, files))
  }

  function Scan(m: Manager, d: Directory): Manager {
    DropMissing(ScanEntries(m, d.entries), d.files)
  }

  // The first load records only the files that loaded.
  function LoadEntry(m: Manager, e: Entry): Manager {
    if LoadFails(m, e) then m
    else
      var n := LoadProfile(m, e);
      if e.infoOk then n.(lastScan := n.lastScan[e.stem := e.modTime]) else n
  }

  function LoadEntries(m: Manager, entries: seq<Entry>): Manager {
    if entries == [] then m
    else LoadEntry(LoadEntries(m, entries[..|entries| - 1]), entries[|entries| - 1])
  }

  predicate InRange(m: Manager) {
    forall n :: n in m.instances ==> m.instances[n] < |m.agents|
  }

  lemma HoldersInRange(m: Manager, names: set<string>)
    requires InRange(m)
    ensures forall k :: k in Holders(m.instances, names) ==> k < |m.agents|
  {}

  lemma CancelledNone(agents: seq<Agent>)
    ensures Cancelled(agents, {}) == agents
  {}

  lemma CancelledOneMore(agents: seq<Agent>, ids: set<nat>, k: nat)
    requires k < |agents|
    ensures |Cancelled(agents, ids)| == |agents|
    ensures Cancelled(agents, ids)[k := Cancelled(agents, ids)[k].(cancelled := true)] == Cancelled(agents, ids + {k})
  {}

  // Stopping one more name of several.
  lemma StopOneMore(m: Manager, names: set<string>, n: string)
    requires InRange(m)
    ensures InRange(StopAgents(m, names))
    ensures n in m.instances && n !in names ==>
              StopAgents(StopAgents(m, names), {n}) == StopAgents(m, names + {n})
  {
    if n in m.instances && n !in names {
      var a, b := StopAgents(StopAgents(m, names), {n}), StopAgents(m, names + {n});
      assert a.instances == b.instances;
      assert Holders(StopAgents(m, names).instances, {n}) == {m.instances[n]};
      assert Holders(m.instances, names + {n}) == Holders(m.instances, names) + {m.instances[n]};
      assert a.agents == b.agents;
    }
  }

  lemma StopNone(m: Manager)
    ensures StopAgents(m, {}) == m
  {
    assert Holders(m.instances, {}) == {};
    assert Cancelled(m.agents, {}) == m.agents;
    assert m.instances - {} == m.instances;
  }

  lemma DropNone(m: Manager)
    ensures Dropped(m, {}) == m
  {
    StopNone(m);
    assert m.lastScan - {} == m.lastScan;
  }

  lemma DropOneMore(m: Manager, names: set<string>, n: string)
    requires InRange(m) && n in m.instances && n !in names
    ensures InRange(Dropped(m, names + {n}))
    ensures var a := Dropped(m, names);
            && StopAgents(a, {n}).lastScan == a.lastScan
            && StopAgents(a, {n}).(lastScan := a.lastScan - {n}) == Dropped(m, names + {n})
  {
    StopOneMore(m, names, n);
    StopInRange(m, names + {n});
    assert m.lastScan - names - {n} == m.lastScan - (names + {n});
    StopKeepsScan(m, names, m.lastScan - names, n);
    hide StopAgents;
  }

  lemma MissingExactly(m: Manager, files: set<string>)
    ensures forall n :: n in Missing(m, files) <==> n in m.instances && n != DEFAULT && n !in files
  {}

  lemma LeftOver<T>(a: set<T>, b: set<T>, n: T)
    requires n in b
    ensures n !in a - b && a - (b - {n}) == if n in a then a - b + {n} else a - b
  {}

  // Stopping neither reads nor writes the scan times.
  lemma StopKeepsScan(m: Manager, names: set<string>, last: map<string, int>, n: string)
    ensures StopAgents(m, names).lastScan == m.lastScan
    ensures var t := StopAgents(m, names);
            StopAgents(t.(lastScan := last), {n}) == StopAgents(t, {n}).(lastScan := last)
  {}

  lemma ScanEntryInRange(m: Manager, e: Entry)
    requires InRange(m)
    ensures InRange(ScanEntry(m, e))
  {
    hide StopAgents;
    StopInRange(m, {e.stem});
  }

  lemma StopInRange(m: Manager, names: set<string>)
    requires InRange(m)
    ensures InRange(StopAgents(m, names))
  {}

  class CodexAgentManager {
    var instances: map<string, nat>
    var lastScanProfiles: map<string, int>
    var agents: seq<Agent>
    var done: bool

    ghost function Value(): Manager
      reads this
    {
      Manager(instances, lastScanProfiles, agents, done)
    }

    constructor ()
      ensures Value() == NEW_MANAGER
    {
      instances, lastScanProfiles, agents, done := map[], map[], [], false;
    }

    method StartAgentForProfile(name: string, accountOk: bool) returns (ok: bool)
      modifies this
      ensures ok == accountOk
      ensures Value() == if accountOk then Launched(old(Value()), name) else old(Value())
    {
      if !accountOk {
        return false;
      }
      instances := instances[name := |agents|];
      agents := agents + [Agent(name, done, Running)];
      return true;
    }

    method LoadAndStartProfile(e: Entry) returns (ok: bool)
      modifies this
      ensures Value() == LoadProfile(old(Value()), e) && ok == !LoadFails(old(Value()), e)
    {
      if e.profile.None? {
        return false;
      }
      var name := e.profile.value;
      if name == "" {
        name := e.stem;
      }
      if name in instances {
        return true;
      }
      ok := StartAgentForProfile(name, e.accountOk);
    }

    // The listing is None when the directory is unset or cannot be read.
    method LoadAndStartProfiles(d: Option<Directory>)
      modifies this
      ensures Value() == if d.None? then old(Value()) else LoadEntries(old(Value()), d.value.entries)
    {
      hide LoadFails;
      if d.None? {
        return;
      }
      var entries := d.value.entries;
      for n := 0 to |entries|
        invariant Value() == LoadEntries(old(Value()), entries[..n])
      {
        assert entries[..n + 1][..n] == entries[..n];
        var ok := LoadAndStartProfile(entries[n]);
        if !ok {
          continue;
        }
        if entries[n].infoOk {
          lastScanProfiles := lastScanProfiles[entries[n].stem := entries[n].modTime];
        }
      }
      assert entries[..|entries|] == entries;
    }

    method StopAgent(name: string)
      requires InRange(Value())
      modifies this
      ensures InRange(Value()) && Value() == StopAgents(old(Value()), {name})
    {
      StopInRange(Value(), {name});
      if name !in instances {
        StopAbsent(Value(), name);
        return;
      }
      var k := instances[name];
      instances := instances - {name};
      agents := agents[k := agents[k].(cancelled := true)];
      assert Holders(old(instances), {name}) == {k};
      assert agents == Cancelled(old(agents), {k});
    }

    method RemoveInstanceIfCurrent(name: string, k: nat)
      modifies this`instances
      ensures instances == if name in old(instances) && old(instances)[name] == k
                           then old(instances) - {name} else old(instances)
    {
      if name in instances && instances[name] == k {
        instances := instances - {name};
      }
    }

    // The tail of an agent goroutine.
    method FinishAgent(k: nat)
      requires k < |agents|
      modifies this
      ensures Value() == Exited(old(Value()), k)
    {
      RemoveInstanceIfCurrent(agents[k].name, k);
      agents := agents[k := agents[k].(phase := Gone)];
    }

    method ScanForProfileChanges(d: Option<Directory>)
      requires InRange(Value())
      modifies this
      ensures InRange(Value())
      ensures Value() == if d.None? then old(Value()) else Scan(old(Value()), d.value)
    {
      hide ScanEntry, DropMissing;
      if d.None? {
        return;
      }
      var entries := d.value.entries;
      for n := 0 to |entries|
        invariant InRange(Value()) && Value() == ScanEntries(old(Value()), entries[..n])
      {
        assert entries[..n + 1][..n] == entries[..n];
        ScanOne(entries[n]);
      }
      assert entries[..|entries|] == entries;
      StopDeleted(d.value.files);
    }

    method ScanOne(e: Entry)
      requires InRange(Value())
      modifies this
      ensures InRange(Value()) && Value() == ScanEntry(old(Value()), e)
    {
      hide StopAgents, LoadProfile, LoadFails;
      ScanEntryInRange(Value(), e);
      if !e.infoOk {
        return;
      }
      if e.stem !in lastScanProfiles || e.modTime > lastScanProfiles[e.stem] {
        LoadKeepsScan(Value(), e);
        LoadKeepsScan(StopAgents(Value(), {e.stem}), e);
        StopKeepsScan(Value(), {e.stem}, lastScanProfiles, e.stem);
        if e.stem in lastScanProfiles {
          StopAgent(e.stem);
        }
        var _ := LoadAndStartProfile(e);
        lastScanProfiles := lastScanProfiles[e.stem := e.modTime];
      }
    }

    // Whatever order the names are visited in.
    method StopDeleted(files: set<string>)
      requires InRange(Value())
      modifies this
      ensures InRange(Value()) && Value() == DropMissing(old(Value()), files)
    {
      hide StopAgents, InRange, Dropped, Missing;
      ghost var before := Value();
      var names := set n | n in instances && n != DEFAULT;
      ghost var missing := Missing(before, files);
      DropNone(before);
      MissingExactly(before, files);
      assert missing - names == {};
      while names != {}
        invariant InRange(Value()) && Value() == Dropped(before, missing - names)
        invariant forall n :: n in names ==> n in before.instances && n != DEFAULT
        decreases |names|
      {
        var n :| n in names;
        ghost var stopped := missing - names;
        LeftOver(missing, names, n);
        names := names - {n};
        if n !in files {
          DropOneMore(before, stopped, n);
          StopAgent(n);
          lastScanProfiles := lastScanProfiles - {n};
        }
      }
      assert missing - names == missing;
    }

    method CancelAgents(handles: set<nat>)
      requires forall k :: k in handles ==> k < |agents|
      modifies this`agents
      ensures agents == Cancelled(old(agents), handles)
    {
      hide Cancelled;
      var ids := handles;
      CancelledNone(agents);
      assert handles - ids == {};
      while ids != {}
        invariant ids <= handles && agents == Cancelled(old(agents), handles - ids)
        decreases |ids|
      {
        var k :| k in ids;
        CancelledOneMore(old(agents), handles - ids, k);
        assert handles - (ids - {k}) == handles - ids + {k};
        agents := agents[k := agents[k].(cancelled := true)];
        ids := ids - {k};
      }
      assert handles - ids == handles;
    }

    method StopAllAgents()
      requires InRange(Value())
      modifies this
      ensures Value() == StopAgents(old(Value()), old(instances).Keys)
    {
      var handles := Holders(instances, instances.Keys);
      HoldersInRange(Value(), instances.Keys);
      instances := map[];
      CancelAgents(handles);
      assert old(instances) - old(instances).Keys == map[];
    }
  }

  lemma StopAbsent(m: Manager, n: string)
    requires n !in m.instances
    ensures StopAgents(m, {n}) == m
  {
    assert Holders(m.instances, {n}) == {};
    assert Cancelled(m.agents, {}) == m.agents;
    assert m.instances - {n} == m.instances;
  }

  lemma LoadKeepsScan(m: Manager, e: Entry)
    ensures LoadProfile(m, e).lastScan == m.lastScan
  {}
}
