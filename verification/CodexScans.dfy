// What a scan of the profiles directory changes, and what it does not.
module CodexScans {
  import opened Basics
  import opened CodexManager

  predicate DistinctStems(entries: seq<Entry>) {
    forall i, j :: 0 <= i < j < |entries| ==> entries[i].stem != entries[j].stem
  }

  // A directory that did not change while it was read: a listed file exists.
  predicate Consistent(d: Directory) {
    DistinctStems(d.entries) && forall i :: 0 <= i < |d.entries| ==> d.entries[i].stem in d.files
  }

  lemma ScanEntryTimes(m: Manager, e: Entry)
    ensures forall s :: s != e.stem ==> (s in ScanEntry(m, e).lastScan <==> s in m.lastScan)
    ensures forall s :: s != e.stem && s in m.lastScan ==> ScanEntry(m, e).lastScan[s] == m.lastScan[s]
    ensures !Due(ScanEntry(m, e), e)
    ensures Due(m, e) ==> e.stem in ScanEntry(m, e).lastScan && ScanEntry(m, e).lastScan[e.stem] == e.modTime
    ensures !Due(m, e) ==> ScanEntry(m, e) == m
  {
    hide StopAgents;
    LoadKeepsScan(m, e);
    LoadKeepsScan(StopAgents(m, {e.stem}), e);
    hide LoadProfile;
  }

  // Scan times of files not listed are untouched, and no listed file stays due.
  lemma {:induction false} EntriesTimes(m: Manager, entries: seq<Entry>)
    requires DistinctStems(entries)
    ensures var n := ScanEntries(m, entries);
            && (forall i :: 0 <= i < |entries| ==> !Due(n, entries[i]))
            && (forall s :: (forall i :: 0 <= i < |entries| ==> entries[i].stem != s) ==>
                  (s in n.lastScan <==> s in m.lastScan) && (s in m.lastScan ==> n.lastScan[s] == m.lastScan[s]))
  {
    if entries != [] {
      var k := |entries| - 1;
      EntriesTimes(m, entries[..k]);
      ScanEntryTimes(ScanEntries(m, entries[..k]), entries[k]);
      hide ScanEntry;
    } else {
    }
  }

  lemma {:induction false} QuietEntries(m: Manager, entries: seq<Entry>)
    requires forall i :: 0 <= i < |entries| ==> !Due(m, entries[i])
    ensures ScanEntries(m, entries) == m
  {
    if entries != [] {
      QuietEntries(m, entries[..|entries| - 1]);
    } else {
    }
  }

  // A due file is recorded with a new time, so the entries loop changes its time.
  lemma {:induction false} DueRecorded(m: Manager, entries: seq<Entry>, i: nat)
    requires DistinctStems(entries) && i < |entries| && Due(m, entries[i])
    ensures var n := ScanEntries(m, entries);
            entries[i].stem in n.lastScan && n.lastScan[entries[i].stem] == entries[i].modTime
  {
    var k := |entries| - 1;
    ScanEntryTimes(ScanEntries(m, entries[..k]), entries[k]);
    hide ScanEntry;
    if i < k {
      DueRecorded(m, entries[..k], i);
    } else {
      EntriesTimes(m, entries[..k]);
    }
  }

  lemma DropKeepsTimes(m: Manager, files: set<string>, s: string)
    requires s in files && s in m.lastScan
    ensures s in DropMissing(m, files).lastScan && DropMissing(m, files).lastScan[s] == m.lastScan[s]
  {}

  // After any scan every registered name is the default or has a file.
  lemma ScanLeavesFilesOnly(m: Manager, d: Directory, n: string)
    ensures n in Scan(m, d).instances ==> n == DEFAULT || n in d.files
    ensures n in Scan(m, d).instances <==>
              n in ScanEntries(m, d.entries).instances && (n == DEFAULT || n in d.files)
  {
    hide ScanEntries, Cancelled, Holders;
  }

  lemma DropNothing(m: Manager, files: set<string>)
    requires Missing(m, files) == {}
    ensures DropMissing(m, files) == m
  {
    DropNone(m);
  }

  // A scan changes something exactly when a listed file is new or newer than
  // recorded, or a registered profile has lost its file.
  lemma ScanIdleExactly(m: Manager, d: Directory)
    requires Consistent(d)
    ensures Scan(m, d) == m <==>
            (forall i :: 0 <= i < |d.entries| ==> !Due(m, d.entries[i])) && Missing(m, d.files) == {}
  {
    if forall i :: 0 <= i < |d.entries| ==> !Due(m, d.entries[i]) {
      QuietEntries(m, d.entries);
      if Missing(m, d.files) == {} {
        DropNothing(m, d.files);
      } else {
        var n :| n in Missing(m, d.files);
        ScanLeavesFilesOnly(m, d, n);
      }
    } else {
      var i :| 0 <= i < |d.entries| && Due(m, d.entries[i]);
      DueRecorded(m, d.entries, i);
      hide ScanEntries, DropMissing;
      DropKeepsTimes(ScanEntries(m, d.entries), d.files, d.entries[i].stem);
    }
  }

  // Agents may exit between two scans, in any number and order.
  function ExitedAll(m: Manager, ks: seq<nat>): Manager {
    if ks == [] then m
    else
      var n := ExitedAll(m, ks[..|ks| - 1]);
      if ks[|ks| - 1] < |n.agents| then Exited(n, ks[|ks| - 1]) else n
  }

  lemma {:induction false} ExitsOnlyUnregister(m: Manager, ks: seq<nat>)
    ensures ExitedAll(m, ks).lastScan == m.lastScan && ExitedAll(m, ks).instances.Keys <= m.instances.Keys
  {
    if ks != [] {
      ExitsOnlyUnregister(m, ks[..|ks| - 1]);
    } else {
    }
  }

  // A second scan over an unchanged directory stops and starts nothing, whatever
  // exited in between; an agent that exited on its own is not started again.
  lemma SecondScanIdle(m: Manager, d: Directory, ks: seq<nat>)
    requires Consistent(d)
    ensures var n := ExitedAll(Scan(m, d), ks); Scan(n, d) == n
  {
    var first := Scan(m, d);
    var n := ExitedAll(first, ks);
    ExitsOnlyUnregister(first, ks);
    hide ExitedAll;
    forall i | 0 <= i < |d.entries|
      ensures !Due(n, d.entries[i])
    {
      StillQuiet(m, d, i);
      SameTimes(first, n, d.entries[i]);
    }
    assert Missing(n, d.files) == {} by {
      forall x | x in n.instances
        ensures x == DEFAULT || x in d.files
      {
        ScanLeavesFilesOnly(m, d, x);
      }
    }
    hide Scan, Missing, Due;
    ScanIdleExactly(n, d);
  }

  lemma SameTimes(m: Manager, n: Manager, e: Entry)
    requires m.lastScan == n.lastScan
    ensures Due(m, e) == Due(n, e)
  {}

  lemma StillQuiet(m: Manager, d: Directory, i: nat)
    requires Consistent(d) && i < |d.entries|
    ensures !Due(Scan(m, d), d.entries[i])
  {
    EntriesTimes(m, d.entries);
    hide ScanEntries, DropMissing;
    var n, e := ScanEntries(m, d.entries), d.entries[i];
    if e.stem in n.lastScan {
      DropKeepsTimes(n, d.files, e.stem);
    }
  }

  // --- Which profiles run ---

  predicate Loads(e: Entry, name: string) {
    e.profile.Some? && NameOf(e) == name && e.accountOk
  }

  // No other listed file stops or starts an agent of that name.
  predicate Alone(entries: seq<Entry>, i: nat, name: string)
    requires i < |entries|
  {
    forall j :: 0 <= j < |entries| && j != i ==>
      entries[j].stem != name && (entries[j].profile.Some? ==> NameOf(entries[j]) != name)
  }

  // Agents are only added, and stay cancelled once they are.
  predicate Grows(m: Manager, n: Manager) {
    && |m.agents| <= |n.agents|
    && forall k :: 0 <= k < |m.agents| && m.agents[k].cancelled ==> n.agents[k].cancelled
  }

  predicate SameEntry(m: Manager, n: Manager, name: string) {
    && (name in n.instances <==> name in m.instances)
    && (name in m.instances ==> n.instances[name] == m.instances[name])
  }

  lemma StopGrows(m: Manager, names: set<string>)
    ensures Grows(m, StopAgents(m, names)) && |StopAgents(m, names).agents| == |m.agents|
  {}

  lemma ScanEntryOther(m: Manager, e: Entry, name: string)
    requires e.stem != name && (e.profile.Some? ==> NameOf(e) != name)
    ensures SameEntry(m, ScanEntry(m, e), name) && Grows(m, ScanEntry(m, e))
  {
    StopGrows(m, {e.stem});
    hide Cancelled, Holders;
  }

  lemma ScanEntryLoads(m: Manager, e: Entry, name: string)
    requires Due(m, e) && Loads(e, name)
    ensures name in ScanEntry(m, e).instances
  {
    hide Cancelled, Holders;
  }

  lemma {:induction false} EntriesLoad(m: Manager, entries: seq<Entry>, i: nat, name: string)
    requires DistinctStems(entries) && i < |entries| && Due(m, entries[i]) && Loads(entries[i], name)
    requires Alone(entries, i, name)
    ensures name in ScanEntries(m, entries).instances
  {
    var k := |entries| - 1;
    if i < k {
      EntriesLoad(m, entries[..k], i, name);
      ScanEntryOther(ScanEntries(m, entries[..k]), entries[k], name);
    } else {
      hide ScanEntry;
      EntriesTimes(m, entries[..k]);
      ScanEntryLoads(ScanEntries(m, entries[..k]), entries[k], name);
    }
  }

  // A new or modified file that loads as a profile has a registered agent after
  // the scan exactly when that profile is the default or names an existing file.
  lemma RunsAfterScanExactly(m: Manager, d: Directory, i: nat, name: string)
    requires Consistent(d) && i < |d.entries| && Due(m, d.entries[i]) && Loads(d.entries[i], name)
    requires Alone(d.entries, i, name)
    ensures name in Scan(m, d).instances <==> name == DEFAULT || name in d.files
  {
    EntriesLoad(m, d.entries, i, name);
    ScanLeavesFilesOnly(m, d, name);
  }

  // --- Modified profiles ---

  // What became of the agent running under a name when its due file was scanned.
  predicate Outcome(m: Manager, n: Manager, e: Entry, name: string)
    requires name in m.instances && m.instances[name] < |m.agents|
  {
    && Grows(m, n)
    && if name == e.stem then
         && n.agents[m.instances[name]].cancelled
         && if Loads(e, name) then name in n.instances && n.instances[name] >= |m.agents| else name !in n.instances
       else name in n.instances && n.instances[name] == m.instances[name]
  }

  lemma EntryOutcome(m: Manager, e: Entry, name: string)
    requires InRange(m) && name in m.instances && Due(m, e) && e.stem in m.lastScan
    requires name == e.stem || (e.profile.Some? && NameOf(e) == name)
    ensures Outcome(m, ScanEntry(m, e), e, name)
  {
    StopGrows(m, {e.stem});
    StoppedCancelled(m, e.stem);
    hide Cancelled, Holders;
  }

  lemma StoppedCancelled(m: Manager, name: string)
    requires InRange(m)
    ensures name in m.instances ==> StopAgents(m, {name}).agents[m.instances[name]].cancelled
  {}

  lemma EntriesOther(m: Manager, entries: seq<Entry>, name: string)
    requires InRange(m)
    requires forall j :: 0 <= j < |entries| ==>
               entries[j].stem != name && (entries[j].profile.Some? ==> NameOf(entries[j]) != name)
    ensures var n := ScanEntries(m, entries); InRange(n) && SameEntry(m, n, name) && Grows(m, n)
  {
    if entries != [] {
      hide ScanEntry, InRange;
      var k := |entries| - 1;
      EntriesOther(m, entries[..k], name);
      ScanEntryOther(ScanEntries(m, entries[..k]), entries[k], name);
      ScanEntryInRange(ScanEntries(m, entries[..k]), entries[k]);
    } else {
    }
  }

  lemma OutcomeLater(m: Manager, n: Manager, e: Entry, name: string, last: Entry)
    requires name in m.instances && m.instances[name] < |m.agents| && Outcome(m, n, e, name)
    requires last.stem != name && (last.profile.Some? ==> NameOf(last) != name)
    ensures Outcome(m, ScanEntry(n, last), e, name)
  {
    ScanEntryOther(n, last, name);
    hide ScanEntry, Loads;
  }

  lemma OutcomeEarlier(m: Manager, p: Manager, n: Manager, e: Entry, name: string)
    requires name in m.instances && m.instances[name] < |m.agents|
    requires SameEntry(m, p, name) && Grows(m, p) && Outcome(p, n, e, name)
    ensures Outcome(m, n, e, name)
  {
    hide Loads;
  }

  lemma {:induction false} EntriesOutcome(m: Manager, entries: seq<Entry>, i: nat, name: string)
    requires InRange(m) && DistinctStems(entries) && i < |entries| && Alone(entries, i, name)
    requires Due(m, entries[i]) && entries[i].stem in m.lastScan && name in m.instances
    requires name == entries[i].stem || (entries[i].profile.Some? && NameOf(entries[i]) == name)
    ensures Outcome(m, ScanEntries(m, entries), entries[i], name)
  {
    hide Outcome, ScanEntry, Grows;
    var k := |entries| - 1;
    if i < k {
      EntriesOutcome(m, entries[..k], i, name);
      OutcomeLater(m, ScanEntries(m, entries[..k]), entries[i], name, entries[k]);
    } else {
      var p := ScanEntries(m, entries[..k]);
      EntriesOther(m, entries[..k], name);
      EntriesTimes(m, entries[..k]);
      EntryOutcome(p, entries[k], name);
      OutcomeEarlier(m, p, ScanEntry(p, entries[k]), entries[k], name);
    }
  }

  lemma DropOutcome(m: Manager, n: Manager, e: Entry, name: string, files: set<string>)
    requires name in m.instances && m.instances[name] < |m.agents| && Outcome(m, n, e, name)
    requires name == DEFAULT || name in files
    ensures Outcome(m, DropMissing(n, files), e, name)
  {
    StopGrows(n, Missing(n, files));
    hide Cancelled, Holders, Loads;
  }

  // A modified file whose profile is running: the scan puts a new agent under the
  // profile's name exactly when that name is the file's and the file still loads
  // under it; when only the loading fails the old agent is stopped with nothing
  // in its place, and when the names differ the old agent stays as it was.
  lemma RestartExactly(m: Manager, d: Directory, i: nat, name: string)
    requires InRange(m) && Consistent(d) && i < |d.entries| && Alone(d.entries, i, name)
    requires Due(m, d.entries[i]) && d.entries[i].stem in m.lastScan && name in m.instances
    requires name == d.entries[i].stem || (d.entries[i].profile.Some? && NameOf(d.entries[i]) == name)
    requires name == DEFAULT || name in d.files
    ensures var e, n := d.entries[i], Scan(m, d);
            && (name in n.instances && n.instances[name] >= |m.agents| <==> name == e.stem && Loads(e, name))
            && (name == e.stem ==> m.instances[name] < |n.agents| && n.agents[m.instances[name]].cancelled)
            && (name == e.stem && !Loads(e, name) ==> name !in n.instances)
            && (name != e.stem ==> name in n.instances && n.instances[name] == m.instances[name])
  {
    EntriesOutcome(m, d.entries, i, name);
    DropOutcome(m, ScanEntries(m, d.entries), d.entries[i], name, d.files);
    hide ScanEntries, DropMissing, Loads;
  }

  // Further scans of the same directory, with exits in between.
  function Rescan(m: Manager, d: Directory, exits: seq<seq<nat>>): Manager {
    if exits == [] then m else Scan(ExitedAll(Rescan(m, d, exits[..|exits| - 1]), exits[|exits| - 1]), d)
  }

  lemma RescanIdle(m: Manager, d: Directory, ks: seq<nat>)
    requires Scan(m, d) == m && Consistent(d)
    ensures var n := ExitedAll(m, ks); Scan(n, d) == n && n.instances.Keys <= m.instances.Keys
  {
    SecondScanIdle(m, d, ks);
    ExitsOnlyUnregister(m, ks);
  }

  lemma {:induction false} RescanStartsNothing(m: Manager, d: Directory, exits: seq<seq<nat>>)
    requires Scan(m, d) == m && Consistent(d)
    ensures var n := Rescan(m, d, exits);
            Scan(n, d) == n && n.instances.Keys <= m.instances.Keys
  {
    hide Scan, ExitedAll;
    if exits != [] {
      RescanStartsNothing(m, d, exits[..|exits| - 1]);
      RescanIdle(Rescan(m, d, exits[..|exits| - 1]), d, exits[|exits| - 1]);
    }
  }

  // A running profile whose file is modified into one that does not load is
  // stopped and never tried again while the directory stays as it is, even under
  // the right name.
  lemma BrokenProfileNotRetried(m: Manager, d: Directory, i: nat, exits: seq<seq<nat>>)
    requires InRange(m) && Consistent(d) && i < |d.entries|
    requires var e := d.entries[i];
             && Due(m, e) && e.stem in m.lastScan && e.stem in m.instances && !Loads(e, e.stem)
             && Alone(d.entries, i, e.stem)
    ensures d.entries[i].stem !in Rescan(Scan(m, d), d, exits).instances
  {
    hide Scan, ExitedAll;
    RestartExactly(m, d, i, d.entries[i].stem);
    SecondScanIdle(m, d, []);
    assert ExitedAll(Scan(m, d), []) == Scan(m, d) by {
      NoExits(Scan(m, d));
    }
    RescanStartsNothing(Scan(m, d), d, exits);
  }

  lemma NoExits(m: Manager)
    ensures ExitedAll(m, []) == m
  {}

  lemma OneEntry(m: Manager, e: Entry)
    ensures ScanEntries(m, [e]) == ScanEntry(m, e)
  {
    var es := [e];
    assert es[..|es| - 1] == [];
  }

  const MISNAMED := Entry("a", true, 1, Some("b"), true)

  lemma MisnamedLaunched()
    ensures ScanEntries(NEW_MANAGER, [MISNAMED]) ==
            Manager(map["b" := 0], map["a" := 1], [Agent("b", false, Running)], false)
  {
    OneEntry(NEW_MANAGER, MISNAMED);
    hide ScanEntries, StopAgents;
  }

  // A profile saved as a.json under the name "b": launched and cancelled by one
  // scan, and never tried again.
  lemma MisnamedProfileDropped() returns (d: Directory)
    ensures Consistent(d) && |d.entries| == 1 && Loads(d.entries[0], "b")
    ensures Scan(NEW_MANAGER, d).agents == [Agent("b", true, Running)]
    ensures Scan(NEW_MANAGER, d).instances == map[] && Scan(Scan(NEW_MANAGER, d), d) == Scan(NEW_MANAGER, d)
  {
    hide ScanEntries, ScanEntry;
    d := Directory([MISNAMED], {"a"});
    MisnamedLaunched();
    SecondScanIdle(NEW_MANAGER, d, []);
    var n := ScanEntries(NEW_MANAGER, [MISNAMED]);
    assert Missing(n, {"a"}) == {"b"};
    assert Holders(n.instances, {"b"}) == {0};
    assert ExitedAll(Scan(NEW_MANAGER, d), []) == Scan(NEW_MANAGER, d);
  }

  // a.json saved under the name "default", then modified: two scans from the
  // start, and the agent of the old contents keeps running.
  lemma MisnamedNotRestarted() returns (d1: Directory, d2: Directory)
    ensures Consistent(d1) && Consistent(d2) && d2.entries != [] && Due(Scan(NEW_MANAGER, d1), d2.entries[0])
    ensures Loads(d2.entries[0], DEFAULT)
    ensures var m := Scan(Scan(NEW_MANAGER, d1), d2);
            m.agents == [Agent(DEFAULT, false, Running)] && m.instances == map[DEFAULT := 0]
  {
    var e1, e2 := Entry("a", true, 1, Some(DEFAULT), true), Entry("a", true, 2, Some(DEFAULT), true);
    d1, d2 := Directory([e1], {"a"}), Directory([e2], {"a"});
    var m1 := Manager(map[DEFAULT := 0], map["a" := 1], [Agent(DEFAULT, false, Running)], false);
    var m2 := m1.(lastScan := map["a" := 2]);
    OneEntry(NEW_MANAGER, e1);
    OneEntry(m1, e2);
    StopAbsent(m1, "a");
    DropNothing(m1, {"a"});
    DropNothing(m2, {"a"});
    hide ScanEntries, StopAgents, DropMissing;
    assert ScanEntry(NEW_MANAGER, e1) == m1;
    assert ScanEntry(m1, e2) == m2;
  }

  // A correctly named profile modified into an unreadable file: two scans, and
  // nothing runs under its name.
  lemma BrokenProfileStopped() returns (d1: Directory, d2: Directory)
    ensures Consistent(d1) && Consistent(d2) && d1.entries != [] && d2.entries != []
    ensures Loads(d1.entries[0], "a") && d2.entries[0].stem == "a" && "a" in Scan(NEW_MANAGER, d1).instances
    ensures var m := Scan(NEW_MANAGER, d1); Due(m, d2.entries[0]) && "a" !in Scan(m, d2).instances
  {
    var e1, e2 := Entry("a", true, 1, Some("a"), true), Entry("a", true, 2, None, true);
    d1, d2 := Directory([e1], {"a"}), Directory([e2], {"a"});
    var m1 := Manager(map["a" := 0], map["a" := 1], [Agent("a", false, Running)], false);
    OneEntry(NEW_MANAGER, e1);
    DropNothing(m1, {"a"});
    assert Scan(NEW_MANAGER, d1) == m1 by {
      hide ScanEntries, StopAgents, DropMissing;
      assert ScanEntry(NEW_MANAGER, e1) == m1;
    }
    hide Scan, ScanEntries, ScanEntry, StopAgents;
    RestartExactly(m1, d2, 0, "a");
  }
}
