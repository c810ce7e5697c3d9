// Usage sessions: opened by the first changed poll, closed by the first
// unchanged poll after more than the idle timeout without a change.
module Sessions {
  import opened Basics

  // A reported number; NaN equals nothing, itself included.
  datatype Reading = Number(value: real) | NaN

  predicate Same(a: Reading, b: Reading) { a.Number? && a == b }

  predicate Differs(a: seq<Reading>, b: seq<Reading>) {
    |a| != |b| || exists i :: 0 <= i < |a| && !Same(a[i], b[i])
  }

  datatype Triple<T> = Triple(sub: T, search: T, tool: T)

  // One row of the sessions table; new rows start with zero maxima.
  datatype Row = Row(startedAt: int, start: Triple<Reading>, endedAt: Option<int>, count: nat, max: Triple<real>)

  const ZEROES := Triple(0.0, 0.0, 0.0)

  // One successful poll: the clock, the values, and which store writes succeed.
  datatype Poll = Poll(at: int, values: seq<Reading>, createOk: bool, countOk: bool, maxOk: bool, closeOk: bool)

  // The manager's fields and the rows it has written; an open session is named
  // by its row.
  datatype Manager = Manager(session: Option<nat>, lastActivity: int, prev: seq<Reading>, hasPrev: bool, rows: seq<Row>)

  const NEW_MANAGER := Manager(None, 0, [], false, [])

  function FirstThree(values: seq<Reading>): Triple<Reading> {
    Triple(if |values| > 0 then values[0] else Number(0.0),
           if |values| > 1 then values[1] else Number(0.0),
           if |values| > 2 then values[2] else Number(0.0))
  }

  // NaN never raises a maximum.
  function Larger(a: real, b: Reading): real { if b.Number? && a < b.value then b.value else a }

  function Raise(t: Triple<real>, u: Triple<Reading>): Triple<real> {
    Triple(Larger(t.sub, u.sub), Larger(t.search, u.search), Larger(t.tool, u.tool))
  }

  function Touched(r: Row, p: Poll): Row {
    var counted := if p.countOk then r.(count := r.count + 1) else r;
    if p.maxOk then counted.(max := Raise(counted.max, FirstThree(p.values))) else counted
  }

  function Ended(r: Row, at: int, ok: bool): Row {
    if ok then r.(endedAt := Some(at)) else r
  }

  predicate Wellformed(m: Manager) { m.session.Some? ==> m.session.value < |m.rows| }

  function Touch(m: Manager, p: Poll): (n: Manager)
    requires Wellformed(m) && m.session.Some?
    ensures Wellformed(n)
  {
    m.(rows := m.rows[m.session.value := Touched(m.rows[m.session.value], p)])
  }

  function CloseSession(m: Manager, at: int, ok: bool): (n: Manager)
    requires Wellformed(m) && m.session.Some?
    ensures Wellformed(n)
  {
    m.(rows := m.rows[m.session.value := Ended(m.rows[m.session.value], at, ok)], session := None)
  }

  // ReportPoll: the new manager and whether usage changed.
  function Report(m: Manager, p: Poll, idle: int): (r: (Manager, bool))
    requires Wellformed(m)
    ensures Wellformed(r.0)
  {
    var changed := m.hasPrev && Differs(p.values, m.prev);
    var n := m.(prev := p.values, hasPrev := true);
    if !m.hasPrev then (n, false)
    else if changed then
      if m.session.None? then
        if !p.createOk then (n.(lastActivity := p.at), true)
        else
          var row := Row(p.at, FirstThree(m.prev), None, 0, ZEROES);
          (Touch(n.(session := Some(|m.rows|), lastActivity := p.at, rows := m.rows + [row]), p), true)
      else (Touch(n.(lastActivity := p.at), p), true)
    else if m.session.None? then (n, false)
    else if p.at - m.lastActivity > idle then (CloseSession(n, p.at, p.closeOk), false)
    else (Touch(n, p), false)
  }

  function Replay(h: seq<Poll>, idle: int): (m: Manager)
    ensures Wellformed(m)
  {
    if h == [] then NEW_MANAGER else Report(Replay(h[..|h| - 1], idle), h[|h| - 1], idle).0
  }

  // --- The objects ---

  class SessionStore {
    var rows: seq<Row>

    constructor ()
      ensures rows == []
    {
      rows := [];
    }

    method CreateRow(at: int, start: Triple<Reading>, ok: bool) returns (id: nat)
      modifies this
      ensures id == |old(rows)|
      ensures rows == if ok then old(rows) + [Row(at, start, None, 0, ZEROES)] else old(rows)
    {
      id := |rows|;
      if ok {
        rows := rows + [Row(at, start, None, 0, ZEROES)];
      }
    }

    method SetRow(id: nat, r: Row)
      requires id < |rows|
      modifies this
      ensures rows == old(rows)[id := r]
    {
      rows := rows[id := r];
    }
  }

  class SessionManager {
    const store: SessionStore
    const idleTimeout: int
    var sessionID: Option<nat>
    var lastActivityTime: int
    var prevValues: seq<Reading>
    var hasPrev: bool

    ghost function Value(): Manager
      reads this, store
    {
      Manager(sessionID, lastActivityTime, prevValues, hasPrev, store.rows)
    }

    constructor (store: SessionStore, idleTimeout: int)
      requires store.rows == []
      ensures this.store == store && this.idleTimeout == idleTimeout && Value() == NEW_MANAGER
    {
      this.store, this.idleTimeout := store, idleTimeout;
      sessionID, lastActivityTime, prevValues, hasPrev := None, 0, [], false;
    }

    method HasChanged(values: seq<Reading>) returns (changed: bool)
      ensures changed == (hasPrev && Differs(values, prevValues))
    {
      if !hasPrev {
        return false;
      }
      if |values| != |prevValues| {
        return true;
      }
      for i := 0 to |values|
        invariant forall j :: 0 <= j < i ==> Same(values[j], prevValues[j])
      {
        if !Same(values[i], prevValues[i]) {
          return true;
        }
      }
      return false;
    }

    method IncrementAndUpdate(p: Poll)
      requires Wellformed(Value()) && sessionID.Some?
      modifies store
      ensures Value() == Touch(old(Value()), p)
    {
      var row := store.rows[sessionID.value];
      if p.countOk {
        row := row.(count := row.count + 1);
      }
      if p.maxOk {
        row := row.(max := Raise(row.max, FirstThree(p.values)));
      }
      store.SetRow(sessionID.value, row);
    }

    method EndSession(at: int, ok: bool)
      requires Wellformed(Value()) && sessionID.Some?
      modifies this, store
      ensures Value() == CloseSession(old(Value()), at, ok)
    {
      store.SetRow(sessionID.value, Ended(store.rows[sessionID.value], at, ok));
      sessionID := None;
    }

    method ReportPoll(p: Poll) returns (active: bool)
      requires Wellformed(Value())
      modifies this, store
      ensures Wellformed(Value())
      ensures (Value(), active) == Report(old(Value()), p, idleTimeout)
    {
      hide Touched, Ended;
      var changed := HasChanged(p.values);
      var oldPrev := prevValues;
      prevValues := p.values;
      if !hasPrev {
        hasPrev := true;
        return false;
      }
      if changed {
        if sessionID.None? {
          lastActivityTime := p.at;
          var id := store.CreateRow(p.at, FirstThree(oldPrev), p.createOk);
          if !p.createOk {
            return true;
          }
          sessionID := Some(id);
        }
        lastActivityTime := p.at;
        IncrementAndUpdate(p);
        return true;
      }
      if sessionID.Some? {
        if p.at - lastActivityTime > idleTimeout {
          EndSession(p.at, p.closeOk);
        } else {
          IncrementAndUpdate(p);
        }
      }
      return false;
    }

    // Close, on agent shutdown.
    method Shutdown(now: int, ok: bool)
      requires Wellformed(Value())
      modifies this, store
      ensures Wellformed(Value()) && sessionID.None?
      ensures Value() == if old(sessionID).None? then old(Value()) else CloseSession(old(Value()), now, ok)
    {
      if sessionID.None? {
        return;
      }
      EndSession(now, ok);
    }
  }

  // --- The declarative reading of a history ---

  predicate Changed(h: seq<Poll>, i: nat)
    requires i < |h|
  {
    i > 0 && Differs(h[i].values, h[i - 1].values)
  }

  // A poll that opens a session if none is open.
  predicate Opener(h: seq<Poll>, i: nat)
    requires i < |h|
  {
    Changed(h, i) && h[i].createOk
  }

  // The latest changed poll at or before i.
  function LastChange(h: seq<Poll>, i: nat): (k: nat)
    requires i < |h|
    ensures k <= i && (Changed(h, k) || k == 0) && forall j :: k < j <= i ==> !Changed(h, j)
  {
    if i == 0 || Changed(h, i) then i else LastChange(h, i - 1)
  }

  // An unchanged poll more than the timeout after the last change.
  predicate Idle(h: seq<Poll>, i: nat, idle: int)
    requires i < |h|
  {
    !Changed(h, i) && h[i].at - h[LastChange(h, i)].at > idle
  }

  // Polls first..stop belong to the session; poll `stop`, if there is one yet,
  // closed it and is not counted.
  datatype Segment = Segment(first: nat, stop: nat)

  predicate IsSegment(h: seq<Poll>, s: Segment, idle: int) {
    && s.first < s.stop <= |h|
    && Opener(h, s.first)
    && (forall j :: s.first < j < s.stop ==> !Idle(h, j, idle))
    && (s.stop < |h| ==> Idle(h, s.stop, idle))
  }

  predicate Inside(i: nat, s: Segment) { s.first <= i < s.stop }

  predicate Covered(i: nat, segs: seq<Segment>) {
    exists k :: 0 <= k < |segs| && Inside(i, segs[k])
  }

  // Segments in order, at most the last still open, and no opener outside one.
  ghost predicate IsSegmentation(h: seq<Poll>, segs: seq<Segment>, idle: int) {
    && (forall k :: 0 <= k < |segs| ==> IsSegment(h, segs[k], idle))
    && (forall k, l :: 0 <= k < l < |segs| ==> segs[k].stop < segs[l].first)
    && (forall i :: 0 <= i < |h| && Opener(h, i) ==> Covered(i, segs))
  }

  function CountIn(h: seq<Poll>, first: nat, stop: nat): nat
    requires first <= stop <= |h|
  {
    if stop == first then 0 else CountIn(h, first, stop - 1) + if h[stop - 1].countOk then 1 else 0
  }

  function MaxIn(h: seq<Poll>, first: nat, stop: nat): Triple<real>
    requires first <= stop <= |h|
  {
    if stop == first then ZEROES
    else
      var t := MaxIn(h, first, stop - 1);
      if h[stop - 1].maxOk then Raise(t, FirstThree(h[stop - 1].values)) else t
  }

  // What the table should say about a segment: start values from the poll before
  // the change, one count per poll inside, and the closing poll's time.
  function RowOf(h: seq<Poll>, s: Segment): Row
    requires 0 < s.first < s.stop <= |h|
  {
    Row(h[s.first].at, FirstThree(h[s.first - 1].values),
        if s.stop < |h| && h[s.stop].closeOk then Some(h[s.stop].at) else None,
        CountIn(h, s.first, s.stop), MaxIn(h, s.first, s.stop))
  }
}
