// The rolling cap on starter pings: a ring of five times per quota window does
// the work of the whole log.
module StarterPing {
  const MAX_FIRES := 5
  const RATE_WINDOW := 14_400_000_000_000 // four hours in nanoseconds

  // One request to ping a quota window, with the clock reading it saw.
  datatype Call = Call(quota: string, at: int)

  function Recorded(fires: map<string, seq<int>>, quota: string): seq<int> {
    if quota in fires then fires[quota] else []
  }

  predicate HasRoom(ring: seq<int>, now: int) {
    |ring| < MAX_FIRES || now - ring[0] > RATE_WINDOW
  }

  function Pushed(ring: seq<int>, now: int): seq<int> {
    if |ring| < MAX_FIRES then ring + [now] else ring[1..] + [now]
  }

  function Step(fires: map<string, seq<int>>, c: Call): (map<string, seq<int>>, bool) {
    var ring := Recorded(fires, c.quota);
    if HasRoom(ring, c.at) then (fires[c.quota := Pushed(ring, c.at)], true) else (fires, false)
  }

  function Fires(h: seq<Call>): map<string, seq<int>> {
    if h == [] then map[] else Step(Fires(h[..|h| - 1]), h[|h| - 1]).0
  }

  // What the limiter answers to call i of a history.
  predicate Allows(h: seq<Call>, i: nat)
    requires i < |h|
  {
    Step(Fires(h[..i]), h[i]).1
  }

  class StarterLimiter {
    var starterFires: map<string, seq<int>>

    constructor ()
      ensures starterFires == map[]
    {
      starterFires := map[];
    }

    method AllowStarterPing(quota: string, now: int) returns (ok: bool)
      modifies this
      ensures (starterFires, ok) == Step(old(starterFires), Call(quota, now))
    {
      var fires := Recorded(starterFires, quota);
      if |fires| < MAX_FIRES {
        starterFires := starterFires[quota := fires + [now]];
        return true;
      }
      if now - fires[0] <= RATE_WINDOW {
        return false;
      }
      var next := fires[1..];
      next := next + [now];
      starterFires := starterFires[quota := next];
      return true;
    }

    // Every answer over a whole history is the one the full log would give.
    method AnswerAll(h: seq<Call>) returns (answers: seq<bool>)
      requires starterFires == map[] && ClockForward(h)
      modifies this
      ensures |answers| == |h| && forall i :: 0 <= i < |h| ==> answers[i] == LogAllows(h, i)
    {
      hide Step, Fires, LogAllows, ClockForward;
      answers := [];
      FiresStart();
      for n := 0 to |h|
        invariant |answers| == n && starterFires == Fires(h[..n])
        invariant forall i :: 0 <= i < n ==> answers[i] == LogAllows(h, i)
      {
        RingRefinesLog(h, n);
        FiresNext(h, n);
        var ok := AllowStarterPing(h[n].quota, h[n].at);
        answers := answers + [ok];
      }
    }
  }

  lemma FiresStart()
    ensures Fires([]) == map[]
  {}

  lemma FiresNext(h: seq<Call>, n: nat)
    requires n < |h|
    ensures Fires(h[..n + 1]) == Step(Fires(h[..n]), h[n]).0
  {
    assert h[..n + 1][..n] == h[..n];
  }

  // --- The full log ---

  predicate ClockForward(h: seq<Call>) {
    forall i, j :: 0 <= i <= j < |h| ==> h[i].at <= h[j].at
  }

  // Logged pings no more than the rate window before now.
  function Recent(log: seq<int>, now: int): nat {
    if log == [] then 0
    else Recent(log[..|log| - 1], now) + if now - log[|log| - 1] <= RATE_WINDOW then 1 else 0
  }

  // Every ping ever allowed for a window when each call is judged on the whole
  // log of that window.
  function Log(h: seq<Call>, quota: string): seq<int> {
    if h == [] then []
    else
      var log, c := Log(h[..|h| - 1], quota), h[|h| - 1];
      if c.quota == quota && Recent(log, c.at) < MAX_FIRES then log + [c.at] else log
  }

  // The whole-log limiter's answer to call i.
  predicate LogAllows(h: seq<Call>, i: nat)
    requires i < |h|
  {
    Recent(Log(h[..i], h[i].quota), h[i].at) < MAX_FIRES
  }

  function LastFive(log: seq<int>): seq<int> {
    if |log| <= MAX_FIRES then log else log[|log| - MAX_FIRES..]
  }

  predicate Ascending(log: seq<int>, now: int) {
    && (forall i, j :: 0 <= i <= j < |log| ==> log[i] <= log[j])
    && (forall i :: 0 <= i < |log| ==> log[i] <= now)
  }

  lemma {:induction false} LogAscending(h: seq<Call>, quota: string, now: int)
    requires ClockForward(h) && (h != [] ==> h[|h| - 1].at <= now)
    ensures Ascending(Log(h, quota), now)
  {
    if h != [] {
      hide Recent;
      var n := |h| - 1;
      assert n > 0 ==> h[..n][n - 1].at <= h[n].at;
      LogAscending(h[..n], quota, h[n].at);
    }
  }

  lemma {:induction false} NoneRecent(log: seq<int>, now: int)
    requires forall i :: 0 <= i < |log| ==> now - log[i] > RATE_WINDOW
    ensures Recent(log, now) == 0
  {
    if log != [] {
      NoneRecent(log[..|log| - 1], now);
    }
  }

  // In an ascending log the recent pings are a suffix.
  lemma {:induction false} RecentSuffix(log: seq<int>, now: int, k: nat)
    requires Ascending(log, now) && k <= |log|
    ensures Recent(log, now) < k <==> k > 0 && now - log[|log| - k] > RATE_WINDOW
    decreases |log|
  {
    if k == 0 {
    } else {
      var m := |log| - 1;
      assert Ascending(log[..m], now);
      if now - log[m] <= RATE_WINDOW {
        RecentSuffix(log[..m], now, k - 1);
      } else {
        NoneRecent(log, now);
      }
    }
  }

  lemma {:induction false} RecentAtMostLength(log: seq<int>, now: int)
    ensures Recent(log, now) <= |log|
  {
    if log != [] {
      RecentAtMostLength(log[..|log| - 1], now);
    }
  }

  lemma JudgeByRing(log: seq<int>, now: int)
    requires Ascending(log, now)
    ensures Recent(log, now) < MAX_FIRES <==> HasRoom(LastFive(log), now)
  {
    RecentAtMostLength(log, now);
    if |log| >= MAX_FIRES {
      RecentSuffix(log, now, MAX_FIRES);
    }
  }

  lemma PushedIsLastFive(log: seq<int>, now: int)
    ensures Pushed(LastFive(log), now) == LastFive(log + [now])
  {}

  // What the ring shows about the newest call is what the log shows.
  lemma JudgeNewest(h: seq<Call>, quota: string)
    requires ClockForward(h) && h != []
    ensures ClockForward(h[..|h| - 1])
    ensures var log, now := Log(h[..|h| - 1], quota), h[|h| - 1].at;
            Recent(log, now) < MAX_FIRES <==> HasRoom(LastFive(log), now)
  {
    hide Recent, HasRoom, LastFive, Ascending, Log;
    var n := |h| - 1;
    assert n > 0 ==> h[..n][n - 1].at <= h[n].at;
    LogAscending(h[..n], quota, h[n].at);
    JudgeByRing(Log(h[..n], quota), h[n].at);
  }

  lemma {:induction false} RingIsLastFive(h: seq<Call>, quota: string)
    requires ClockForward(h)
    ensures Recorded(Fires(h), quota) == LastFive(Log(h, quota))
  {
    if h != [] {
      hide Recent, Pushed, HasRoom, LastFive, ClockForward;
      var n := |h| - 1;
      JudgeNewest(h, quota);
      RingIsLastFive(h[..n], quota);
      PushedIsLastFive(Log(h[..n], quota), h[n].at);
    } else {
    }
  }

  // The ring accepts exactly when fewer than five pings allowed so far for that
  // window lie within the last four hours.
  lemma RingRefinesLog(h: seq<Call>, i: nat)
    requires ClockForward(h) && i < |h|
    ensures Allows(h, i) == LogAllows(h, i)
  {
    hide Recent, Log, Fires;
    assert i > 0 ==> h[..i][i - 1].at <= h[i].at;
    RingIsLastFive(h[..i], h[i].quota);
    LogAscending(h[..i], h[i].quota, h[i].at);
    JudgeByRing(Log(h[..i], h[i].quota), h[i].at);
  }

  // Ping i + 5 of a window always comes more than four hours after ping i.
  lemma {:induction false} AllowedPingsSpaced(h: seq<Call>, quota: string, i: nat, j: nat)
    requires ClockForward(h) && i + MAX_FIRES <= j < |Log(h, quota)|
    ensures Log(h, quota)[j] - Log(h, quota)[i] > RATE_WINDOW
  {
    hide Recent;
    var n := |h| - 1;
    var log := Log(h[..n], quota);
    if j < |log| {
      AllowedPingsSpaced(h[..n], quota, i, j);
    } else {
      assert n > 0 ==> h[..n][n - 1].at <= h[n].at;
      LogAscending(h[..n], quota, h[n].at);
      RecentSuffix(log, h[n].at, MAX_FIRES);
      assert log[i] <= log[|log| - MAX_FIRES];
    }
  }

  function Only(h: seq<Call>, quota: string): seq<Call> {
    if h == [] then []
    else Only(h[..|h| - 1], quota) + if h[|h| - 1].quota == quota then [h[|h| - 1]] else []
  }

  // Calls for other windows never change a window's answers.
  lemma {:induction false} WindowsIndependent(h: seq<Call>, quota: string)
    ensures Log(h, quota) == Log(Only(h, quota), quota)
    ensures Recorded(Fires(h), quota) == Recorded(Fires(Only(h, quota)), quota)
  {
    if h != [] {
      hide Recent, Pushed, HasRoom;
      var n := |h| - 1;
      WindowsIndependent(h[..n], quota);
      var o, g := Only(h[..n], quota), Only(h, quota);
      if h[n].quota == quota {
        assert g == o + [h[n]] && g[..|g| - 1] == o;
      } else {
        assert g == o;
      }
    }
  }
}
