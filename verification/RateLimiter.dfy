/** The in-memory request limiter of `internal/api/security.go`: it keeps a trimmed list of recent accepts
    per key and forgets idle keys, and still decides as if it kept the whole history. */
module RateLimiter {
  import opened Common

  /** managementRateWindow in nanoseconds, and requestRateLimiterMaxKeys. */
  const WINDOW := 60_000_000_000
  const MAX_KEYS := 10000

  datatype Table = Table(entries: map<string, seq<int>>, lastCleanup: Option<int>)

  /** The list without its leading entries before the cutoff. */
  function TrimOld(requests: seq<int>, cutoff: int): seq<int> {
    if requests != [] && requests[0] < cutoff then TrimOld(requests[1..], cutoff) else requests
  }

  lemma {:induction false} TrimOldSuffix(requests: seq<int>, cutoff: int)
    ensures var r := TrimOld(requests, cutoff);
            && |r| <= |requests| && r == requests[|requests| - |r|..]
            && (forall i | 0 <= i < |requests| - |r| :: requests[i] < cutoff)
            && (r != [] ==> r[0] >= cutoff)
  {
    if requests != [] && requests[0] < cutoff {
      TrimOldSuffix(requests[1..], cutoff);
    }
  }

  predicate Idle(requests: seq<int>, cutoff: int) {
    requests == [] || requests[|requests| - 1] < cutoff
  }

  predicate CleanupDue(t: Table, now: int) {
    t.lastCleanup.None? || now - t.lastCleanup.value >= WINDOW
  }

  function Cleaned(t: Table, now: int): Table {
    if CleanupDue(t, now) then
      Table(map k | k in t.entries && !Idle(t.entries[k], now - WINDOW) :: t.entries[k], Some(now))
    else t
  }

  function RequestsOf(t: Table, key: string): seq<int> {
    if key in t.entries then t.entries[key] else []
  }

  predicate TableFull(t: Table, key: string) {
    key !in t.entries && |t.entries| >= MAX_KEYS
  }

  /** Whether a request is allowed, by the lists the limiter kept. */
  predicate Allows(t: Table, key: string, limit: int, now: int) {
    limit <= 0 ||
    (var c := Cleaned(t, now); !TableFull(c, key) && |TrimOld(RequestsOf(c, key), now - WINDOW)| < limit)
  }

  function Next(t: Table, key: string, limit: int, now: int): Table {
    if limit <= 0 then t
    else
      var c := Cleaned(t, now);
      if TableFull(c, key) then c
      else
        var recent := TrimOld(RequestsOf(c, key), now - WINDOW);
        c.(entries := c.entries[key := if |recent| >= limit then recent else recent + [now]])
  }

  /** Full history: every recorded accept, oldest first. Requests under a limit of zero or less are
      accepted without being recorded. */
  datatype Accept = Accept(key: string, at: int)

  ghost function Times(history: seq<Accept>, key: string): seq<int> {
    if history == [] then []
    else
      var h := history[|history| - 1];
      Times(history[..|history| - 1], key) + if h.key == key then [h.at] else []
  }

  /** The positions of a key's accepts that lie in the closed minute before `now`. */
  ghost function LastMinute(history: seq<Accept>, key: string, now: int): set<nat> {
    var ts := Times(history, key);
    set i: nat | i < |ts| && ts[i] >= now - WINDOW
  }

  ghost predicate Sorted(ts: seq<int>) {
    forall i, j | 0 <= i <= j < |ts| :: ts[i] <= ts[j]
  }

  /** What was dropped of a key's history is older than a minute. */
  ghost predicate Keeps(kept: seq<int>, ts: seq<int>, clock: int) {
    && |kept| <= |ts| && kept == ts[|ts| - |kept|..]
    && (forall i | 0 <= i < |ts| - |kept| :: ts[i] < clock - WINDOW)
    && Sorted(ts) && (forall i | 0 <= i < |ts| :: ts[i] <= clock)
  }

  ghost predicate Represents(t: Table, history: seq<Accept>, clock: int) {
    && (forall key :: Keeps(RequestsOf(t, key), Times(history, key), clock))
    && |t.entries| <= MAX_KEYS
  }

  lemma {:induction false} TrimPast(ts: seq<int>, n: nat, cutoff: int)
    requires n <= |ts| && forall i | 0 <= i < n :: ts[i] < cutoff
    ensures TrimOld(ts, cutoff) == TrimOld(ts[n..], cutoff)
  {
    if n > 0 {
      assert ts[1..][n - 1..] == ts[n..];
      TrimPast(ts[1..], n - 1, cutoff);
    }
  }

  ghost function Interval(a: nat, b: nat): (s: set<nat>)
    requires a <= b
    ensures forall i: nat :: i in s <==> a <= i < b
    ensures |s| == b - a
    decreases b - a
  {
    if a == b then {} else {a} + Interval(a + 1, b)
  }

  /** In a sorted list, trimming leaves exactly the accepts of the last minute. */
  lemma TrimmedIsLastMinute(history: seq<Accept>, key: string, now: int)
    requires Sorted(Times(history, key))
    ensures |LastMinute(history, key, now)| == |TrimOld(Times(history, key), now - WINDOW)|
  {
    var ts := Times(history, key);
    var n := |TrimOld(ts, now - WINDOW)|;
    TrimOldSuffix(ts, now - WINDOW);
    assert LastMinute(history, key, now) == Interval(|ts| - n, |ts|);
  }

  /** The kept list and the whole history have the same last minute. */
  lemma SameLastMinute(kept: seq<int>, ts: seq<int>, clock: int, now: int)
    requires Keeps(kept, ts, clock) && now >= clock
    ensures TrimOld(kept, now - WINDOW) == TrimOld(ts, now - WINDOW)
    ensures Keeps(TrimOld(kept, now - WINDOW), ts, now)
  {
    TrimPast(ts, |ts| - |kept|, now - WINDOW);
    TrimOldSuffix(ts, now - WINDOW);
  }

  lemma CleanedRepresents(t: Table, history: seq<Accept>, clock: int, now: int)
    requires Represents(t, history, clock) && now >= clock
    ensures Represents(Cleaned(t, now), history, now)
  {
    var c := Cleaned(t, now);
    forall key ensures Keeps(RequestsOf(c, key), Times(history, key), now) {
      assert Keeps(RequestsOf(t, key), Times(history, key), clock);
      if key in t.entries && key !in c.entries && t.entries[key] != [] {
        var ts := Times(history, key);
        assert ts[|ts| - 1] == t.entries[key][|t.entries[key]| - 1];
      }
    }
    assert c.entries.Keys <= t.entries.Keys;
    KeysShrink(c.entries.Keys, t.entries.Keys);
  }

  lemma KeysShrink(a: set<string>, b: set<string>)
    requires a <= b
    ensures |a| <= |b|
  {
    assert b == a + (b - a);
  }

  /** The limiter refines its history: it rejects exactly when the key's last closed minute is full, or
      the key is not in the table and the table is. */
  lemma DecisionRefinesHistory(t: Table, history: seq<Accept>, clock: int, key: string, limit: int, now: int)
    requires Represents(t, history, clock) && now >= clock
    ensures !Allows(t, key, limit, now) <==>
              limit > 0 && (|LastMinute(history, key, now)| >= limit || TableFull(Cleaned(t, now), key))
    ensures TableFull(Cleaned(t, now), key) ==> |Cleaned(t, now).entries| == 10_000 && (key in t.entries ==> |LastMinute(history, key, now)| == 0)
  {
    CleanedRepresents(t, history, clock, now);
    var c := Cleaned(t, now);
    assert Keeps(RequestsOf(c, key), Times(history, key), now);
    SameLastMinute(RequestsOf(c, key), Times(history, key), now, now);
    TrimmedIsLastMinute(history, key, now);
  }

  ghost function Recorded(t: Table, history: seq<Accept>, key: string, limit: int, now: int): seq<Accept> {
    if limit > 0 && Allows(t, key, limit, now) then history + [Accept(key, now)] else history
  }

  lemma NextSize(t: Table, key: string, limit: int, now: int)
    requires limit > 0 && |Cleaned(t, now).entries| <= MAX_KEYS
    ensures |Next(t, key, limit, now).entries| <= MAX_KEYS
  {
    var c := Cleaned(t, now);
    if !TableFull(c, key) {
      assert Next(t, key, limit, now).entries.Keys == c.entries.Keys + {key};
    }
  }

  lemma NextRepresents(t: Table, history: seq<Accept>, clock: int, key: string, limit: int, now: int)
    requires Represents(t, history, clock) && now >= clock && limit > 0
    ensures Represents(Next(t, key, limit, now), Recorded(t, history, key, limit, now), now)
  {
    CleanedRepresents(t, history, clock, now);
    NextSize(t, key, limit, now);
    forall k ensures Keeps(RequestsOf(Next(t, key, limit, now), k), Times(Recorded(t, history, key, limit, now), k), now) {
      assert Keeps(RequestsOf(Cleaned(t, now), k), Times(history, k), now);
      NextKeeps(t, history, key, limit, now, k);
    }
  }

  lemma RecordedTimes(t: Table, history: seq<Accept>, key: string, limit: int, now: int, k: string)
    requires limit > 0
    ensures Times(Recorded(t, history, key, limit, now), k)
            == Times(history, k) + if k == key && Allows(t, key, limit, now) then [now] else []
  {
  }

  lemma NextRequests(t: Table, key: string, limit: int, now: int, k: string)
    requires limit > 0
    ensures var kept, trims := RequestsOf(Cleaned(t, now), k), k == key && !TableFull(Cleaned(t, now), key);
            RequestsOf(Next(t, key, limit, now), k) ==
              if trims then TrimOld(kept, now - WINDOW) + (if k == key && Allows(t, key, limit, now) then [now] else []) else kept
    ensures TableFull(Cleaned(t, now), key) ==> !Allows(t, key, limit, now)
  {
    var recent := TrimOld(RequestsOf(Cleaned(t, now), key), now - WINDOW);
    assert recent + [] == recent;
  }

  lemma NextKeeps(t: Table, history: seq<Accept>, key: string, limit: int, now: int, k: string)
    requires limit > 0 && Keeps(RequestsOf(Cleaned(t, now), k), Times(history, k), now)
    ensures Keeps(RequestsOf(Next(t, key, limit, now), k), Times(Recorded(t, history, key, limit, now), k), now)
  {
    var trims, adds := k == key && !TableFull(Cleaned(t, now), key), k == key && Allows(t, key, limit, now);
    NextRequests(t, key, limit, now, k);
    RecordedTimes(t, history, key, limit, now, k);
    KeepsNext(RequestsOf(Cleaned(t, now), k), Times(history, k), now, trims, adds);
  }

  lemma KeepsAppend(kept: seq<int>, ts: seq<int>, now: int)
    requires Keeps(kept, ts, now)
    ensures Keeps(kept + [now], ts + [now], now)
  {
    var k, n := |kept|, |ts|;
    assert (ts + [now])[n + 1 - (k + 1)..] == ts[n - k..] + [now];
  }

  lemma KeepsNext(kept: seq<int>, ts: seq<int>, now: int, trims: bool, adds: bool)
    requires Keeps(kept, ts, now) && (adds ==> trims)
    ensures Keeps(if trims then TrimOld(kept, now - WINDOW) + (if adds then [now] else []) else kept, ts + (if adds then [now] else []), now)
  {
    if !trims {
      assert ts + [] == ts;
    } else {
      SameLastMinute(kept, ts, now, now);
      var recent := TrimOld(kept, now - WINDOW);
      if adds {
        KeepsAppend(recent, ts, now);
      } else {
        assert recent + [] == recent && ts + [] == ts;
      }
    }
  }

  datatype Request = Request(key: string, limit: int, now: int)

  ghost predicate ClockOk(reqs: seq<Request>, clock: int) {
    reqs == [] || (reqs[0].now >= clock && ClockOk(reqs[1..], reqs[0].now))
  }

  datatype Outcome = Outcome(table: Table, history: seq<Accept>)

  ghost function Serve(t: Table, history: seq<Accept>, reqs: seq<Request>): Outcome
    decreases |reqs|
  {
    if reqs == [] then Outcome(t, history)
    else
      var r := reqs[0];
      Serve(Next(t, r.key, r.limit, r.now), Recorded(t, history, r.key, r.limit, r.now), reqs[1..])
  }

  /** Among more than `limit` consecutive accepts of a key, the first and last are over a minute apart. */
  ghost predicate Spaced(ts: seq<int>, limit: nat) {
    forall i | limit <= i < |ts| :: ts[i - limit] < ts[i] - WINDOW
  }

  lemma ServeOne(t: Table, history: seq<Accept>, clock: int, r: Request)
    requires Represents(t, history, clock) && r.now >= clock
    ensures Represents(Next(t, r.key, r.limit, r.now), Recorded(t, history, r.key, r.limit, r.now), r.now)
  {
    if r.limit > 0 {
      NextRepresents(t, history, clock, r.key, r.limit, r.now);
    } else {
      forall k ensures Keeps(RequestsOf(t, k), Times(history, k), r.now) {
        assert Keeps(RequestsOf(t, k), Times(history, k), clock);
      }
    }
  }

  lemma SpacedAppend(ts: seq<int>, limit: nat, now: int)
    requires Spaced(ts, limit) && |TrimOld(ts, now - WINDOW)| < limit
    ensures Spaced(ts + [now], limit)
  {
    TrimOldSuffix(ts, now - WINDOW);
    if |ts| >= limit {
      assert |ts| - limit < |ts| - |TrimOld(ts, now - WINDOW)|;
    }
  }

  lemma AcceptIsSpaced(t: Table, history: seq<Accept>, clock: int, key: string, limit: nat, now: int)
    requires Represents(t, history, clock) && now >= clock && limit > 0 && Allows(t, key, limit, now)
    requires Spaced(Times(history, key), limit)
    ensures Spaced(Times(history, key) + [now], limit)
  {
    DecisionRefinesHistory(t, history, clock, key, limit, now);
    assert Keeps(RequestsOf(t, key), Times(history, key), clock);
    TrimmedIsLastMinute(history, key, now);
    SpacedAppend(Times(history, key), limit, now);
  }

  lemma RecordedAs(t: Table, history: seq<Accept>, r: Request, key: string, limit: nat)
    requires r.key == key ==> r.limit == limit
    ensures Times(Recorded(t, history, r.key, r.limit, r.now), key)
            == Times(history, key) + if r.key == key && r.limit > 0 && Allows(t, key, limit, r.now) then [r.now] else []
  {
    if r.limit > 0 {
      RecordedTimes(t, history, r.key, r.limit, r.now, key);
    } else {
      assert Times(history, key) + [] == Times(history, key);
    }
  }

  lemma SpacedOne(t: Table, history: seq<Accept>, clock: int, r: Request, key: string, limit: nat)
    requires Represents(t, history, clock) && r.now >= clock && limit > 0
    requires r.key == key ==> r.limit == limit
    requires Spaced(Times(history, key), limit)
    ensures Spaced(Times(Recorded(t, history, r.key, r.limit, r.now), key), limit)
  {
    var ts, accepted := Times(history, key), r.key == key && r.limit > 0 && Allows(t, key, limit, r.now);
    RecordedAs(t, history, r, key, limit);
    if accepted {
      AcceptIsSpaced(t, history, clock, key, limit, r.now);
    } else {
      assert ts + [] == ts;
    }
  }

  lemma RepresentsBounds(t: Table, history: seq<Accept>, clock: int, key: string)
    requires Represents(t, history, clock)
    ensures Sorted(Times(history, key)) && |t.entries| <= MAX_KEYS
  {
    assert Keeps(RequestsOf(t, key), Times(history, key), clock);
  }

  /** The first request leaves a state that represents its history and keeps the spacing. */
  lemma ServeFirst(t: Table, history: seq<Accept>, clock: int, reqs: seq<Request>, key: string, limit: nat) returns (u: Table, h: seq<Accept>)
    requires Represents(t, history, clock) && reqs != [] && reqs[0].now >= clock && limit > 0
    requires reqs[0].key == key ==> reqs[0].limit == limit
    requires Spaced(Times(history, key), limit)
    ensures Serve(t, history, reqs) == Serve(u, h, reqs[1..])
    ensures Represents(u, h, reqs[0].now) && Spaced(Times(h, key), limit)
  {
    var r := reqs[0];
    u, h := Next(t, r.key, r.limit, r.now), Recorded(t, history, r.key, r.limit, r.now);
    ServeOne(t, history, clock, r);
    SpacedOne(t, history, clock, r, key, limit);
  }

  lemma {:induction false} ServeKeeps(t: Table, history: seq<Accept>, clock: int, reqs: seq<Request>, key: string, limit: nat)
    requires Represents(t, history, clock) && ClockOk(reqs, clock)
    requires limit > 0 && forall i | 0 <= i < |reqs| && reqs[i].key == key :: reqs[i].limit == limit
    requires Spaced(Times(history, key), limit)
    ensures var o := Serve(t, history, reqs);
            Spaced(Times(o.history, key), limit) && Sorted(Times(o.history, key)) && |o.table.entries| <= MAX_KEYS
    decreases |reqs|
  {
    if reqs == [] {
      RepresentsBounds(t, history, clock, key);
    } else {
      var rest := reqs[1..];
      assert forall i | 0 <= i < |rest| :: rest[i] == reqs[i + 1];
      var u, h := ServeFirst(t, history, clock, reqs, key, limit);
      ServeKeeps(u, h, reqs[0].now, rest, key, limit);
    }
  }

  /** With clocks that never go back, no closed 60-second window ever holds more than `limit` recorded
      accepts of a key whose requests all carry that limit, and the table never outgrows its cap. */
  lemma NoWindowExceedsLimit(reqs: seq<Request>, clock: int, key: string, limit: nat, i: nat, j: nat)
    requires ClockOk(reqs, clock)
    requires limit > 0 && forall k | 0 <= k < |reqs| && reqs[k].key == key :: reqs[k].limit == limit
    ensures var o := Serve(Table(map[], None), [], reqs);
            var ts := Times(o.history, key);
            && |o.table.entries| <= 10_000
            && (i <= j < |ts| && ts[j] - ts[i] <= 60_000_000_000 ==> j - i + 1 <= limit)
  {
    assert Represents(Table(map[], None), [], clock);
    ServeKeeps(Table(map[], None), [], clock, reqs, key, limit);
    var ts := Times(Serve(Table(map[], None), [], reqs).history, key);
    if i <= j < |ts| && j - i >= limit {
      assert ts[j - limit] < ts[j] - WINDOW;
      assert ts[i] <= ts[j - limit];
    }
  }

  // ---- Idle keys are forgotten ----

  /** No key in the table was idle for a minute when the table was last cleaned. */
  ghost predicate Fresh(t: Table, clock: int) {
    match t.lastCleanup
    case None => t.entries == map[]
    case Some(c) => c <= clock && forall k | k in t.entries :: t.entries[k] != [] && t.entries[k][|t.entries[k]| - 1] >= c - WINDOW
  }

  lemma CleanedIsFresh(t: Table, now: int)
    requires Fresh(t, now)
    ensures Fresh(Cleaned(t, now), now) && Cleaned(t, now).lastCleanup.Some? && now - Cleaned(t, now).lastCleanup.value < WINDOW
  {
  }

  ghost predicate NoneIdle(t: Table, now: int) {
    forall k | k in t.entries :: t.entries[k] != [] && t.entries[k][|t.entries[k]| - 1] > now - 120_000_000_000
  }

  lemma FreshIsActive(t: Table, now: int)
    requires Fresh(t, now) && t.lastCleanup.Some? && now - t.lastCleanup.value < WINDOW
    ensures NoneIdle(t, now)
  {
  }

  lemma SetKeepsFresh(t: Table, key: string, requests: seq<int>, now: int)
    requires Fresh(t, now) && t.lastCleanup.Some? && requests != [] && requests[|requests| - 1] >= t.lastCleanup.value - WINDOW
    ensures Fresh(t.(entries := t.entries[key := requests]), now)
  {
  }

  lemma NextIsFresh(t: Table, key: string, limit: int, now: int)
    requires Fresh(t, now) && limit > 0
    ensures var n := Next(t, key, limit, now); Fresh(n, now) && n.lastCleanup.Some? && now - n.lastCleanup.value < WINDOW
  {
    CleanedIsFresh(t, now);
    var c := Cleaned(t, now);
    var recent := TrimOld(RequestsOf(c, key), now - WINDOW);
    TrimOldSuffix(RequestsOf(c, key), now - WINDOW);
    if !TableFull(c, key) {
      SetKeepsFresh(c, key, if |recent| >= limit then recent else recent + [now], now);
    }
  }

  /** After every request of a run, no key is left whose last accept is two minutes old. */
  lemma {:induction false} IdleKeysGo(t: Table, h: seq<Accept>, reqs: seq<Request>, clock: int)
    requires Fresh(t, clock) && ClockOk(reqs, clock) && reqs != [] && forall r | r in reqs :: r.limit > 0
    ensures NoneIdle(Serve(t, h, reqs).table, reqs[|reqs| - 1].now)
    decreases |reqs|
  {
    var r, rest := reqs[0], reqs[1..];
    assert r in reqs && forall q | q in rest :: q in reqs;
    NextIsFresh(t, r.key, r.limit, r.now);
    var next, h' := Next(t, r.key, r.limit, r.now), Recorded(t, h, r.key, r.limit, r.now);
    if rest == [] {
      FreshIsActive(next, r.now);
      assert Serve(next, h', rest).table == next;
    } else {
      IdleKeysGo(next, h', rest, r.now);
    }
  }

  /** The limiter as the server keeps it. */
  class RequestRateLimiter {
    var entries: map<string, seq<int>>
    var lastCleanup: Option<int>

    ghost function Snapshot(): Table
      reads this
    {
      Table(entries, lastCleanup)
    }

    constructor ()
      ensures Snapshot() == Table(map[], None)
    {
      entries, lastCleanup := map[], None;
    }

    method Cleanup(now: int)
      modifies this
      ensures Snapshot() == Cleaned(old(Snapshot()), now)
    {
      if lastCleanup.None? || now - lastCleanup.value >= WINDOW {
        var todo := entries.Keys;
        while todo != {}
          invariant todo <= old(entries).Keys
          invariant entries == map k | k in old(entries) && (k in todo || !Idle(old(entries)[k], now - WINDOW)) :: old(entries)[k]
          decreases todo
        {
          var key :| key in todo;
          todo := todo - {key};
          if |entries[key]| == 0 || entries[key][|entries[key]| - 1] < now - WINDOW {
            entries := entries - {key};
          }
        }
        lastCleanup := Some(now);
      }
    }

    method Allow(key: string, limit: int, now: int) returns (ok: bool)
      modifies this
      ensures ok == Allows(old(Snapshot()), key, limit, now)
      ensures Snapshot() == Next(old(Snapshot()), key, limit, now)
    {
      if limit <= 0 {
        return true;
      }
      var cutoff := now - WINDOW;
      Cleanup(now);
      if key !in entries && |entries| >= MAX_KEYS {
        return false;
      }
      var requests := if key in entries then entries[key] else [];
      var first := 0;
      while first < |requests| && requests[first] < cutoff
        invariant first <= |requests| && TrimOld(requests, cutoff) == TrimOld(requests[first..], cutoff)
      {
        first := first + 1;
      }
      requests := requests[first..];
      if |requests| >= limit {
        entries := entries[key := requests];
        return false;
      }
      entries := entries[key := requests + [now]];
      ok := true;
    }
  }
}
