/** Callers that take several workspace locks through `lockWorkspaceHashes`, or one through
    `tryLock`, starting with nothing held. Because each takes its keys in ascending order, no
    reachable state is deadlocked and every schedule ends with the manager empty again. */
module LockSessions {
  import opened Text
  import opened WorkspaceLocks

  /** A call is the position-th lock of a session; entries are numbered. */
  type CallId = (nat, nat)

  /** A session holds the first `held` keys of its plan, and is ...
        Locking    about to register on the next key, or in its critical section;
        Blocked    registered on the next key, waiting for its mutex;
        Unlocking  about to unlock the last key it holds;
        Reclaiming past unlocking key number `held`, which is still counted. */
  datatype Pc = Locking(held: nat) | Blocked(held: nat) | Unlocking(held: nat) | Reclaiming(held: nat)

  /** `tries` marks a `tryLock` caller, which never waits. */
  datatype Session = Session(plan: seq<string>, tries: bool, pc: Pc)

  datatype System = System(mgr: Manager<CallId, nat>, sessions: seq<Session>)

  predicate Done(s: Session) {
    s.pc == Unlocking(0)
  }

  /** A number above every member, so that a spare entry always exists. */
  ghost function Above(s: set<nat>): (n: nat)
    ensures forall x | x in s :: x < n
  {
    if s == {} then 0 else
      var x :| x in s;
      var rest := Above(s - {x});
      assert forall y | y in s :: y == x || y in s - {x};
      if x < rest then rest else x + 1
  }

  /** The critical section of the manager a session executes next, if any. */
  ghost function NextAction(sys: System, t: nat): (r: seq<Action<CallId, nat>>)
    requires t < |sys.sessions|
  {
    var Session(plan, tries, pc) := sys.sessions[t];
    match pc
    case Locking(k) =>
      if k < |plan| then [Register((t, k), plan[k], Above(sys.mgr.refs.Keys))] else []
    case Blocked(k) =>
      if tries && !Enabled(sys.mgr, Acquire((t, k))) then [TryFail((t, k))] else [Acquire((t, k))]
    case Unlocking(k) => if k > 0 then [Unlock((t, k - 1))] else []
    case Reclaiming(k) => [Unregister((t, k))]
  }

  function Advance(s: Session, failed: bool): Session
    requires !Done(s)
  {
    s.(pc := match s.pc
       case Locking(k) => if k < |s.plan| then Blocked(k) else Unlocking(k)
       case Blocked(k) => if failed then Reclaiming(k) else Locking(k + 1)
       case Unlocking(k) => Reclaiming(k - 1)
       case Reclaiming(k) => Unlocking(k))
  }

  ghost predicate CanStep(sys: System, t: nat) {
    && t < |sys.sessions| && !Done(sys.sessions[t])
    && (NextAction(sys, t) == [] || Enabled(sys.mgr, NextAction(sys, t)[0]))
  }

  ghost function Step(sys: System, t: nat): System
    requires CanStep(sys, t)
  {
    var acts := NextAction(sys, t);
    System(if acts == [] then sys.mgr else Apply(sys.mgr, acts[0]),
           sys.sessions[t := Advance(sys.sessions[t], acts != [] && acts[0].TryFail?)])
  }

  /** The phase of the i-th call of a session, if that call is in flight. */
  function Expected(s: Session, i: nat): seq<Phase> {
    if i < s.pc.held then [Holding]
    else if i == s.pc.held && s.pc.Blocked? then [Waiting]
    else if i == s.pc.held && s.pc.Reclaiming? then [Leaving]
    else []
  }

  ghost predicate WellPlanned(s: Session) {
    && Ascending(s.plan) && "" !in s.plan
    && s.pc.held <= |s.plan| && (s.pc.Blocked? || s.pc.Reclaiming? ==> s.pc.held < |s.plan|)
  }

  /** Whether call `c` is in flight, and as what, is exactly what its session's counter says. */
  ghost predicate CallOk(sys: System, c: CallId) {
    if c.0 < |sys.sessions| && c.1 < |sys.sessions[c.0].plan| && Expected(sys.sessions[c.0], c.1) != [] then
      && c in sys.mgr.calls
      && sys.mgr.calls[c].phase == Expected(sys.sessions[c.0], c.1)[0]
      && sys.mgr.calls[c].key == sys.sessions[c.0].plan[c.1]
    else
      c !in sys.mgr.calls
  }

  ghost predicate Agrees(sys: System) {
    forall c: CallId :: CallOk(sys, c)
  }

  ghost predicate AllPlanned(sys: System) {
    forall t | 0 <= t < |sys.sessions| :: WellPlanned(sys.sessions[t])
  }

  ghost predicate SystemInv(sys: System) {
    Inv(sys.mgr) && Agrees(sys) && AllPlanned(sys)
  }

  ghost predicate Starting(sys: System) {
    && sys.mgr == Empty()
    && forall t | 0 <= t < |sys.sessions| ::
         Ascending(sys.sessions[t].plan) && "" !in sys.sessions[t].plan && sys.sessions[t].pc == Locking(0)
  }

  lemma StepAgrees(sys: System, t: nat, c: CallId)
    requires CanStep(sys, t) && WellPlanned(sys.sessions[t]) && CallOk(sys, c)
    ensures CallOk(Step(sys, t), c)
  {
  }

  lemma StepKeepsSystemInv(sys: System, t: nat)
    requires SystemInv(sys) && CanStep(sys, t)
    ensures SystemInv(Step(sys, t))
  {
    forall c: CallId ensures CallOk(Step(sys, t), c) {
      StepAgrees(sys, t, c);
    }
    if NextAction(sys, t) != [] {
      StepKeepsInv(sys.mgr, NextAction(sys, t)[0]);
    }
    assert AllPlanned(Step(sys, t)) by {
      assert WellPlanned(sys.sessions[t]);
      assert WellPlanned(Step(sys, t).sessions[t]);
    }
  }

  /** The only way not to be able to step is to wait for a mutex another call holds. */
  lemma StuckMeansWaiting(sys: System, t: nat)
    requires Inv(sys.mgr) && t < |sys.sessions| && WellPlanned(sys.sessions[t])
    requires CallOk(sys, (t, sys.sessions[t].pc.held))
    requires sys.sessions[t].pc.held > 0 ==> CallOk(sys, (t, sys.sessions[t].pc.held - 1))
    requires !Done(sys.sessions[t]) && !CanStep(sys, t)
    ensures var s := sys.sessions[t]; var k := s.pc.held;
            && s.pc.Blocked? && (t, k) in sys.mgr.calls && sys.mgr.calls[(t, k)].key == s.plan[k]
            && sys.mgr.calls[(t, k)].entry in sys.mgr.locked
  {
  }

  /** The session that holds what a blocked session waits for holds the very same key. */
  lemma HolderOf(sys: System, t: nat) returns (u: nat, i: nat)
    requires SystemInv(sys) && t < |sys.sessions| && !Done(sys.sessions[t]) && !CanStep(sys, t)
    ensures u < |sys.sessions| && i < sys.sessions[u].pc.held <= |sys.sessions[u].plan|
    ensures sys.sessions[t].pc.Blocked? && sys.sessions[u].plan[i] == sys.sessions[t].plan[sys.sessions[t].pc.held]
  {
    StuckMeansWaiting(sys, t);
    var k := sys.sessions[t].pc.held;
    var e := sys.mgr.calls[(t, k)].entry;
    var c :| c in sys.mgr.calls && Holds(sys.mgr, c) && sys.mgr.calls[c].entry == e;
    assert sys.mgr.entries[sys.mgr.calls[c].key] == sys.mgr.entries[sys.mgr.calls[(t, k)].key];
    assert CallOk(sys, c);
    u, i := c.0, c.1;
  }

  /** The planned keys that follow `key`: what a chain of waiting sessions can still climb. */
  ghost function KeysAfter(sys: System, key: string): set<string> {
    set t, i | 0 <= t < |sys.sessions| && 0 <= i < |sys.sessions[t].plan| && Less(key, sys.sessions[t].plan[i])
      :: sys.sessions[t].plan[i]
  }

  lemma KeysAfterShrink(sys: System, t: nat, i: nat, j: nat)
    requires t < |sys.sessions| && i < j < |sys.sessions[t].plan| && Ascending(sys.sessions[t].plan)
    ensures KeysAfter(sys, sys.sessions[t].plan[j]) < KeysAfter(sys, sys.sessions[t].plan[i])
  {
    var a, b := sys.sessions[t].plan[i], sys.sessions[t].plan[j];
    LessIrreflexive(b);
    assert b in KeysAfter(sys, a) && b !in KeysAfter(sys, b);
    forall x | x in KeysAfter(sys, b) ensures x in KeysAfter(sys, a) {
      LessTransitive(a, b, x);
    }
  }

  /** From any unfinished session, following "waits for" leads to one that can step. */
  lemma FindRunnable(sys: System, t: nat) returns (u: nat)
    requires SystemInv(sys) && t < |sys.sessions| && !Done(sys.sessions[t])
    ensures CanStep(sys, u)
    decreases if sys.sessions[t].pc.Blocked? && sys.sessions[t].pc.held < |sys.sessions[t].plan|
              then KeysAfter(sys, sys.sessions[t].plan[sys.sessions[t].pc.held]) else {}
  {
    if CanStep(sys, t) {
      return t;
    }
    var v, i := HolderOf(sys, t);
    if CanStep(sys, v) {
      return v;
    }
    StuckMeansWaiting(sys, v);
    KeysAfterShrink(sys, v, i, sys.sessions[v].pc.held);
    u := FindRunnable(sys, v);
  }

  /** Deadlock freedom: while a session is unfinished, some session can step. */
  lemma NoDeadlock(sys: System)
    requires SystemInv(sys) && exists t :: 0 <= t < |sys.sessions| && !Done(sys.sessions[t])
    ensures exists u: nat :: CanStep(sys, u)
  {
    var t :| 0 <= t < |sys.sessions| && !Done(sys.sessions[t]);
    var u := FindRunnable(sys, t);
  }

  /** Steps a session can still take at most. */
  ghost function Work(s: Session): nat {
    var n := if s.pc.held <= |s.plan| then |s.plan| - s.pc.held else 0;
    match s.pc
    case Locking(k) => 2 * n + 1 + 2 * |s.plan|
    case Blocked(k) => 2 * n + 2 * |s.plan|
    case Unlocking(k) => 2 * k
    case Reclaiming(k) => 2 * k + 1
  }

  ghost function TotalWork(ss: seq<Session>): nat {
    if ss == [] then 0 else Work(ss[0]) + TotalWork(ss[1..])
  }

  lemma {:induction false} WorkUpdate(ss: seq<Session>, t: nat, s: Session)
    requires t < |ss|
    ensures TotalWork(ss[t := s]) == TotalWork(ss) - Work(ss[t]) + Work(s)
  {
    if t == 0 {
      assert ss[0 := s][1..] == ss[1..];
    } else {
      assert ss[t := s][1..] == ss[1..][t - 1 := s];
      WorkUpdate(ss[1..], t - 1, s);
    }
  }

  lemma StepUsesWork(sys: System, t: nat)
    requires CanStep(sys, t) && WellPlanned(sys.sessions[t])
    ensures TotalWork(Step(sys, t).sessions) < TotalWork(sys.sessions)
  {
    WorkUpdate(sys.sessions, t, Step(sys, t).sessions[t]);
  }

  ghost predicate LegalSchedule(sys: System, sched: seq<nat>)
    decreases |sched|
  {
    sched == [] || (CanStep(sys, sched[0]) && LegalSchedule(Step(sys, sched[0]), sched[1..]))
  }

  ghost function AfterSchedule(sys: System, sched: seq<nat>): System
    requires LegalSchedule(sys, sched)
    decreases |sched|
  {
    if sched == [] then sys else AfterSchedule(Step(sys, sched[0]), sched[1..])
  }

  /** The invariant holds throughout, and every step uses up work. */
  lemma {:induction false} ScheduleKeeps(sys: System, sched: seq<nat>)
    requires SystemInv(sys) && LegalSchedule(sys, sched)
    ensures SystemInv(AfterSchedule(sys, sched))
    ensures |sched| + TotalWork(AfterSchedule(sys, sched).sessions) <= TotalWork(sys.sessions)
    decreases |sched|
  {
    if sched != [] {
      var t := sched[0];
      StepKeepsSystemInv(sys, t);
      StepUsesWork(sys, t);
      ScheduleKeeps(Step(sys, t), sched[1..]);
    }
  }

  /** Every schedule is bounded, and one that cannot be continued has let every session lock, run and
      unlock, leaving the lock table as empty as it was. */
  lemma EverySessionFinishes(sys: System, sched: seq<nat>)
    requires Starting(sys) && LegalSchedule(sys, sched)
    ensures |sched| <= TotalWork(sys.sessions)
    ensures var end := AfterSchedule(sys, sched);
            (forall u: nat :: !CanStep(end, u)) ==>
              && (forall t | 0 <= t < |end.sessions| :: Done(end.sessions[t]))
              && end.mgr.calls == map[] && end.mgr.entries == map[] && end.mgr.locked == {}
  {
    ScheduleKeeps(sys, sched);
    var end := AfterSchedule(sys, sched);
    if forall u: nat :: !CanStep(end, u) {
      if exists t :: 0 <= t < |end.sessions| && !Done(end.sessions[t]) {
        NoDeadlock(end);
        assert false;
      }
      forall c: CallId ensures c !in end.mgr.calls {
        assert CallOk(end, c);
        assert c.0 < |end.sessions| ==> Done(end.sessions[c.0]);
      }
    }
  }

  /** The keys `lockWorkspaceHashes` locks, in order: trimmed, without blanks or repetitions, sorted. */
  method LockOrder(hashes: seq<string>) returns (ordered: seq<string>)
    ensures Ascending(ordered)
    ensures forall k :: k in ordered <==> k != "" && exists i :: 0 <= i < |hashes| && Trim(hashes[i]) == k
  {
    var unique := UniqueHashes((s: string) => Trim(s), hashes);
    ordered := SortStrings(unique);
  }

  method UniqueHashes(trim: string -> string, hashes: seq<string>) returns (out: seq<string>)
    ensures forall a, b | 0 <= a < b < |out| :: out[a] != out[b]
    ensures forall k :: k in out <==> k != "" && exists i :: 0 <= i < |hashes| && trim(hashes[i]) == k
  {
    var unique: set<string> := {};
    out := [];
    for i := 0 to |hashes|
      invariant unique == (set k | k in out)
      invariant forall a, b | 0 <= a < b < |out| :: out[a] != out[b]
      invariant forall k :: k in out <==> k != "" && exists j :: 0 <= j < i && trim(hashes[j]) == k
    {
      var hash := trim(hashes[i]);
      if hash != "" && hash !in unique {
        unique := unique + {hash};
        out := out + [hash];
      }
    }
  }
}
