/** The keyed lock manager of `internal/api/workspace_locks.go`: reference-counted entries that are
    created on demand and reclaimed, with one atomic step per critical section.

    `Manager` is the shared state together with the local state of every call in flight. It is
    parameterised by the type `C` of calls and the type `E` of entry objects, so that the same
    theorems hold of the heap objects of class `LockTable`. */
module WorkspaceLocks {
  /** Where a call stands: registered but without the entry's mutex, holding it, or past it with
      its reference still counted. */
  datatype Phase = Waiting | Holding | Leaving

  datatype Call<E> = Call(key: string, entry: E, phase: Phase)

  datatype Manager<!C(==), !E(==)> = Manager(
    entries: map<string, E>,
    refs: map<E, int>,
    locked: set<E>,
    calls: map<C, Call<E>>)

  datatype Action<C, E> =
    | Register(call: C, key: string, spare: E)  // first section: find or create, then count
    | Acquire(call: C)                          // mutex Lock, or a TryLock that succeeds
    | TryFail(call: C)                          // a TryLock that fails
    | Unlock(call: C)                           // mutex Unlock
    | Unregister(call: C)                       // last section: uncount, then reclaim

  predicate Enabled<C, E>(m: Manager<C, E>, a: Action<C, E>) {
    match a
    case Register(c, key, spare) => c !in m.calls && spare !in m.refs && key != ""
    case Acquire(c) => c in m.calls && m.calls[c].phase == Waiting && m.calls[c].entry !in m.locked
    case TryFail(c) => c in m.calls && m.calls[c].phase == Waiting && m.calls[c].entry in m.locked
    case Unlock(c) => c in m.calls && m.calls[c].phase == Holding
    case Unregister(c) => c in m.calls && m.calls[c].phase == Leaving && m.calls[c].entry in m.refs
  }

  function Apply<C, E>(m: Manager<C, E>, a: Action<C, E>): Manager<C, E>
    requires Enabled(m, a)
  {
    match a
    case Register(c, key, spare) =>
      var e := if key in m.entries then m.entries[key] else spare;
      m.(entries := m.entries[key := e],
         refs := m.refs[e := (if e in m.refs then m.refs[e] else 0) + 1],
         calls := m.calls[c := Call(key, e, Waiting)])
    case Acquire(c) =>
      m.(locked := m.locked + {m.calls[c].entry}, calls := m.calls[c := m.calls[c].(phase := Holding)])
    case TryFail(c) =>
      m.(calls := m.calls[c := m.calls[c].(phase := Leaving)])
    case Unlock(c) =>
      m.(locked := m.locked - {m.calls[c].entry}, calls := m.calls[c := m.calls[c].(phase := Leaving)])
    case Unregister(c) =>
      var Call(key, e, _) := m.calls[c];
      var n := m.refs[e] - 1;
      m.(refs := m.refs[e := n],
         entries := if n == 0 && key in m.entries && m.entries[key] == e then m.entries - {key} else m.entries,
         calls := m.calls - {c})
  }

  function Empty<C, E>(): Manager<C, E> {
    Manager(map[], map[], {}, map[])
  }

  /** The calls whose reference is counted in entry `e`. */
  ghost function Registered<C, E>(m: Manager<C, E>, e: E): set<C> {
    set c | c in m.calls && m.calls[c].entry == e
  }

  /** Every call's entry is the one its key maps to, so calls on a key share one entry. */
  ghost predicate Shared<C, E>(m: Manager<C, E>) {
    forall c | c in m.calls :: m.calls[c].key in m.entries && m.entries[m.calls[c].key] == m.calls[c].entry
  }

  ghost predicate Distinct<C, E>(m: Manager<C, E>) {
    forall k, l | k in m.entries && l in m.entries && m.entries[k] == m.entries[l] :: k == l
  }

  ghost predicate Positive<C, E>(m: Manager<C, E>) {
    forall k | k in m.entries :: m.entries[k] in m.refs && m.refs[m.entries[k]] > 0
  }

  ghost predicate Counted<C, E>(m: Manager<C, E>) {
    forall e | e in m.refs :: m.refs[e] == |Registered(m, e)|
  }

  ghost predicate Holds<C, E>(m: Manager<C, E>, c: C) {
    c in m.calls && m.calls[c].phase == Holding
  }

  /** A mutex is locked exactly when a call holds it, and never by two calls. */
  ghost predicate Exclusive<C, E>(m: Manager<C, E>) {
    && m.locked == (set c | c in m.calls && Holds(m, c) :: m.calls[c].entry)
    && (forall c, d | c in m.calls && d in m.calls && Holds(m, c) && Holds(m, d) && m.calls[c].entry == m.calls[d].entry :: c == d)
  }

  /** The invariant of every interleaving. */
  ghost predicate Inv<C, E>(m: Manager<C, E>) {
    Shared(m) && Distinct(m) && Positive(m) && Counted(m) && Exclusive(m)
  }

  /** A spare entry has no call registered on it. */
  lemma SpareUnused<C, E>(m: Manager<C, E>, spare: E)
    requires Shared(m) && Positive(m) && spare !in m.refs
    ensures Registered(m, spare) == {} && spare !in m.entries.Values
  {
    assert forall c | c in m.calls :: m.entries[m.calls[c].key] in m.refs;
  }

  lemma RegisterCounts<C, E>(m: Manager<C, E>, c: C, key: string, spare: E)
    requires Shared(m) && Positive(m) && Counted(m) && Enabled(m, Register(c, key, spare))
    ensures Counted(Apply(m, Register(c, key, spare)))
  {
    var m' := Apply(m, Register(c, key, spare));
    SpareUnused(m, spare);
    forall x | x in m'.refs ensures m'.refs[x] == |Registered(m', x)| {
      if x == m'.calls[c].entry {
        assert Registered(m', x) == Registered(m, x) + {c};
      } else {
        assert Registered(m', x) == Registered(m, x);
      }
    }
  }

  lemma RegisterKeeps<C, E>(m: Manager<C, E>, c: C, key: string, spare: E)
    requires Inv(m) && Enabled(m, Register(c, key, spare))
    ensures Inv(Apply(m, Register(c, key, spare)))
  {
    var m' := Apply(m, Register(c, key, spare));
    SpareUnused(m, spare);
    RegisterCounts(m, c, key, spare);
    assert Exclusive(m') by {
      assert forall d | d in m'.calls :: Holds(m', d) <==> Holds(m, d);
      assert forall d | d in m.calls :: m'.calls[d] == m.calls[d];
    }
  }

  lemma PhaseCounts<C, E>(m: Manager<C, E>, a: Action<C, E>)
    requires Counted(m) && Enabled(m, a) && (a.Acquire? || a.TryFail? || a.Unlock?)
    ensures Counted(Apply(m, a))
  {
    var m' := Apply(m, a);
    forall x | x in m'.refs ensures m'.refs[x] == |Registered(m', x)| {
      assert Registered(m', x) == Registered(m, x);
    }
  }

  lemma PhaseExcludes<C, E>(m: Manager<C, E>, a: Action<C, E>)
    requires Exclusive(m) && Enabled(m, a) && (a.Acquire? || a.TryFail? || a.Unlock?)
    ensures Exclusive(Apply(m, a))
  {
    var m' := Apply(m, a);
    var c := a.call;
    assert forall d | d in m.calls && d != c :: (Holds(m', d) <==> Holds(m, d)) && m'.calls[d] == m.calls[d];
    assert m'.calls[c].entry == m.calls[c].entry;
    match a
    case Acquire(_) => assert Holds(m', c);
    case TryFail(_) => assert !Holds(m', c) && !Holds(m, c);
    case Unlock(_) => assert Holds(m, c) && !Holds(m', c);
  }

  lemma UnregisterCounts<C, E>(m: Manager<C, E>, c: C)
    requires Counted(m) && Enabled(m, Unregister(c))
    ensures Counted(Apply(m, Unregister(c)))
  {
    var m' := Apply(m, Unregister(c));
    forall x | x in m'.refs ensures m'.refs[x] == |Registered(m', x)| {
      if x == m.calls[c].entry {
        assert Registered(m, x) == Registered(m', x) + {c};
      } else {
        assert Registered(m', x) == Registered(m, x);
      }
    }
  }

  lemma UnregisterShares<C, E>(m: Manager<C, E>, c: C)
    requires Shared(m) && Counted(m) && Enabled(m, Unregister(c))
    ensures Shared(Apply(m, Unregister(c)))
  {
    var m' := Apply(m, Unregister(c));
    var e := m.calls[c].entry;
    UnregisterCounts(m, c);
    forall d | d in m'.calls
      ensures m'.calls[d].key in m'.entries && m'.entries[m'.calls[d].key] == m'.calls[d].entry
    {
      if m'.calls[d].key == m.calls[c].key {
        assert d in Registered(m', e);
      }
    }
  }

  lemma UnregisterExcludes<C, E>(m: Manager<C, E>, c: C)
    requires Exclusive(m) && Enabled(m, Unregister(c))
    ensures Exclusive(Apply(m, Unregister(c)))
  {
    assert forall d | d in m.calls :: Holds(Apply(m, Unregister(c)), d) <==> Holds(m, d);
  }

  lemma UnregisterPositive<C, E>(m: Manager<C, E>, c: C)
    requires Shared(m) && Distinct(m) && Positive(m) && Enabled(m, Unregister(c))
    ensures Distinct(Apply(m, Unregister(c))) && Positive(Apply(m, Unregister(c)))
  {
  }

  lemma UnregisterKeeps<C, E>(m: Manager<C, E>, c: C)
    requires Inv(m) && Enabled(m, Unregister(c))
    ensures Inv(Apply(m, Unregister(c)))
  {
    UnregisterCounts(m, c);
    UnregisterShares(m, c);
    UnregisterExcludes(m, c);
    UnregisterPositive(m, c);
  }

  lemma StepKeepsInv<C, E>(m: Manager<C, E>, a: Action<C, E>)
    requires Inv(m) && Enabled(m, a)
    ensures Inv(Apply(m, a))
  {
    match a
    case Register(c, key, spare) => RegisterKeeps(m, c, key, spare);
    case Unregister(c) => UnregisterKeeps(m, c);
    case _ => PhaseCounts(m, a); PhaseExcludes(m, a);
  }

  /** An interleaving of critical sections that can happen from `m`. */
  ghost predicate Legal<C, E>(m: Manager<C, E>, run: seq<Action<C, E>>)
    decreases |run|
  {
    run == [] || (Enabled(m, run[0]) && Legal(Apply(m, run[0]), run[1..]))
  }

  ghost function After<C, E>(m: Manager<C, E>, run: seq<Action<C, E>>): Manager<C, E>
    requires Legal(m, run)
    decreases |run|
  {
    if run == [] then m else After(Apply(m, run[0]), run[1..])
  }

  lemma {:induction false} RunKeepsInv<C, E>(m: Manager<C, E>, run: seq<Action<C, E>>)
    requires Inv(m) && Legal(m, run)
    ensures Inv(After(m, run))
    decreases |run|
  {
    if run != [] {
      StepKeepsInv(m, run[0]);
      RunKeepsInv(Apply(m, run[0]), run[1..]);
    }
  }

  /** The state an interleaving reaches from a manager that has never been used. */
  ghost function Reached<C, E>(run: seq<Action<C, E>>): (m: Manager<C, E>)
    requires Legal<C, E>(Empty(), run)
    ensures Inv(m)
  {
    RunKeepsInv<C, E>(Empty(), run);
    After(Empty(), run)
  }

  /** Mutual exclusion per key, across creation, reclamation and failed attempts. */
  lemma MutualExclusion<C, E>(run: seq<Action<C, E>>, m: Manager<C, E>, c: C, d: C)
    requires Legal<C, E>(Empty(), run) && m == Reached(run)
    requires c in m.calls && d in m.calls && m.calls[c].key == m.calls[d].key
    ensures m.calls[c].entry == m.calls[d].entry
    ensures m.calls[c].phase == Holding && m.calls[d].phase == Holding ==> c == d
  {
  }

  /** Reference counts are exact: an entry is mapped exactly while some call is registered on it,
      and its count is the number of calls on its key. */
  lemma CountsAreExact<C, E>(run: seq<Action<C, E>>, m: Manager<C, E>, key: string)
    requires Legal<C, E>(Empty(), run) && m == Reached(run)
    ensures key in m.entries <==> exists c :: c in m.calls && m.calls[c].key == key
    ensures key in m.entries ==>
              && m.entries[key] in m.refs
              && m.refs[m.entries[key]] == |set c | c in m.calls && m.calls[c].key == key|
    ensures forall e | e in m.refs :: m.refs[e] >= 0 && (m.refs[e] > 0 <==> e in m.entries.Values)
  {
    if key in m.entries {
      var e := m.entries[key];
      assert Registered(m, e) == set c | c in m.calls && m.calls[c].key == key;
      var c :| c in Registered(m, e);
      assert c in m.calls && m.calls[c].key == key;
    }
    forall e | e in m.refs && m.refs[e] > 0 ensures e in m.entries.Values {
      var c :| c in Registered(m, e);
      assert m.calls[c].key in m.entries;
    }
  }

  /** Nothing is retained once every call has returned: no entry stays mapped and no mutex held. */
  lemma IdleManagerIsEmpty<C, E>(run: seq<Action<C, E>>, m: Manager<C, E>)
    requires Legal<C, E>(Empty(), run) && m == Reached(run) && m.calls == map[]
    ensures m.entries == map[] && m.locked == {}
  {
    if key :| key in m.entries {
      CountsAreExact(run, m, key);
    }
  }

  /** Once registered, an unregistration cannot be refused: its count is positive. */
  lemma LeavingCanUnregister<C, E>(m: Manager<C, E>, c: C)
    requires Inv(m) && c in m.calls && m.calls[c].phase == Leaving
    ensures Enabled(m, Unregister(c)) && m.refs[m.calls[c].entry] > 0
  {
    assert m.entries[m.calls[c].key] in m.refs;
  }

  class LockEntry {
    var locked: bool
    var refs: int

    constructor ()
      ensures !locked && refs == 0
    {
      locked, refs := false, 0;
    }
  }

  /** The manager as the program keeps it, one method per critical section. The ghost fields record
      the calls in flight and the entries ever created, so that `Snapshot` is a `Manager`. */
  class LockTable {
    var entries: map<string, LockEntry>
    ghost var calls: map<nat, Call<LockEntry>>
    ghost var created: set<LockEntry>

    ghost predicate Valid()
      reads this, created
    {
      && (forall k | k in entries :: entries[k] in created)
      && (forall c | c in calls :: calls[c].entry in created)
    }

    ghost function Snapshot(): Manager<nat, LockEntry>
      reads this, created
    {
      Manager(entries, map e | e in created :: e.refs, (set e | e in created && e.locked), calls)
    }

    constructor ()
      ensures Valid() && Snapshot() == Empty() && fresh(created)
    {
      entries, calls, created := map[], map[], {};
    }

    /** Lines 25-35 and 56-66: look the entry up or create it, and count this call. */
    method Register(key: string, ghost c: nat) returns (entry: LockEntry, ghost spare: LockEntry)
      requires Valid() && key != "" && c !in calls
      modifies this, created
      ensures Valid() && fresh(created - old(created))
      ensures spare !in old(Snapshot().refs)
      ensures Snapshot() == Apply(old(Snapshot()), Action.Register(c, key, spare))
      ensures entry == calls[c].entry
    {
      ghost var before := Snapshot();
      var made := new LockEntry();
      spare := made;
      if key in entries {
        entry := entries[key];
      } else {
        entry := made;
        entries := entries[key := entry];
        created := created + {entry};
      }
      entry.refs := entry.refs + 1;
      calls := calls[c := Call(key, entry, Waiting)];
      assert Snapshot().refs == Apply(before, Action.Register(c, key, spare)).refs;
      assert Snapshot().locked == before.locked;
    }

    /** `entry.mu.TryLock()` together with the phase the call enters. */
    method TryAcquire(entry: LockEntry, ghost c: nat) returns (ok: bool)
      requires Valid() && c in calls && calls[c] == Call(calls[c].key, entry, Waiting)
      modifies this`calls, entry`locked
      ensures Valid() && ok == !old(entry.locked)
      ensures Snapshot() == Apply(old(Snapshot()), if ok then Acquire(c) else TryFail(c))
    {
      ghost var before := Snapshot();
      ok := !entry.locked;
      if ok { entry.locked := true; }
      ghost var a := if ok then Acquire(c) else TryFail(c);
      calls := Apply(before, a).calls;
      assert Snapshot().locked == Apply(before, a).locked;
    }

    /** `entry.mu.Unlock()` of a call that holds it. */
    method Unlock(entry: LockEntry, ghost c: nat)
      requires Valid() && c in calls && calls[c] == Call(calls[c].key, entry, Holding)
      modifies this`calls, entry`locked
      ensures Valid()
      ensures Snapshot() == Apply(old(Snapshot()), Action.Unlock(c))
    {
      ghost var before := Snapshot();
      entry.locked := false;
      calls := Apply(before, Action.Unlock(c)).calls;
      assert Snapshot().locked == Apply(before, Action.Unlock(c)).locked;
    }

    /** Lines 40-45, 69-74 and 79-84: uncount this call and reclaim an entry nobody references. */
    method Unregister(key: string, entry: LockEntry, ghost c: nat)
      requires Valid() && c in calls && calls[c] == Call(key, entry, Leaving)
      modifies this, entry`refs
      ensures Valid() && created == old(created)
      ensures Snapshot() == Apply(old(Snapshot()), Action.Unregister(c))
    {
      ghost var before := Snapshot();
      entry.refs := entry.refs - 1;
      if entry.refs == 0 && key in entries && entries[key] == entry {
        entries := entries - {key};
      }
      calls := calls - {c};
      assert Snapshot().refs == Apply(before, Action.Unregister(c)).refs;
    }
  }
}
