/** Admission of refresh runs in `internal/api/refresh.go`: a run claims one or two keys and one slot in
    a single critical section, and gives all of them back in another; closing its channel comes last,
    outside the mutex. */
module RefreshAdmission {
  import opened Common
  import opened Text

  const SERVICE_KEY := "\0service"

  /** `refreshRunKeys`, for an output path that has been trimmed and cleaned ("" for none). */
  function RunKeys(workspaceHash: string, outputPath: string): (keys: seq<string>)
    ensures 1 <= |keys| <= 2
    ensures forall i, j | 0 <= i < j < |keys| :: keys[i] != keys[j]
    ensures keys[0] == SERVICE_KEY <==> Trim(workspaceHash) == ""
  {
    var owner := if Trim(workspaceHash) == "" then SERVICE_KEY else "workspace:" + Trim(workspaceHash);
    assert owner[0] != 'o' && SERVICE_KEY[0] != 'w';
    if outputPath == "" then [owner]
    else
      assert ("output:" + outputPath)[0] == 'o';
      [owner, "output:" + outputPath]
  }

  /** Two runs contend exactly if they are for the same workspace, or both for the service, or write the same file. */
  lemma ContendIff(hash1: string, path1: string, hash2: string, path2: string)
    ensures (exists k :: k in RunKeys(hash1, path1) && k in RunKeys(hash2, path2))
            <==> Trim(hash1) == Trim(hash2) || (path1 == path2 && path1 != "")
  {
    var a, b := RunKeys(hash1, path1), RunKeys(hash2, path2);
    assert a[0] in a && b[0] in b;
    OwnersDiffer(Trim(hash1), Trim(hash2));
    if path1 != "" && path2 != "" {
      assert a[1] in a && b[1] in b;
      assert (path1 == path2) == (a[1] == b[1]) by { assert ("output:" + path1)[7..] == path1 && ("output:" + path2)[7..] == path2; }
    }
    assert a[0][0] != 'o' && b[0][0] != 'o';
  }

  lemma OwnersDiffer(a: string, b: string)
    ensures "workspace:" + a == "workspace:" + b ==> a == b
  {
    assert ("workspace:" + a)[10..] == a && ("workspace:" + b)[10..] == b;
  }

  /** What `refreshMu` protects; channels are numbered. */
  datatype Gate = Gate(runs: map<string, nat>, slots: nat, refreshing: bool)

  datatype Outcome = Admitted | InProgress | Full

  function Admission(g: Gate, keys: seq<string>, capacity: nat): Outcome {
    if exists i :: 0 <= i < |keys| && keys[i] in g.runs then InProgress
    else if g.slots >= capacity then Full
    else Admitted
  }

  function Claim(g: Gate, keys: seq<string>, done: nat): Gate {
    Gate(g.runs + (map k | k in keys :: done), g.slots + 1, true)
  }

  predicate Owns(g: Gate, key: string, keys: seq<string>, done: nat) {
    key in g.runs && key in keys && g.runs[key] == done
  }

  predicate Releases(g: Gate, keys: seq<string>, done: nat) {
    exists i :: 0 <= i < |keys| && Owns(g, keys[i], keys, done)
  }

  /** The section of `finishRefresh`; receiving the slot would block on an empty channel. */
  function Release(g: Gate, keys: seq<string>, done: nat): Gate
    requires Releases(g, keys, done) ==> g.slots > 0
  {
    var slots := if Releases(g, keys, done) then g.slots - 1 else g.slots;
    Gate(map k | k in g.runs && !Owns(g, k, keys, done) :: g.runs[k], slots, slots > 0)
  }

  datatype Phase = Running | Closing

  datatype Run = Run(keys: seq<string>, done: nat, phase: Phase)

  /** `used` is history: the channels ever made. */
  datatype State = State(gate: Gate, capacity: nat, active: map<nat, Run>, closed: set<nat>, used: set<nat>)

  datatype Action =
    | Start(run: nat, keys: seq<string>, done: nat)
    | Finish(run: nat)
    | Close(run: nat)

  ghost predicate Enabled(s: State, a: Action) {
    match a
    case Start(r, keys, done) => r !in s.active && keys != [] && Distinct(keys) && done !in s.used
    case Finish(r) => r in s.active && s.active[r].phase == Running
    case Close(r) => r in s.active && s.active[r].phase == Closing
  }

  /** A finish never waits for a slot, and a channel is never closed twice (see `FinishNeverBlocks`). */
  ghost function Apply(s: State, a: Action): State
    requires Enabled(s, a)
  {
    match a
    case Start(r, keys, done) =>
      if Admission(s.gate, keys, s.capacity) != Admitted then s
      else s.(gate := Claim(s.gate, keys, done), active := s.active[r := Run(keys, done, Running)], used := s.used + {done})
    case Finish(r) =>
      var Run(keys, done, _) := s.active[r];
      if Releases(s.gate, keys, done) && s.gate.slots > 0
      then s.(gate := Release(s.gate, keys, done), active := s.active[r := Run(keys, done, Closing)])
      else s
    case Close(r) => s.(closed := s.closed + {s.active[r].done}, active := s.active - {r})
  }

  ghost function RunningSet(s: State): set<nat> {
    set r | r in s.active && s.active[r].phase == Running
  }

  /** A running run owns all its keys. */
  ghost predicate KeysHeld(s: State) {
    forall r, k | r in s.active && s.active[r].phase == Running && k in s.active[r].keys ::
      k in s.gate.runs && s.gate.runs[k] == s.active[r].done
  }

  /** A claimed key has its owner among the running runs. */
  ghost predicate KeysOwned(s: State) {
    forall k | k in s.gate.runs :: HasOwner(s, k)
  }

  ghost predicate HasOwner(s: State, key: string) {
    exists r :: r in s.active && s.active[r].phase == Running && key in s.active[r].keys
  }

  ghost predicate ChannelsFresh(s: State) {
    && (forall r | r in s.active :: s.active[r].done in s.used && s.active[r].done !in s.closed && s.active[r].keys != [])
    && (forall q, r | q in s.active && r in s.active && s.active[q].done == s.active[r].done :: q == r)
    && s.closed <= s.used
  }

  ghost predicate SlotsCounted(s: State) {
    s.gate.slots == |RunningSet(s)| <= s.capacity && (s.gate.refreshing <==> s.gate.slots > 0)
  }

  ghost predicate Inv(s: State) {
    KeysHeld(s) && KeysOwned(s) && ChannelsFresh(s) && SlotsCounted(s)
  }

  /** A running run releases its keys and its slot when it finishes, without blocking. */
  lemma FinishNeverBlocks(s: State, r: nat)
    requires Inv(s) && Enabled(s, Finish(r))
    ensures Releases(s.gate, s.active[r].keys, s.active[r].done) && s.gate.slots > 0
    ensures s.active[r].done !in s.closed
  {
    assert s.active[r].keys[0] in s.active[r].keys;
    assert Owns(s.gate, s.active[r].keys[0], s.active[r].keys, s.active[r].done);
    assert r in RunningSet(s);
  }

  ghost predicate Admits(s: State, r: nat, keys: seq<string>, done: nat) {
    Enabled(s, Start(r, keys, done)) && Admission(s.gate, keys, s.capacity) == Admitted
  }

  lemma StartHolds(s: State, r: nat, keys: seq<string>, done: nat)
    requires KeysHeld(s) && KeysOwned(s) && Admits(s, r, keys, done)
    ensures KeysHeld(Apply(s, Start(r, keys, done))) && KeysOwned(Apply(s, Start(r, keys, done)))
  {
    var s' := Apply(s, Start(r, keys, done));
    assert s'.active == s.active[r := Run(keys, done, Running)];
    forall k | k in s'.gate.runs ensures HasOwner(s', k) {
      if k in keys {
        assert k in s'.active[r].keys;
      } else {
        assert HasOwner(s, k);
        var q :| q in s.active && s.active[q].phase == Running && k in s.active[q].keys;
        assert s'.active[q] == s.active[q];
      }
    }
    forall q, k | q in s'.active && s'.active[q].phase == Running && k in s'.active[q].keys
      ensures k in s'.gate.runs && s'.gate.runs[k] == s'.active[q].done
    {
      if q != r {
        assert k in s.gate.runs;
        assert k !in keys;
      }
    }
  }

  lemma StartKeeps(s: State, r: nat, keys: seq<string>, done: nat)
    requires ChannelsFresh(s) && SlotsCounted(s) && Admits(s, r, keys, done)
    ensures ChannelsFresh(Apply(s, Start(r, keys, done))) && SlotsCounted(Apply(s, Start(r, keys, done)))
  {
    var s' := Apply(s, Start(r, keys, done));
    assert s'.active == s.active[r := Run(keys, done, Running)];
    assert RunningSet(s') == RunningSet(s) + {r};
  }

  lemma FinishOwns(s: State, r: nat)
    requires Inv(s) && Enabled(s, Finish(r))
    ensures KeysOwned(Apply(s, Finish(r)))
    ensures forall k | k in s.active[r].keys :: k !in Apply(s, Finish(r)).gate.runs
  {
    FinishNeverBlocks(s, r);
    var s' := Apply(s, Finish(r));
    var run := s.active[r];
    assert s'.active == s.active[r := run.(phase := Closing)];
    assert forall k | k in s'.gate.runs :: k in s.gate.runs && k !in run.keys;
    forall k | k in s'.gate.runs ensures HasOwner(s', k) {
      assert HasOwner(s, k);
      var q :| q in s.active && s.active[q].phase == Running && k in s.active[q].keys;
      assert q != r && s'.active[q] == s.active[q];
    }
  }

  lemma FinishKeeps(s: State, r: nat)
    requires Inv(s) && Enabled(s, Finish(r))
    ensures Inv(Apply(s, Finish(r)))
    ensures Apply(s, Finish(r)).active[r].phase == Closing
  {
    FinishNeverBlocks(s, r);
    FinishOwns(s, r);
    var s' := Apply(s, Finish(r));
    assert s'.active == s.active[r := s.active[r].(phase := Closing)];
    assert RunningSet(s) == RunningSet(s') + {r};
  }

  lemma CloseKeeps(s: State, r: nat)
    requires Inv(s) && Enabled(s, Close(r))
    ensures Inv(Apply(s, Close(r)))
  {
    var s' := Apply(s, Close(r));
    assert RunningSet(s') == RunningSet(s);
    forall k | k in s'.gate.runs ensures HasOwner(s', k) {
      assert HasOwner(s, k);
      var q :| q in s.active && s.active[q].phase == Running && k in s.active[q].keys;
      assert s'.active[q] == s.active[q];
    }
  }

  lemma StepKeepsInv(s: State, a: Action)
    requires Inv(s) && Enabled(s, a)
    ensures Inv(Apply(s, a))
  {
    match a
    case Start(r, keys, done) =>
      if Admission(s.gate, keys, s.capacity) == Admitted {
        StartHolds(s, r, keys, done);
        StartKeeps(s, r, keys, done);
      }
    case Finish(r) => FinishKeeps(s, r);
    case Close(r) => CloseKeeps(s, r);
  }

  ghost predicate Legal(s: State, run: seq<Action>)
    decreases |run|
  {
    run == [] || (Enabled(s, run[0]) && Legal(Apply(s, run[0]), run[1..]))
  }

  ghost function After(s: State, run: seq<Action>): State
    requires Legal(s, run)
    decreases |run|
  {
    if run == [] then s else After(Apply(s, run[0]), run[1..])
  }

  function Initial(capacity: nat): State {
    State(Gate(map[], 0, false), capacity, map[], {}, {})
  }

  lemma {:induction false} RunKeepsInv(s: State, run: seq<Action>)
    requires Inv(s) && Legal(s, run)
    ensures Inv(After(s, run)) && After(s, run).capacity == s.capacity
    decreases |run|
  {
    if run != [] {
      StepKeepsInv(s, run[0]);
      RunKeepsInv(Apply(s, run[0]), run[1..]);
    }
  }

  /** In every reachable state runs own disjoint keys, occupied slots are the runs in progress and
      within capacity, and the Refreshing flag says whether there is one. */
  lemma AdmissionIsSafe(capacity: nat, run: seq<Action>, q: nat, r: nat, key: string)
    requires Legal(Initial(capacity), run)
    ensures var e := After(Initial(capacity), run);
            && (q in RunningSet(e) && r in RunningSet(e) && key in e.active[q].keys && key in e.active[r].keys ==> q == r)
            && e.gate.slots == |RunningSet(e)| <= capacity
            && (e.gate.refreshing <==> RunningSet(e) != {})
            && (key in e.gate.runs <==> exists t :: t in RunningSet(e) && key in e.active[t].keys)
  {
    assert RunningSet(Initial(capacity)) == {};
    RunKeepsInv(Initial(capacity), run);
    var e := After(Initial(capacity), run);
    if q in RunningSet(e) && r in RunningSet(e) && key in e.active[q].keys && key in e.active[r].keys {
      OwnersAreUnique(e, q, r, key);
    }
    ClaimedIffOwned(e, key);
    assert RunningSet(e) != {} <==> |RunningSet(e)| > 0;
  }

  /** So no two runs in progress are for the same workspace or write the same file. */
  lemma RunsDoNotContend(capacity: nat, run: seq<Action>, q: nat, r: nat, hash1: string, path1: string, hash2: string, path2: string)
    requires Legal(Initial(capacity), run)
    requires var e := After(Initial(capacity), run);
             && q in RunningSet(e) && r in RunningSet(e) && q != r
             && e.active[q].keys == RunKeys(hash1, path1) && e.active[r].keys == RunKeys(hash2, path2)
    ensures Trim(hash1) != Trim(hash2) && (path1 == "" || path1 != path2)
  {
    ContendIff(hash1, path1, hash2, path2);
    if k :| k in RunKeys(hash1, path1) && k in RunKeys(hash2, path2) {
      AdmissionIsSafe(capacity, run, q, r, k);
    }
  }

  lemma OwnersAreUnique(s: State, q: nat, r: nat, key: string)
    requires KeysHeld(s) && ChannelsFresh(s) && q in RunningSet(s) && r in RunningSet(s)
    requires key in s.active[q].keys && key in s.active[r].keys
    ensures q == r
  {
    assert s.gate.runs[key] == s.active[q].done;
    assert s.gate.runs[key] == s.active[r].done;
  }

  lemma ClaimedIffOwned(s: State, key: string)
    requires KeysHeld(s) && KeysOwned(s)
    ensures key in s.gate.runs <==> exists t :: t in RunningSet(s) && key in s.active[t].keys
  {
    if key in s.gate.runs {
      var t :| t in s.active && s.active[t].phase == Running && key in s.active[t].keys;
      assert t in RunningSet(s);
    }
  }

  /** Once every run has closed its channel, all keys and slots are back. */
  lemma IdleGateIsEmpty(capacity: nat, run: seq<Action>)
    requires Legal(Initial(capacity), run) && After(Initial(capacity), run).active == map[]
    ensures After(Initial(capacity), run).gate == Gate(map[], 0, false)
  {
    assert RunningSet(Initial(capacity)) == {};
    RunKeepsInv(Initial(capacity), run);
    assert RunningSet(After(Initial(capacity), run)) == {};
  }

  /** What `waitForRefresh` may conclude: the channel it found under the service key belongs to a run in
      progress, and once that channel is closed the run is over; finding none, there is no run. */
  lemma WaitingIsSound(s: State, run: seq<Action>)
    requires Inv(s) && Legal(s, run)
    ensures SERVICE_KEY !in s.gate.runs ==> forall r | r in RunningSet(s) :: SERVICE_KEY !in s.active[r].keys
    ensures SERVICE_KEY in s.gate.runs && s.gate.runs[SERVICE_KEY] in After(s, run).closed ==>
              forall r | r in After(s, run).active :: After(s, run).active[r].done != s.gate.runs[SERVICE_KEY]
  {
    RunKeepsInv(s, run);
  }

  /** The gate as the server keeps it. */
  class RefreshGate {
    var runs: map<string, nat>
    var slots: nat
    var refreshing: bool
    const capacity: nat

    ghost function Snapshot(): Gate
      reads this
    {
      Gate(runs, slots, refreshing)
    }

    constructor (capacity: nat)
      ensures Snapshot() == Initial(capacity).gate && this.capacity == capacity
    {
      runs, slots, refreshing := map[], 0, false;
      this.capacity := capacity;
    }

    method TryStart(keys: seq<string>, done: nat) returns (outcome: Outcome)
      modifies this
      ensures outcome == Admission(old(Snapshot()), keys, capacity)
      ensures Snapshot() == if outcome == Admitted then Claim(old(Snapshot()), keys, done) else old(Snapshot())
    {
      var busy := AnyKey(runs, keys);
      if busy {
        return InProgress;
      }
      if slots >= capacity {
        return Full;
      }
      slots := slots + 1;
      runs := ClaimKeys(runs, keys, done);
      refreshing := true;
      outcome := Admitted;
    }

    static method AnyKey(runs: map<string, nat>, keys: seq<string>) returns (busy: bool)
      ensures busy <==> exists i :: 0 <= i < |keys| && keys[i] in runs
    {
      for i := 0 to |keys|
        invariant forall j | 0 <= j < i :: keys[j] !in runs
      {
        if keys[i] in runs {
          return true;
        }
      }
      busy := false;
    }

    static method ClaimKeys(start: map<string, nat>, keys: seq<string>, done: nat) returns (runs: map<string, nat>)
      ensures runs == start + (map k | k in keys :: done)
    {
      runs := start;
      for i := 0 to |keys|
        invariant runs == start + (map k | k in keys[..i] :: done)
      {
        assert keys[..i + 1] == keys[..i] + [keys[i]];
        runs := runs[keys[i] := done];
      }
      assert keys[..|keys|] == keys;
    }

    method Finish(keys: seq<string>, done: nat) returns (released: bool)
      requires Releases(Snapshot(), keys, done) ==> slots > 0
      modifies this
      ensures released == Releases(old(Snapshot()), keys, done)
      ensures Snapshot() == Release(old(Snapshot()), keys, done)
    {
      released := false;
      for i := 0 to |keys|
        invariant released <==> exists j :: 0 <= j < i && Owns(old(Snapshot()), keys[j], keys, done)
        invariant runs == map k | k in old(runs) && !(k in keys[..i] && old(runs)[k] == done) :: old(runs)[k]
        invariant slots == old(slots)
      {
        assert keys[..i + 1] == keys[..i] + [keys[i]];
        if keys[i] in runs && runs[keys[i]] == done {
          runs := runs - {keys[i]};
          released := true;
        } else if keys[i] in old(runs) && old(runs)[keys[i]] == done {
          assert keys[i] in keys[..i];
          var j :| 0 <= j < i && keys[j] == keys[i];
          assert Owns(old(Snapshot()), keys[j], keys, done);
        }
      }
      assert keys[..|keys|] == keys;
      if released {
        slots := slots - 1;
      }
      refreshing := slots > 0;
    }
  }
}
