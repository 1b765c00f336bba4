/** The access counter of `internal/api/published.go`. Hits on a publication are batched in memory,
    taken out, added to its metadata, and put back when that fails; timers fire asynchronously.
    One atomic step per critical section. */
module PublishedAccess {
  import opened Common

  /** Nanoseconds: hits are persisted at most this often. */
  const WRITE_INTERVAL := 30_000_000_000

  /** publishedAccessState: `timer` is the pending flush, if one is referenced. */
  datatype Pending = Pending(count: nat, last: int, persisted: Option<int>, timer: Option<nat>)

  /** A timer is armed until it fires; then its callback is queued until it runs. */
  datatype Timer = Timer(id: string, fired: bool)

  datatype Buffers = Buffers(states: map<string, Pending>, timers: map<nat, Timer>)

  /** Counts taken out of the buffer and not yet stored; `failed` once storing them has failed. */
  datatype Batch = Batch(id: string, count: nat, last: int, failed: bool)

  datatype Counter = Counter(count: int, last: int)

  /** `total` and `newest` are history: the count a publication started with plus its hits, and the
      latest time it was hit. */
  datatype State = State(
    buf: Buffers,
    store: map<string, Counter>,
    batches: seq<Batch>,
    total: map<string, int>,
    newest: map<string, int>)

  function Max(a: int, b: int): int { if a < b then b else a }

  function StateOf(b: Buffers, id: string): Pending {
    if id in b.states then b.states[id] else Pending(0, 0, None, None)
  }

  predicate ShouldPersist(p: Pending, now: int) {
    p.persisted.None? || now - p.persisted.value >= WRITE_INTERVAL
  }

  /** `Timer.Stop`: a timer that has fired already is not stopped. */
  function StopTimer(timers: map<nat, Timer>, t: Option<nat>): map<nat, Timer> {
    if t.Some? && t.value in timers && !timers[t.value].fired then timers - {t.value} else timers
  }

  /** The critical section of `recordPublishedAccess`. */
  function RecordIn(b: Buffers, id: string, now: int, spare: nat): Buffers {
    var p := StateOf(b, id);
    if ShouldPersist(p, now) then
      Buffers(b.states[id := Pending(0, now, Some(now), None)], StopTimer(b.timers, p.timer))
    else if p.timer.None? then
      Buffers(b.states[id := Pending(p.count + 1, now, p.persisted, Some(spare))], b.timers[spare := Timer(id, false)])
    else
      Buffers(b.states[id := Pending(p.count + 1, now, p.persisted, p.timer)], b.timers)
  }

  /** The critical section of `flushPublishedAccess`, run by timer `t`. */
  function FlushIn(b: Buffers, t: nat, now: int): Buffers
    requires t in b.timers
  {
    var id := b.timers[t].id;
    Buffers(if id in b.states then b.states[id := Pending(0, b.states[id].last, Some(now), None)] else b.states,
            b.timers - {t})
  }

  /** `requeuePublishedAccess`. */
  function RequeueIn(b: Buffers, id: string, count: nat, last: int, spare: nat): Buffers {
    var p := StateOf(b, id);
    var p' := p.(count := p.count + count, last := Max(p.last, last));
    if p.timer.None? then
      Buffers(b.states[id := p'.(timer := Some(spare))], b.timers[spare := Timer(id, false)])
    else
      Buffers(b.states[id := p'], b.timers)
  }

  /** `forgetPublishedAccess`. */
  function ForgetIn(b: Buffers, id: string): Buffers {
    if id in b.states then Buffers(b.states - {id}, StopTimer(b.timers, b.states[id].timer)) else b
  }

  datatype Action =
    | Record(id: string, now: int, spare: nat)
    | Fire(timer: nat)
    | Flush(timer: nat, now: int)
    | Persist(i: nat)                   // persistPublishedAccess succeeds
    | Fail(i: nat)                      // persistPublishedAccess fails, for whatever reason
    | Requeue(i: nat, spare: nat)
    | Remove(id: string)                // the publication's directory is removed
    | Forget(id: string)

  predicate Enabled(s: State, a: Action) {
    match a
    case Record(id, _, spare) => spare !in s.buf.timers
    case Fire(t) => t in s.buf.timers && !s.buf.timers[t].fired
    case Flush(t, _) => t in s.buf.timers && s.buf.timers[t].fired
    case Persist(i) => i < |s.batches| && !s.batches[i].failed && s.batches[i].id in s.store
    case Fail(i) => i < |s.batches| && !s.batches[i].failed
    case Requeue(i, spare) => i < |s.batches| && s.batches[i].failed && spare !in s.buf.timers
    case Remove(id) => id in s.store
    case Forget(id) => id !in s.store
  }

  function Without(bs: seq<Batch>, i: nat): seq<Batch>
    requires i < |bs|
  {
    bs[..i] + bs[i + 1..]
  }

  /** The batch a section takes out: nothing is taken when there is nothing to store. */
  function Taken(id: string, count: nat, last: int): seq<Batch> {
    if count == 0 then [] else [Batch(id, count, last, false)]
  }

  function Apply(s: State, a: Action): State
    requires Enabled(s, a)
  {
    match a
    case Record(id, now, spare) =>
      var p := StateOf(s.buf, id);
      s.(buf := RecordIn(s.buf, id, now, spare),
         batches := s.batches + (if ShouldPersist(p, now) then Taken(id, p.count + 1, now) else []),
         total := if id in s.total then s.total[id := s.total[id] + 1] else s.total,
         newest := if id in s.newest then s.newest[id := Max(s.newest[id], now)] else s.newest)
    case Fire(t) => s.(buf := s.buf.(timers := s.buf.timers[t := s.buf.timers[t].(fired := true)]))
    case Flush(t, now) =>
      var id := s.buf.timers[t].id;
      var p := StateOf(s.buf, id);
      s.(buf := FlushIn(s.buf, t, now), batches := s.batches + Taken(id, p.count, p.last))
    case Persist(i) =>
      var Batch(id, count, last, _) := s.batches[i];
      s.(batches := Without(s.batches, i),
         store := s.store[id := Counter(s.store[id].count + count, Max(s.store[id].last, last))])
    case Fail(i) => s.(batches := s.batches[i := s.batches[i].(failed := true)])
    case Requeue(i, spare) =>
      var Batch(id, count, last, _) := s.batches[i];
      s.(batches := Without(s.batches, i), buf := RequeueIn(s.buf, id, count, last, spare))
    case Remove(id) => s.(store := s.store - {id})
    case Forget(id) => s.(buf := ForgetIn(s.buf, id))
  }

  /** Counts in flight for one publication. */
  ghost function InFlight(bs: seq<Batch>, id: string): nat {
    if bs == [] then 0 else (if bs[0].id == id then bs[0].count else 0) + InFlight(bs[1..], id)
  }

  lemma {:induction false} InFlightConcat(a: seq<Batch>, b: seq<Batch>, id: string)
    ensures InFlight(a + b, id) == InFlight(a, id) + InFlight(b, id)
  {
    if a == [] {
      assert a + b == b;
    } else {
      assert (a + b)[1..] == a[1..] + b;
      InFlightConcat(a[1..], b, id);
    }
  }

  lemma InFlightSplit(bs: seq<Batch>, i: nat, id: string)
    requires i < |bs|
    ensures InFlight(bs, id) == InFlight(Without(bs, i), id) + (if bs[i].id == id then bs[i].count else 0)
  {
    assert bs == bs[..i] + ([bs[i]] + bs[i + 1..]);
    InFlightConcat(bs[..i], bs[i + 1..], id);
    InFlightConcat(bs[..i], [bs[i]] + bs[i + 1..], id);
  }

  lemma InFlightReplaced(bs: seq<Batch>, i: nat, b: Batch, id: string)
    requires i < |bs| && b.id == bs[i].id && b.count == bs[i].count
    ensures InFlight(bs[i := b], id) == InFlight(bs, id)
  {
    InFlightSplit(bs, i, id);
    InFlightSplit(bs[i := b], i, id);
    assert Without(bs[i := b], i) == Without(bs, i);
  }

  ghost predicate ConservedAt(s: State, id: string) {
    id in s.store ==>
      id in s.total && s.total[id] == s.store[id].count + StateOf(s.buf, id).count + InFlight(s.batches, id)
  }

  /** Every hit is stored, pending or in flight. */
  ghost predicate Conserved(s: State) {
    forall id | id in s.store :: ConservedAt(s, id)
  }

  /** Pending hits have a flush on its way, and a referenced timer is one of their own. */
  ghost predicate Scheduled(b: Buffers) {
    forall id | id in b.states ::
      && (b.states[id].count > 0 ==> b.states[id].timer.Some?)
      && (b.states[id].timer.Some? ==> b.states[id].timer.value in b.timers && b.timers[b.states[id].timer.value].id == id)
  }

  ghost predicate Inv(s: State) {
    Conserved(s) && Scheduled(s.buf)
  }

  lemma RecordSchedules(b: Buffers, id: string, now: int, spare: nat)
    requires Scheduled(b) && spare !in b.timers
    ensures Scheduled(RecordIn(b, id, now, spare))
  {
  }

  lemma FlushSchedules(b: Buffers, t: nat, now: int)
    requires Scheduled(b) && t in b.timers
    ensures Scheduled(FlushIn(b, t, now))
  {
  }

  lemma RequeueSchedules(b: Buffers, id: string, count: nat, last: int, spare: nat)
    requires Scheduled(b) && spare !in b.timers
    ensures Scheduled(RequeueIn(b, id, count, last, spare))
  {
  }

  lemma StepSchedules(s: State, a: Action)
    requires Scheduled(s.buf) && Enabled(s, a)
    ensures Scheduled(Apply(s, a).buf)
  {
    match a
    case Record(id, now, spare) => RecordSchedules(s.buf, id, now, spare);
    case Flush(t, now) => FlushSchedules(s.buf, t, now);
    case Requeue(i, spare) => RequeueSchedules(s.buf, s.batches[i].id, s.batches[i].count, s.batches[i].last, spare);
    case _ =>
  }

  lemma StepConservesAt(s: State, a: Action, id: string)
    requires ConservedAt(s, id) && Enabled(s, a)
    ensures ConservedAt(Apply(s, a), id)
  {
    match a
    case Record(x, now, spare) => RecordConservesAt(s, x, now, spare, id);
    case Flush(t, _) =>
      var p := StateOf(s.buf, s.buf.timers[t].id);
      InFlightConcat(s.batches, Taken(s.buf.timers[t].id, p.count, p.last), id);
    case Persist(i) => InFlightSplit(s.batches, i, id);
    case Fail(i) => InFlightReplaced(s.batches, i, s.batches[i].(failed := true), id);
    case Requeue(i, _) => InFlightSplit(s.batches, i, id);
    case _ =>
  }

  lemma RecordConservesAt(s: State, x: string, now: int, spare: nat, id: string)
    requires ConservedAt(s, id) && Enabled(s, Record(x, now, spare))
    ensures ConservedAt(Apply(s, Record(x, now, spare)), id)
  {
    InFlightConcat(s.batches, Taken(x, StateOf(s.buf, x).count + 1, now), id);
    assert s.batches + [] == s.batches;
  }

  lemma StepConserves(s: State, a: Action)
    requires Conserved(s) && Enabled(s, a)
    ensures Conserved(Apply(s, a))
  {
    forall id ensures ConservedAt(Apply(s, a), id) {
      assert ConservedAt(s, id);
      StepConservesAt(s, a, id);
    }
  }

  ghost predicate Legal(s: State, run: seq<Action>)
    decreases |run|
  {
    run == [] || (Enabled(s, run[0]) && Legal(Apply(s, run[0]), run[1..]))
  }

  ghost function After(s: State, run: seq<Action>): State
    requires Legal(s, run)
    decreases |run|
  {
    if run == [] then s else After(Apply(s, run[0]), run[1..])
  }

  /** After a start: stored counters, nothing buffered. */
  ghost predicate Init(s: State) {
    && s.buf == Buffers(map[], map[]) && s.batches == []
    && s.total.Keys == s.newest.Keys == s.store.Keys
    && forall id | id in s.store :: s.total[id] == s.store[id].count && s.newest[id] == s.store[id].last
  }

  /** Hits on one publication in a run. */
  ghost function Hits(run: seq<Action>, id: string): nat {
    if run == [] then 0 else (if run[0].Record? && run[0].id == id then 1 else 0) + Hits(run[1..], id)
  }

  lemma {:induction false} TotalCountsHits(s: State, run: seq<Action>, id: string)
    requires Inv(s) && Legal(s, run) && id in s.total
    ensures Inv(After(s, run))
    ensures id in After(s, run).total && After(s, run).total[id] == s.total[id] + Hits(run, id)
    decreases |run|
  {
    if run != [] {
      StepConserves(s, run[0]);
      StepSchedules(s, run[0]);
      TotalCountsHits(Apply(s, run[0]), run[1..], id);
    }
  }

  /** Access counts are conserved across records, flushes, failures and requeues in any order, and
      hits are never left pending without a timer armed or a callback queued. */
  lemma HitsAreConserved(s: State, run: seq<Action>, id: string)
    requires Init(s) && Legal(s, run) && id in s.store && id in After(s, run).store
    ensures var e := After(s, run);
            && s.store[id].count + Hits(run, id)
                 == e.store[id].count + StateOf(e.buf, id).count + InFlight(e.batches, id)
            && (StateOf(e.buf, id).count > 0 ==> exists t :: t in e.buf.timers && e.buf.timers[t].id == id)
  {
    TotalCountsHits(s, run, id);
    var e := After(s, run);
    if StateOf(e.buf, id).count > 0 {
      assert e.buf.states[id].timer.value in e.buf.timers;
    }
  }

  /** The stored time of last access never moves back. */
  lemma {:induction false} LastAccessNeverMovesBack(s: State, run: seq<Action>, id: string)
    requires Legal(s, run) && id in s.store && id in After(s, run).store
    ensures After(s, run).store[id].last >= s.store[id].last
    decreases |run|
  {
    if run != [] {
      if id in Apply(s, run[0]).store {
        LastAccessNeverMovesBack(Apply(s, run[0]), run[1..], id);
      } else {
        StaysRemoved(Apply(s, run[0]), run[1..], id);
      }
    }
  }

  /** A removed publication is never stored again. */
  lemma {:induction false} StaysRemoved(s: State, run: seq<Action>, id: string)
    requires Legal(s, run) && id !in s.store
    ensures id !in After(s, run).store
    decreases |run|
  {
    if run != [] {
      StaysRemoved(Apply(s, run[0]), run[1..], id);
    }
  }

  // ---- What is left of a removed publication ----

  /** Hits on a publication that are pending or in flight. */
  ghost function InMemory(s: State, id: string): nat {
    StateOf(s.buf, id).count + InFlight(s.batches, id)
  }

  ghost predicate Forgets(a: Action, id: string) {
    a.Forget? && a.id == id
  }

  /** Nothing can be stored for it any more, so only forgetting it takes hits away. */
  lemma StepKeepsInMemory(s: State, a: Action, id: string)
    requires Enabled(s, a) && id !in s.store && !Forgets(a, id)
    ensures InMemory(Apply(s, a), id) == InMemory(s, id) + Hits([a], id)
  {
    assert Hits([a], id) == if a.Record? && a.id == id then 1 else 0;
    match a
    case Record(x, now, spare) => RecordKeepsInMemory(s, x, now, spare, id);
    case Flush(t, now) => FlushKeepsInMemory(s, t, now, id);
    case Persist(i) => InFlightSplit(s.batches, i, id);
    case Fail(i) => InFlightReplaced(s.batches, i, s.batches[i].(failed := true), id);
    case Requeue(i, _) => InFlightSplit(s.batches, i, id);
    case _ =>
  }

  lemma RecordKeepsInMemory(s: State, x: string, now: int, spare: nat, id: string)
    requires Enabled(s, Record(x, now, spare))
    ensures InMemory(Apply(s, Record(x, now, spare)), id) == InMemory(s, id) + if x == id then 1 else 0
  {
    InFlightConcat(s.batches, Taken(x, StateOf(s.buf, x).count + 1, now), id);
    assert s.batches + [] == s.batches;
  }

  lemma FlushKeepsInMemory(s: State, t: nat, now: int, id: string)
    requires Enabled(s, Flush(t, now))
    ensures InMemory(Apply(s, Flush(t, now)), id) == InMemory(s, id)
  {
    var p := StateOf(s.buf, s.buf.timers[t].id);
    InFlightConcat(s.batches, Taken(s.buf.timers[t].id, p.count, p.last), id);
  }

  /** Until it is forgotten, a removed publication's hits go round from the buffer into a batch that fails and back:
      none is ever dropped, and while there are any one of them is in flight or has a timer. */
  lemma {:induction false} RemovedNeverDrains(s: State, run: seq<Action>, id: string)
    requires Scheduled(s.buf) && Legal(s, run) && id !in s.store && forall i | 0 <= i < |run| :: !Forgets(run[i], id)
    ensures var e := After(s, run);
            && InMemory(e, id) == InMemory(s, id) + Hits(run, id)
            && (InMemory(e, id) > 0 ==> InFlight(e.batches, id) > 0 || exists t :: t in e.buf.timers && e.buf.timers[t].id == id)
    decreases |run|
  {
    if run != [] {
      assert !Forgets(run[0], id);
      StepKeepsInMemory(s, run[0], id);
      StepSchedules(s, run[0]);
      assert forall i | 0 <= i < |run[1..]| :: run[1..][i] == run[i + 1];
      RemovedNeverDrains(Apply(s, run[0]), run[1..], id);
    } else if StateOf(s.buf, id).count > 0 {
      assert s.buf.states[id].timer.value in s.buf.timers;
    }
  }

  /** After a removed publication has been forgotten, nothing is kept in memory for it exactly when no batch of it was in
      flight then and no late hit comes; otherwise its timer is armed again for ever. */
  lemma ForgottenForGoodIff(s: State, run: seq<Action>, id: string)
    requires Scheduled(s.buf) && Enabled(s, Forget(id)) && Legal(Apply(s, Forget(id)), run)
    requires forall i | 0 <= i < |run| :: !Forgets(run[i], id)
    ensures InMemory(After(Apply(s, Forget(id)), run), id) == 0 <==> InFlight(s.batches, id) == 0 && Hits(run, id) == 0
  {
    StepSchedules(s, Forget(id));
    RemovedNeverDrains(Apply(s, Forget(id)), run, id);
  }

  // ---- The time of the newest hit ----

  /** The latest hit's time is stored or on its way to be, other than in the buffer. */
  ghost predicate Carried(s: State, id: string)
    requires id in s.store && id in s.newest
  {
    || s.newest[id] <= s.store[id].last
    || exists i :: 0 <= i < |s.batches| && s.batches[i].id == id && s.newest[id] <= s.batches[i].last
  }

  ghost predicate Reported(s: State, id: string)
    requires id in s.store && id in s.newest
  {
    Carried(s, id) || (StateOf(s.buf, id).count > 0 && s.newest[id] <= StateOf(s.buf, id).last)
  }

  ghost predicate NoEmptyBatch(s: State) {
    forall i | 0 <= i < |s.batches| :: s.batches[i].count > 0
  }

  lemma WithoutKeeps(bs: seq<Batch>, i: nat, j: nat) returns (k: nat)
    requires i < |bs| && j < |bs| && i != j
    ensures k < |Without(bs, i)| && Without(bs, i)[k] == bs[j]
  {
    k := if j < i then j else j - 1;
  }

  /** A batch with the latest time is stored, or still there, after any step. */
  lemma StepCarries(s: State, a: Action, id: string, j: nat)
    requires Enabled(s, a) && id in s.store && id in s.newest && id in Apply(s, a).store && !(a.Record? && a.id == id)
    requires j < |s.batches| && s.batches[j].id == id && s.newest[id] <= s.batches[j].last
    ensures Reported(Apply(s, a), id) || (a.Requeue? && a.i == j)
  {
    var s' := Apply(s, a);
    match a
    case Persist(i) =>
      if i != j { var k := WithoutKeeps(s.batches, i, j); }
    case Requeue(i, _) =>
      if i != j { var k := WithoutKeeps(s.batches, i, j); }
    case Fail(i) => assert s'.batches[j].id == id && s'.batches[j].last == s.batches[j].last;
    case _ => assert s'.batches[j] == s.batches[j];
  }

  /** No step other than a hit can lose the latest time. */
  lemma OtherStepsKeepNewest(s: State, a: Action, id: string)
    requires Enabled(s, a) && id in s.store && id in s.newest && Reported(s, id) && NoEmptyBatch(s)
    requires !(a.Record? && a.id == id) && id in Apply(s, a).store
    ensures Reported(Apply(s, a), id)
  {
    if !(s.newest[id] <= s.store[id].last) && Carried(s, id) {
      var j :| 0 <= j < |s.batches| && s.batches[j].id == id && s.newest[id] <= s.batches[j].last;
      StepCarries(s, a, id, j);
    } else if a.Flush? && s.buf.timers[a.timer].id == id && !Carried(s, id) {
      assert Apply(s, a).batches[|s.batches|].id == id;
    }
  }

  /** A hit keeps the latest time exactly when the hits enter the section in the order of their
      clock readings, or an earlier batch already carries the later reading. */
  lemma HitKeepsNewestIff(s: State, id: string, now: int, spare: nat)
    requires Enabled(s, Record(id, now, spare)) && id in s.store && id in s.newest && Reported(s, id)
    ensures Reported(Apply(s, Record(id, now, spare)), id) <==> now >= s.newest[id] || Carried(s, id)
  {
    var s' := Apply(s, Record(id, now, spare));
    if Carried(s, id) && now <= s.newest[id] && !(s.newest[id] <= s.store[id].last) {
      var j :| 0 <= j < |s.batches| && s.batches[j].id == id && s.newest[id] <= s.batches[j].last;
      assert s'.batches[j] == s.batches[j];
    }
    if now >= s.newest[id] && |s'.batches| > |s.batches| {
      assert s'.batches[|s.batches|].last == now;
    }
  }

  ghost predicate InOrder(s: State, run: seq<Action>, id: string)
    requires Legal(s, run)
    decreases |run|
  {
    run == [] ||
    (&& (run[0].Record? && run[0].id == id && id in s.newest ==> run[0].now >= s.newest[id])
     && InOrder(Apply(s, run[0]), run[1..], id))
  }

  lemma {:induction false} InOrderReports(s: State, run: seq<Action>, id: string)
    requires Legal(s, run) && InOrder(s, run, id) && NoEmptyBatch(s)
    requires id in s.store && id in s.newest && Reported(s, id) && id in After(s, run).store
    ensures id in After(s, run).newest && Reported(After(s, run), id)
    decreases |run|
  {
    if run != [] {
      var a := run[0];
      if id !in Apply(s, a).store {
        StaysRemoved(Apply(s, a), run[1..], id);
      } else {
        if a.Record? && a.id == id {
          HitKeepsNewestIff(s, id, a.now, a.spare);
        } else {
          OtherStepsKeepNewest(s, a, id);
        }
        InOrderReports(Apply(s, a), run[1..], id);
      }
    }
  }

  /** When hits enter in clock order and nothing is left in memory, the time stored is at least that
      of the newest hit. */
  lemma NewestHitIsStored(s: State, run: seq<Action>, id: string)
    requires Init(s) && Legal(s, run) && InOrder(s, run, id) && id in s.store && id in After(s, run).store
    requires StateOf(After(s, run).buf, id).count == 0
    requires forall i | 0 <= i < |After(s, run).batches| :: After(s, run).batches[i].id != id
    ensures id in After(s, run).newest && After(s, run).store[id].last >= After(s, run).newest[id]
  {
    InOrderReports(s, run, id);
  }

  // ---- How often hits are saved ----

  /** The hit takes a batch out to save it. */
  ghost predicate Saves(s: State, id: string, now: int, spare: nat)
    requires Enabled(s, Record(id, now, spare))
  {
    Apply(s, Record(id, now, spare)).batches != s.batches
  }

  /** The last time that hits on the publication were taken out is known, and not before this. */
  ghost predicate SavedSince(s: State, id: string, t: int) {
    id in s.buf.states && s.buf.states[id].persisted.Some? && s.buf.states[id].persisted.value >= t
  }

  /** The clock of the action does not lie before the time, and the publication is not forgotten. */
  ghost predicate Keeping(a: Action, id: string, t: int) {
    (a.Record? ==> a.now >= t) && (a.Flush? ==> a.now >= t) && (a.Forget? ==> a.id != id)
  }

  lemma StepKeepsSaved(s: State, a: Action, id: string, t: int)
    requires Enabled(s, a) && SavedSince(s, id, t) && Keeping(a, id, t)
    ensures SavedSince(Apply(s, a), id, t)
  {
  }

  lemma {:induction false} RunKeepsSaved(s: State, run: seq<Action>, id: string, t: int)
    requires Legal(s, run) && SavedSince(s, id, t) && forall a | a in run :: Keeping(a, id, t)
    ensures SavedSince(After(s, run), id, t)
    decreases |run|
  {
    if run != [] {
      assert run[0] in run && forall a | a in run[1..] :: a in run;
      StepKeepsSaved(s, run[0], id, t);
      RunKeepsSaved(Apply(s, run[0]), run[1..], id, t);
    }
  }

  /** Hits that are saved at once are at least half a minute apart, as long as the publication is not forgotten. */
  lemma SavesAreSpaced(s: State, id: string, t1: int, spare1: nat, run: seq<Action>, t2: int, spare2: nat)
    requires Enabled(s, Record(id, t1, spare1)) && Saves(s, id, t1, spare1)
    requires var s1 := Apply(s, Record(id, t1, spare1));
             && Legal(s1, run) && (forall a | a in run :: Keeping(a, id, t1))
             && Enabled(After(s1, run), Record(id, t2, spare2)) && Saves(After(s1, run), id, t2, spare2)
    ensures t2 - t1 >= 30_000_000_000
  {
    RunKeepsSaved(Apply(s, Record(id, t1, spare1)), run, id, t1);
  }

  /** And a hit is saved at once if hits on the publication were never taken out, or half a minute ago. */
  lemma SavesIff(s: State, id: string, now: int, spare: nat)
    requires Enabled(s, Record(id, now, spare))
    ensures Saves(s, id, now, spare) <==> !SavedSince(s, id, now - 29_999_999_999)
  {
  }

  lemma {:induction false} RunConcat(s: State, a: seq<Action>, b: seq<Action>)
    requires Legal(s, a) && Legal(After(s, a), b)
    ensures Legal(s, a + b) && After(s, a + b) == After(After(s, a), b)
    decreases |a|
  {
    if a == [] {
      assert a + b == b;
    } else {
      assert (a + b)[1..] == a[1..] + b;
      RunConcat(Apply(s, a[0]), a[1..], b);
    }
  }

  lemma RunStep(s: State, a: Action, run: seq<Action>, e: State)
    requires Enabled(s, a) && Legal(Apply(s, a), run) && After(Apply(s, a), run) == e
    ensures Legal(s, [a] + run) && After(s, [a] + run) == e
  {
  }

  const UNUSED := State(Buffers(map[], map[]), map["p" := Counter(0, 0)], [], map["p" := 0], map["p" := 0])
  const HIT_AT_200 :=
    State(Buffers(map["p" := Pending(1, 200, Some(100), Some(0))], map[0 := Timer("p", false)]),
          map["p" := Counter(1, 100)], [], map["p" := 2], map["p" := 200])

  lemma FirstHits()
    ensures var run := [Record("p", 100, 0)] + ([Persist(0)] + ([Record("p", 200, 0)] + []));
            Legal(UNUSED, run) && After(UNUSED, run) == HIT_AT_200
  {
    var s1 := Apply(UNUSED, Record("p", 100, 0));
    var s2 := Apply(s1, Persist(0));
    assert s2.buf == Buffers(map["p" := Pending(0, 100, Some(100), None)], map[]);
    assert Apply(s2, Record("p", 200, 0)) == HIT_AT_200;
    RunStep(s2, Record("p", 200, 0), [], HIT_AT_200);
    RunStep(s1, Persist(0), [Record("p", 200, 0)] + [], HIT_AT_200);
    RunStep(UNUSED, Record("p", 100, 0), [Persist(0)] + ([Record("p", 200, 0)] + []), HIT_AT_200);
  }

  lemma LateHit() returns (e: State)
    ensures var run := [Record("p", 150, 1)] + ([Fire(0)] + ([Flush(0, 300)] + ([Persist(0)] + [])));
            Legal(HIT_AT_200, run) && After(HIT_AT_200, run) == e
    ensures e.batches == [] && StateOf(e.buf, "p").count == 0
    ensures e.store == map["p" := Counter(3, 150)] && e.newest == map["p" := 200]
  {
    var s1 := Apply(HIT_AT_200, Record("p", 150, 1));
    var s2 := Apply(s1, Fire(0));
    var s3 := Apply(s2, Flush(0, 300));
    assert s3.batches == [Batch("p", 2, 150, false)];
    e := Apply(s3, Persist(0));
    RunStep(s3, Persist(0), [], e);
    RunStep(s2, Flush(0, 300), [Persist(0)] + [], e);
    RunStep(s1, Fire(0), [Flush(0, 300)] + ([Persist(0)] + []), e);
    RunStep(HIT_AT_200, Record("p", 150, 1), [Fire(0)] + ([Flush(0, 300)] + ([Persist(0)] + [])), e);
  }

  /** Out of order, a hit's time can be lost: three hits are all stored, the last of them at 200, and
      150 is the time kept. */
  lemma OutOfOrderHitLosesTime() returns (run: seq<Action>)
    ensures Init(UNUSED) && Legal(UNUSED, run)
    ensures var e := After(UNUSED, run);
            e.batches == [] && StateOf(e.buf, "p").count == 0 &&
            e.store == map["p" := Counter(3, 150)] && e.newest == map["p" := 200]
  {
    FirstHits();
    var e := LateHit();
    var a := [Record("p", 100, 0)] + ([Persist(0)] + ([Record("p", 200, 0)] + []));
    var b := [Record("p", 150, 1)] + ([Fire(0)] + ([Flush(0, 300)] + ([Persist(0)] + [])));
    RunConcat(UNUSED, a, b);
    run := a + b;
  }

  /** The buffer as the server keeps it: one method per critical section. */
  class AccessBuffer {
    var states: map<string, Pending>
    var timers: map<nat, Timer>

    ghost function Snapshot(): Buffers
      reads this
    {
      Buffers(states, timers)
    }

    constructor ()
      ensures Snapshot() == Buffers(map[], map[])
    {
      states, timers := map[], map[];
    }

    method Stop(timer: Option<nat>)
      modifies this`timers
      ensures timers == StopTimer(old(timers), timer)
    {
      if timer.Some? && timer.value in timers && !timers[timer.value].fired {
        timers := timers - {timer.value};
      }
    }

    method Record(id: string, now: int, spare: nat) returns (shouldPersist: bool, count: nat)
      modifies this
      ensures Snapshot() == RecordIn(old(Snapshot()), id, now, spare)
      ensures shouldPersist == ShouldPersist(StateOf(old(Snapshot()), id), now)
      ensures count == if shouldPersist then StateOf(old(Snapshot()), id).count + 1 else 0
    {
      var p := if id in states then states[id] else Pending(0, 0, None, None);
      p := p.(count := p.count + 1, last := now);
      shouldPersist := p.persisted.None? || now - p.persisted.value >= WRITE_INTERVAL;
      count := 0;
      if shouldPersist {
        count := p.count;
        Stop(p.timer);
        p := p.(count := 0, persisted := Some(now), timer := None);
      } else if p.timer.None? {
        p := p.(timer := Some(spare));
        timers := timers[spare := Timer(id, false)];
      }
      states := states[id := p];
    }

    method Flush(t: nat, now: int) returns (count: nat, last: int)
      requires t in timers
      modifies this
      ensures Snapshot() == FlushIn(old(Snapshot()), t, now)
      ensures count == StateOf(old(Snapshot()), old(timers[t].id)).count
      ensures last == StateOf(old(Snapshot()), old(timers[t].id)).last
    {
      var id := timers[t].id;
      timers := timers - {t};
      if id !in states {
        return 0, 0;
      }
      count, last := states[id].count, states[id].last;
      states := states[id := states[id].(count := 0, persisted := Some(now), timer := None)];
    }

    method Requeue(id: string, count: nat, last: int, spare: nat)
      modifies this
      ensures Snapshot() == RequeueIn(old(Snapshot()), id, count, last, spare)
    {
      var p := if id in states then states[id] else Pending(0, 0, None, None);
      p := p.(count := p.count + count);
      if last > p.last {
        p := p.(last := last);
      }
      if p.timer.None? {
        p := p.(timer := Some(spare));
        timers := timers[spare := Timer(id, false)];
      }
      states := states[id := p];
    }

    method Forget(id: string)
      modifies this
      ensures Snapshot() == ForgetIn(old(Snapshot()), id)
    {
      if id in states {
        Stop(states[id].timer);
        states := states - {id};
      }
    }
  }
}
