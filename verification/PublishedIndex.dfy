/** The in-memory index from token hashes to publications of `internal/api/published.go`, against the
    metadata on disk. Metadata is written under one mutex and the index under another, later; any
    number of writers, lookups and first-time loads can be between the two. One atomic step per
    critical section. */
module PublishedIndex {

  /** Hashes are opaque; "" stands for a publication without a token hash. */
  datatype Meta = Meta(hash: string, revoked: bool)

  /** What a request still has to do. */
  datatype Pc =
    | Replacing(prior: string, next: string, id: string)    // metadata saved, index not yet written
    | Dropping(hash: string, id: string)                   // publication removed, index not yet
    | Candidate(hash: string, id: string, last: bool)      // lookup: the index named id
    | Stale(hash: string, id: string, last: bool)          // lookup: id was not it, repair the index
    | Ensuring(hash: string)                               // lookup: is the index loaded?
    | Listing(hash: string)                                // lookup: it was not, list the directory
    | Scanning(hash: string, todo: set<string>, found: map<string, string>)
    | Rereading(hash: string)                              // lookup: second and last read of the index
    | Found(hash: string, id: string)
    | Missing(hash: string)

  /** `issued` and `ids` are history: which publication every token hash was ever issued for, and
      which publication ids were ever used. Tokens and ids are random and never repeat. */
  datatype State = State(
    store: map<string, Meta>,
    index: map<string, string>,
    loaded: bool,
    threads: map<nat, Pc>,
    issued: map<string, string>,
    ids: set<string>)

  /** `replacePublishedTokenIndex`. */
  function ReplaceIn(index: map<string, string>, prior: string, next: string, id: string): map<string, string> {
    var dropped := if prior != "" && prior != next then RemoveFrom(index, prior, id) else index;
    if next != "" && id != "" then dropped[next := id] else dropped
  }

  /** `removePublishedTokenIndex`. */
  function RemoveFrom(index: map<string, string>, hash: string, id: string): map<string, string> {
    if hash in index && index[hash] == id then index - {hash} else index
  }

  datatype Action =
    | Create(t: nat, id: string, hash: string)  // createPublishedWithToken: save new metadata
    | Rotate(t: nat, id: string, hash: string)  // rotatePublishedToken: save a fresh token
    | Touch(t: nat, id: string)                 // any other updatePublishedMeta
    | Delete(t: nat, id: string)                // removePublishedIf: remove the directory
    | Discard(id: string)                       // a bare RemoveAll of an abandoned publication
    | Write(t: nat)                             // the index write or removal that is pending
    | Begin(t: nat, hash: string)               // loadPublishedByToken: first read of the index
    | Check(t: nat)                             // load the metadata the index named
    | Repair(t: nat)                            // remove the entry that proved stale
    | Ensure(t: nat)                            // read the loaded flag
    | List(t: nat)                              // read the directory
    | Scan(t: nat, id: string)                  // load one listed publication
    | Merge(t: nat)                             // merge the findings, set the loaded flag
    | Reread(t: nat)                            // second read of the index

  predicate Matches(store: map<string, Meta>, id: string, hash: string) {
    id in store && store[id].hash == hash && !store[id].revoked
  }

  predicate Enabled(s: State, a: Action) {
    match a
    case Create(t, id, hash) => t !in s.threads && id != "" && id !in s.ids && hash != "" && hash !in s.issued
    case Rotate(t, id, hash) => t !in s.threads && id in s.store && hash != "" && hash !in s.issued
    case Touch(t, id) => t !in s.threads && id in s.store
    case Delete(t, id) => t !in s.threads && id in s.store
    case Discard(id) => id in s.store
    case Write(t) => t in s.threads && (s.threads[t].Replacing? || s.threads[t].Dropping?)
    case Begin(t, hash) => t !in s.threads && hash != ""
    case Check(t) => t in s.threads && s.threads[t].Candidate?
    case Repair(t) => t in s.threads && s.threads[t].Stale?
    case Ensure(t) => t in s.threads && s.threads[t].Ensuring?
    case List(t) => t in s.threads && s.threads[t].Listing?
    case Scan(t, id) => t in s.threads && s.threads[t].Scanning? && id in s.threads[t].todo
    case Merge(t) => t in s.threads && s.threads[t].Scanning? && s.threads[t].todo == {}
    case Reread(t) => t in s.threads && s.threads[t].Rereading?
  }

  function Apply(s: State, a: Action): State
    requires Enabled(s, a)
  {
    match a
    case Create(t, id, hash) =>
      s.(store := s.store[id := Meta(hash, false)], issued := s.issued[hash := id], ids := s.ids + {id},
         threads := s.threads[t := Replacing("", hash, id)])
    case Rotate(t, id, hash) =>
      s.(store := s.store[id := Meta(hash, false)], issued := s.issued[hash := id],
         threads := s.threads[t := Replacing(s.store[id].hash, hash, id)])
    case Touch(t, id) =>
      s.(threads := s.threads[t := Replacing(s.store[id].hash, s.store[id].hash, id)])
    case Delete(t, id) =>
      s.(store := s.store - {id}, threads := s.threads[t := Dropping(s.store[id].hash, id)])
    case Discard(id) => s.(store := s.store - {id})
    case Write(t) =>
      s.(threads := s.threads - {t},
         index := match s.threads[t]
                  case Replacing(prior, next, id) => ReplaceIn(s.index, prior, next, id)
                  case Dropping(hash, id) => RemoveFrom(s.index, hash, id)
                  case _ => s.index)
    case Begin(t, hash) =>
      s.(threads := s.threads[t := if hash in s.index then Candidate(hash, s.index[hash], false) else Ensuring(hash)])
    case Check(t) =>
      var Candidate(hash, id, last) := s.threads[t];
      s.(threads := s.threads[t := if Matches(s.store, id, hash) then Found(hash, id) else Stale(hash, id, last)])
    case Repair(t) =>
      var Stale(hash, id, last) := s.threads[t];
      s.(index := RemoveFrom(s.index, hash, id),
         threads := s.threads[t := if last then Missing(hash) else Ensuring(hash)])
    case Ensure(t) =>
      var hash := s.threads[t].hash;
      s.(threads := s.threads[t := if s.loaded then Rereading(hash) else Listing(hash)])
    case List(t) =>
      s.(threads := s.threads[t := Scanning(s.threads[t].hash, s.store.Keys, map[])])
    case Scan(t, id) =>
      var Scanning(hash, todo, found) := s.threads[t];
      var usable := id in s.store && !s.store[id].revoked && s.store[id].hash != "";
      s.(threads := s.threads[t := Scanning(hash, todo - {id}, if usable then found[s.store[id].hash := id] else found)])
    case Merge(t) =>
      s.(index := s.threads[t].found + s.index, loaded := true,
         threads := s.threads[t := Rereading(s.threads[t].hash)])
    case Reread(t) =>
      var hash := s.threads[t].hash;
      s.(threads := s.threads[t := if hash in s.index then Candidate(hash, s.index[hash], true) else Missing(hash)])
  }

  /** A hash that was issued for `id` and is no longer its live token: it never will be again. */
  ghost predicate Dead(s: State, hash: string, id: string) {
    hash in s.issued && s.issued[hash] == id && !Matches(s.store, id, hash)
  }

  /** Every hash in circulation belongs to the one publication it was issued for. */
  ghost predicate Owned(s: State) {
    && "" !in s.issued && "" !in s.ids
    && (forall id | id in s.store :: id in s.ids && (s.store[id].hash == "" || (s.store[id].hash in s.issued && s.issued[s.store[id].hash] == id)))
    && (forall h | h in s.issued :: s.issued[h] in s.ids)
    && (forall h | h in s.index :: h in s.issued && s.issued[h] == s.index[h])
  }

  /** What each request in flight may rely on. */
  ghost predicate PcOk(s: State, pc: Pc) {
    match pc
    case Replacing(prior, next, id) =>
      && (next != "" ==> next in s.issued && s.issued[next] == id)
      && (prior != "" && prior != next ==> Dead(s, prior, id))
    case Dropping(hash, id) => hash != "" ==> Dead(s, hash, id)
    case Candidate(hash, id, _) => hash in s.issued && s.issued[hash] == id
    case Stale(hash, id, _) => Dead(s, hash, id)
    case Scanning(_, _, found) => forall h | h in found :: h in s.issued && s.issued[h] == found[h]
    case _ => true
  }

  ghost predicate ThreadsOk(s: State) {
    forall t | t in s.threads :: PcOk(s, s.threads[t])
  }

  ghost predicate Pending(s: State, hash: string, id: string) {
    exists t :: t in s.threads && s.threads[t].Replacing? && s.threads[t].next == hash && s.threads[t].id == id
  }

  predicate Indexed(s: State, id: string) {
    id in s.store && s.store[id].hash in s.index && s.index[s.store[id].hash] == id
  }

  /** The publication needs no index entry, has it, or has a writer on its way to write it. */
  ghost predicate Covered(s: State, id: string)
    requires id in s.store
  {
    s.store[id].revoked || s.store[id].hash == "" || Indexed(s, id) || Pending(s, s.store[id].hash, id)
  }

  /** A load in progress will not miss a publication that nobody else covers. */
  ghost predicate ScanCovers(s: State, t: nat)
    requires t in s.threads && s.threads[t].Scanning?
  {
    forall id | id in s.store && !Covered(s, id) :: id in s.threads[t].todo
      || (s.store[id].hash in s.threads[t].found && s.threads[t].found[s.store[id].hash] == id)
  }

  ghost predicate Coverage(s: State) {
    && (s.loaded ==> forall id | id in s.store :: Covered(s, id))
    && (forall t | t in s.threads && s.threads[t].Scanning? :: ScanCovers(s, t))
  }

  ghost predicate Inv(s: State) {
    Owned(s) && ThreadsOk(s) && Coverage(s)
  }

  /** After a restart: any metadata with distinct token hashes, and an empty index. */
  ghost predicate Init(s: State) {
    && s.index == map[] && !s.loaded && s.threads == map[]
    && s.ids == s.store.Keys && "" !in s.store
    && (forall h :: h in s.issued <==> h != "" && exists id :: id in s.store && s.store[id].hash == h)
    && (forall id | id in s.store && s.store[id].hash != "" :: s.issued[s.store[id].hash] == id)
  }

  lemma InitInv(s: State)
    requires Init(s)
    ensures Inv(s)
  {
  }

  /** Once dead, always dead: fresh tokens and ids are why. */
  lemma DeadStays(s: State, a: Action, hash: string, id: string)
    requires Owned(s) && Enabled(s, a) && Dead(s, hash, id)
    ensures Dead(Apply(s, a), hash, id)
  {
  }

  lemma StepOwnsIssued(s: State, a: Action)
    requires Owned(s) && Enabled(s, a)
    ensures var s' := Apply(s, a);
            && "" !in s'.issued && "" !in s'.ids && (forall h | h in s'.issued :: s'.issued[h] in s'.ids)
            && (forall h | h in s.issued :: h in s'.issued && s'.issued[h] == s.issued[h])
  {
  }

  lemma StepOwnsStore(s: State, a: Action)
    requires Owned(s) && Enabled(s, a)
    ensures var s' := Apply(s, a);
            forall id | id in s'.store ::
              id in s'.ids && (s'.store[id].hash == "" || (s'.store[id].hash in s'.issued && s'.issued[s'.store[id].hash] == id))
  {
  }

  lemma StepOwnsIndex(s: State, a: Action)
    requires Owned(s) && ThreadsOk(s) && Enabled(s, a)
    ensures forall h | h in Apply(s, a).index :: h in s.issued && s.issued[h] == Apply(s, a).index[h]
  {
    match a
    case Write(t) => assert PcOk(s, s.threads[t]);
    case Merge(t) => assert PcOk(s, s.threads[t]);
    case _ =>
  }

  /** The index write of a rotation or a deletion takes the retired token out, and so does the repair of a lookup. */
  lemma RetiredTokensLeave(s: State, a: Action)
    requires Owned(s) && ThreadsOk(s) && Enabled(s, a)
    ensures a.Write? && s.threads[a.t].Replacing? && s.threads[a.t].prior != "" && s.threads[a.t].prior != s.threads[a.t].next
            ==> s.threads[a.t].prior !in Apply(s, a).index
    ensures a.Write? && s.threads[a.t].Dropping? && s.threads[a.t].hash != "" ==> s.threads[a.t].hash !in Apply(s, a).index
    ensures a.Repair? ==> s.threads[a.t].hash !in Apply(s, a).index
    ensures forall h | h in s.index && h !in Apply(s, a).index :: Dead(s, h, s.index[h])
  {
    match a
    case Write(t) => assert PcOk(s, s.threads[t]);
    case Repair(t) => assert PcOk(s, s.threads[t]);
    case _ =>
  }

  lemma StepOwned(s: State, a: Action)
    requires Owned(s) && ThreadsOk(s) && Enabled(s, a)
    ensures Owned(Apply(s, a))
  {
    StepOwnsIssued(s, a);
    StepOwnsStore(s, a);
    StepOwnsIndex(s, a);
  }

  /** What a request relied on before a step of another one, it can rely on afterwards. */
  lemma PcStays(s: State, a: Action, pc: Pc)
    requires Owned(s) && Enabled(s, a) && PcOk(s, pc)
    ensures PcOk(Apply(s, a), pc)
  {
    StepOwnsIssued(s, a);
    match pc
    case Replacing(prior, next, id) =>
      if prior != "" && prior != next { DeadStays(s, a, prior, id); }
    case Dropping(hash, id) =>
      if hash != "" { DeadStays(s, a, hash, id); }
    case Stale(hash, id, _) => DeadStays(s, a, hash, id);
    case _ =>
  }

  lemma StepThreads(s: State, a: Action)
    requires Owned(s) && ThreadsOk(s) && Enabled(s, a)
    ensures ThreadsOk(Apply(s, a))
  {
    var s' := Apply(s, a);
    forall t | t in s'.threads ensures PcOk(s', s'.threads[t]) {
      if t in s.threads && s'.threads[t] == s.threads[t] {
        PcStays(s, a, s.threads[t]);
      } else if t in s.threads {
        assert PcOk(s, s.threads[t]);
      }
    }
  }

  /** The index entry of a live token is never removed. */
  lemma EntryStays(s: State, a: Action, hash: string, id: string)
    requires Owned(s) && ThreadsOk(s) && Enabled(s, a)
    requires hash in s.index && s.index[hash] == id && Matches(s.store, id, hash)
    ensures hash in Apply(s, a).index && Apply(s, a).index[hash] == id
  {
    match a
    case Write(t) => assert PcOk(s, s.threads[t]);
    case Repair(t) => assert PcOk(s, s.threads[t]);
    case _ =>
  }

  lemma PendingStays(s: State, a: Action, hash: string, id: string)
    requires Enabled(s, a) && Pending(s, hash, id) && hash != "" && id != ""
    ensures Pending(Apply(s, a), hash, id)
            || (hash in Apply(s, a).index && Apply(s, a).index[hash] == id)
  {
    var s' := Apply(s, a);
    var t :| t in s.threads && s.threads[t].Replacing? && s.threads[t].next == hash && s.threads[t].id == id;
    if a != Write(t) {
      assert t in s'.threads && s'.threads[t] == s.threads[t];
    }
  }

  /** A covered publication stays covered, and a writer covers what it has just saved. */
  lemma CoveredStays(s: State, a: Action, id: string)
    requires Owned(s) && ThreadsOk(s) && Enabled(s, a)
    requires id in Apply(s, a).store && (id in s.store ==> Covered(s, id) || (a.Rotate? && a.id == id))
    ensures Covered(Apply(s, a), id)
  {
    var s' := Apply(s, a);
    if (a.Create? || a.Rotate?) && a.id == id {
      assert s'.threads[a.t].Replacing? && s'.threads[a.t].next == s'.store[id].hash && s'.threads[a.t].id == id;
    } else {
      assert id in s.store && s'.store[id] == s.store[id];
      var hash := s.store[id].hash;
      if !s.store[id].revoked && hash != "" {
        if Indexed(s, id) {
          EntryStays(s, a, hash, id);
        } else {
          PendingStays(s, a, hash, id);
        }
      }
    }
  }

  lemma StepScan(s: State, a: Action, t: nat)
    requires Owned(s) && ThreadsOk(s) && Coverage(s) && Enabled(s, a)
    requires t in Apply(s, a).threads && Apply(s, a).threads[t].Scanning?
    ensures ScanCovers(Apply(s, a), t)
  {
    var s' := Apply(s, a);
    forall id | id in s'.store && !Covered(s', id)
      ensures id in s'.threads[t].todo
              || (s'.store[id].hash in s'.threads[t].found && s'.threads[t].found[s'.store[id].hash] == id)
    {
      if id !in s.store || Covered(s, id) || (a.Rotate? && a.id == id) {
        CoveredStays(s, a, id);
      } else {
        assert s'.store[id] == s.store[id];
        if t in s.threads && s.threads[t].Scanning? {
          assert ScanCovers(s, t);
          assert PcOk(s, s.threads[t]);
          assert PcOk(s', s'.threads[t]) by { StepThreads(s, a); }
        } else {
          assert a == List(t);
        }
      }
    }
  }

  lemma StepCoverage(s: State, a: Action)
    requires Owned(s) && ThreadsOk(s) && Coverage(s) && Enabled(s, a)
    ensures Coverage(Apply(s, a))
  {
    var s' := Apply(s, a);
    forall t | t in s'.threads && s'.threads[t].Scanning? ensures ScanCovers(s', t) {
      StepScan(s, a, t);
    }
    if s'.loaded {
      forall id | id in s'.store ensures Covered(s', id) {
        if id !in s.store || Covered(s, id) {
          CoveredStays(s, a, id);
        } else {
          MergeCovers(s, a.t, id);
        }
      }
    }
  }

  /** A finished load covers what it was responsible for. */
  lemma MergeCovers(s: State, t: nat, id: string)
    requires Owned(s) && Coverage(s) && Enabled(s, Merge(t)) && id in s.store && !Covered(s, id)
    ensures Covered(Apply(s, Merge(t)), id)
  {
    assert ScanCovers(s, t);
  }

  lemma StepKeepsInv(s: State, a: Action)
    requires Inv(s) && Enabled(s, a)
    ensures Inv(Apply(s, a))
  {
    StepOwned(s, a);
    StepThreads(s, a);
    StepCoverage(s, a);
  }

  ghost predicate Legal(s: State, run: seq<Action>)
    decreases |run|
  {
    run == [] || (Enabled(s, run[0]) && Legal(Apply(s, run[0]), run[1..]))
  }

  ghost function After(s: State, run: seq<Action>): State
    requires Legal(s, run)
    decreases |run|
  {
    if run == [] then s else After(Apply(s, run[0]), run[1..])
  }

  lemma {:induction false} RunKeepsInv(s: State, run: seq<Action>)
    requires Inv(s) && Legal(s, run)
    ensures Inv(After(s, run))
    decreases |run|
  {
    if run != [] {
      StepKeepsInv(s, run[0]);
      RunKeepsInv(Apply(s, run[0]), run[1..]);
    }
  }

  /** The index agrees with the store: after any interleaving, once the index is loaded, every stored
      and non-revoked publication whose writers have written the index is indexed under its current
      token hash, and no entry names a publication the hash was not issued for. */
  lemma IndexAgreesWithStore(s: State, run: seq<Action>, id: string)
    requires Init(s) && Legal(s, run)
    ensures var e := After(s, run);
            && (forall h | h in e.index && h in e.issued :: e.index[h] == e.issued[h])
            && (e.loaded && id in e.store && !e.store[id].revoked && e.store[id].hash != "" ==>
                  Indexed(e, id) || Pending(e, e.store[id].hash, id))
  {
    InitInv(s);
    RunKeepsInv(s, run);
  }

  /** No two publications ever answer to the same hash. */
  lemma TokensIdentify(s: State, a: string, b: string, hash: string)
    requires Inv(s) && hash != "" && Matches(s.store, a, hash) && Matches(s.store, b, hash)
    ensures a == b
  {
  }

  /** A lookup by itself, from the first read of the index to its answer. */
  ghost function Lookup(s: State, t: nat, hash: string): Pc
    requires Enabled(s, Begin(t, hash)) && s.loaded
  {
    var s1 := Apply(s, Begin(t, hash));
    if s1.threads[t].Candidate? then
      var s2 := Apply(s1, Check(t));
      if s2.threads[t].Found? then s2.threads[t] else SecondLookup(Apply(s2, Repair(t)), t)
    else SecondLookup(s1, t)
  }

  ghost function SecondLookup(s: State, t: nat): Pc
    requires t in s.threads && s.threads[t].Ensuring? && s.loaded
  {
    var s1 := Apply(Apply(s, Ensure(t)), Reread(t));
    if s1.threads[t].Missing? then s1.threads[t]
    else
      var s2 := Apply(s1, Check(t));
      if s2.threads[t].Found? then s2.threads[t] else Apply(s2, Repair(t)).threads[t]
  }

  /** In a loaded index without a writer in between, a lookup finds exactly the publications that
      are stored, not revoked and carry the hash. */
  lemma LookupIsExact(s: State, t: nat, hash: string, id: string)
    requires Inv(s) && s.loaded && Enabled(s, Begin(t, hash))
    requires forall u | u in s.threads :: !s.threads[u].Replacing?
    ensures Lookup(s, t, hash) == Found(hash, id) <==> Matches(s.store, id, hash)
    ensures Lookup(s, t, hash) == Missing(hash) <==> forall x :: !Matches(s.store, x, hash)
  {
    LookupAnswers(s, t, hash);
    forall x | Matches(s.store, x, hash) ensures hash in s.index && s.index[hash] == x {
      assert Covered(s, x);
    }
  }

  lemma LookupAnswers(s: State, t: nat, hash: string)
    requires s.loaded && Enabled(s, Begin(t, hash))
    ensures Lookup(s, t, hash) == if hash in s.index && Matches(s.store, s.index[hash], hash) then Found(hash, s.index[hash]) else Missing(hash)
  {
  }

  // ---- Lookups among everything else that goes on ----

  predicate Ends(a: Action, id: string) {
    (a.Rotate? || a.Delete? || a.Discard?) && a.id == id
  }

  predicate Finds(pc: Pc, hash: string, id: string) {
    pc.Scanning? && (id in pc.todo || (hash in pc.found && pc.found[hash] == id))
  }

  /** The publication is indexed, or nobody has finished a load and no load in progress will miss it. */
  ghost predicate Findable(s: State, hash: string, id: string) {
    && Matches(s.store, id, hash)
    && (Indexed(s, id) || (!s.loaded && forall u | u in s.threads && s.threads[u].Scanning? :: Finds(s.threads[u], hash, id)))
  }

  /** Where a lookup can be that will be answered with the publication. */
  predicate Tracking(s: State, t: nat, hash: string, id: string) {
    t in s.threads &&
    match s.threads[t]
    case Found(h, i) => h == hash && i == id
    case Candidate(h, i, _) => h == hash && i == id
    case Ensuring(h) => h == hash
    case Listing(h) => h == hash
    case Scanning(h, _, _) => h == hash
    case Rereading(h) => h == hash && Indexed(s, id)
    case _ => false
  }

  lemma FindableStays(s: State, a: Action, hash: string, id: string)
    requires Inv(s) && Enabled(s, a) && hash != "" && Findable(s, hash, id) && !Ends(a, id)
    ensures Findable(Apply(s, a), hash, id)
  {
    var s' := Apply(s, a);
    if Indexed(s, id) {
      EntryStays(s, a, hash, id);
    } else if a.Merge? {
      assert Finds(s.threads[a.t], hash, id);
    } else if !Indexed(s', id) {
      forall u | u in s'.threads && s'.threads[u].Scanning? ensures Finds(s'.threads[u], hash, id) {
        if u in s.threads && s.threads[u].Scanning? {
          assert Finds(s.threads[u], hash, id);
        }
      }
    }
  }

  lemma TrackingWhileIndexed(s: State, a: Action, t: nat, hash: string, id: string)
    requires Enabled(s, a) && hash != "" && Matches(s.store, id, hash) && Indexed(s, id) && Tracking(s, t, hash, id)
    requires Matches(Apply(s, a).store, id, hash) && Indexed(Apply(s, a), id)
    ensures Tracking(Apply(s, a), t, hash, id)
  {
  }

  lemma TrackingWhileLoading(s: State, a: Action, t: nat, hash: string, id: string)
    requires Owned(s) && ThreadsOk(s) && Enabled(s, a) && Findable(s, hash, id) && !Indexed(s, id) && Tracking(s, t, hash, id)
    requires Findable(Apply(s, a), hash, id)
    ensures Tracking(Apply(s, a), t, hash, id)
  {
    if a == Merge(t) {
      assert Finds(s.threads[t], hash, id) && PcOk(s, s.threads[t]);
    }
  }

  lemma TrackingStays(s: State, a: Action, t: nat, hash: string, id: string)
    requires Inv(s) && Enabled(s, a) && hash != "" && Findable(s, hash, id) && !Ends(a, id) && Tracking(s, t, hash, id)
    ensures Tracking(Apply(s, a), t, hash, id)
  {
    FindableStays(s, a, hash, id);
    if Indexed(s, id) {
      EntryStays(s, a, hash, id);
      TrackingWhileIndexed(s, a, t, hash, id);
    } else {
      TrackingWhileLoading(s, a, t, hash, id);
    }
  }

  lemma {:induction false} TrackingRuns(s: State, t: nat, hash: string, id: string, run: seq<Action>)
    requires Inv(s) && hash != "" && Findable(s, hash, id) && Tracking(s, t, hash, id) && Legal(s, run)
    requires forall i | 0 <= i < |run| :: !Ends(run[i], id)
    ensures Findable(After(s, run), hash, id) && Tracking(After(s, run), t, hash, id)
    decreases |run|
  {
    if run != [] {
      assert !Ends(run[0], id);
      FindableStays(s, run[0], hash, id);
      TrackingStays(s, run[0], t, hash, id);
      StepKeepsInv(s, run[0]);
      TrackingRuns(Apply(s, run[0]), t, hash, id, run[1..]);
    }
  }

  /** Whether the index is loaded or not, the first lookup after a restart included: a lookup that begins while a
      token is live, and indexed or without a writer about to index it, is answered with its publication, whatever
      loads, writers, repairs and other lookups do meanwhile. It is never told that the token is missing. */
  lemma LookupNeverMisses(s: State, t: nat, hash: string, id: string, run: seq<Action>)
    requires Inv(s) && Matches(s.store, id, hash) && (Indexed(s, id) || !Pending(s, hash, id)) && Enabled(s, Begin(t, hash))
    requires Legal(Apply(s, Begin(t, hash)), run) && forall i | 0 <= i < |run| :: !Ends(run[i], id)
    ensures var e := After(Apply(s, Begin(t, hash)), run);
            && Findable(e, hash, id) && Tracking(e, t, hash, id)
            && e.threads[t] != Missing(hash) && (e.threads[t].Found? ==> e.threads[t] == Found(hash, id))
  {
    BeginTracks(s, t, hash, id);
    StepKeepsInv(s, Begin(t, hash));
    TrackingRuns(Apply(s, Begin(t, hash)), t, hash, id, run);
  }

  lemma BeginTracks(s: State, t: nat, hash: string, id: string)
    requires Inv(s) && Matches(s.store, id, hash) && (Indexed(s, id) || !Pending(s, hash, id)) && Enabled(s, Begin(t, hash))
    ensures Findable(Apply(s, Begin(t, hash)), hash, id) && Tracking(Apply(s, Begin(t, hash)), t, hash, id)
  {
    if !Indexed(s, id) {
      assert !Covered(s, id);
      forall u | u in s.threads && s.threads[u].Scanning? ensures Finds(s.threads[u], hash, id) {
        assert ScanCovers(s, u);
      }
      assert Findable(s, hash, id);
      FindableStays(s, Begin(t, hash), hash, id);
    }
  }

  /** The index as the server keeps it. */
  class TokenIndex {
    var index: map<string, string>
    var loaded: bool

    constructor ()
      ensures index == map[] && !loaded
    {
      index, loaded := map[], false;
    }

    method Replace(prior: string, next: string, id: string)
      modifies this`index
      ensures index == ReplaceIn(old(index), prior, next, id)
    {
      if prior != "" && prior != next && prior in index && index[prior] == id {
        index := index - {prior};
      }
      if next != "" && id != "" {
        index := index[next := id];
      }
    }

    method Remove(hash: string, id: string)
      modifies this`index
      ensures index == RemoveFrom(old(index), hash, id)
    {
      if hash in index && index[hash] == id {
        index := index - {hash};
      }
    }

    /** The last section of `ensurePublishedTokenIndex`: existing entries win over discovered ones. */
    method MergeDiscovered(discovered: map<string, string>)
      modifies this
      ensures index == discovered + old(index) && loaded
    {
      var todo := discovered.Keys;
      while todo != {}
        invariant todo <= discovered.Keys
        invariant index == (map h | h in discovered && h !in todo :: discovered[h]) + old(index)
        decreases todo
      {
        var hash :| hash in todo;
        todo := todo - {hash};
        if hash !in index {
          index := index[hash := discovered[hash]];
        }
      }
      loaded := true;
      assert index == discovered + old(index);
    }
  }
}
