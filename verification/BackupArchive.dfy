/** Export and validation of backup archives, `internal/backup/archive.go`. Compression, JSON, SHA-256 and
    time parsing are parameters. */
module BackupArchive {
  import opened Common
  import opened Text
  import opened ArchiveNames

  type Bytes = seq<bv8>

  const FORMAT_VERSION := 1
  const MAX_ARCHIVE_SIZE := 0x100_0000
  const MAX_EXPANDED_SIZE := 0x400_0000
  const MAX_FILE_SIZE := 0x100_0000
  const MAX_MANIFEST_SIZE := 0x10_0000
  const MAX_FILES := 2000
  const CONFIG_NAME := "config/subconv-next"
  const MANIFEST_NAME := "manifest.json"

  datatype FileRecord = FileRecord(path: string, size: int, sha: string)

  datatype Manifest = Manifest(
    formatVersion: int,
    application: string,
    appVersion: string,
    createdAt: string,
    includes: seq<string>,
    files: seq<FileRecord>)

  /** A tar member; a truncated archive delivers less content than the header announces. */
  datatype Entry = Entry(name: string, regular: bool, size: int, content: Bytes)

  /** `intact` says that reading past the last member finds the end and not a damaged header. */
  datatype Archive = Archive(regular: bool, compressedSize: int, gzip: bool, entries: seq<Entry>, intact: bool)

  /** `validName` is `ArchiveNames.ValidName` wherever it matters (`ChecksNames`). */
  datatype Tools = Tools(
    validName: string -> bool,
    sha: Bytes -> string,
    sameSha: (string, string) -> bool,
    encode: Manifest -> Bytes,
    decode: Bytes -> Option<Manifest>,
    validTime: string -> bool)

  ghost predicate ChecksNames(t: Tools) {
    forall name :: t.validName(name) <==> ValidName(name)
  }

  predicate IsPayload(name: string) {
    name == CONFIG_NAME || HasPrefix(name, "data/")
  }

  /** What `scanArchive` has gathered. */
  datatype Scan = Scan(observed: map<string, FileRecord>, manifest: Option<Bytes>, total: int)

  /** One member passes all checks of the loop body. */
  predicate Admissible(t: Tools, s: Scan, e: Entry) {
    && t.validName(e.name) && e.regular
    && 0 <= e.size <= MAX_FILE_SIZE && s.total + e.size <= MAX_EXPANDED_SIZE
    && |e.content| == e.size
    && (if e.name == MANIFEST_NAME then s.manifest == None && e.size <= MAX_MANIFEST_SIZE
        else IsPayload(e.name) && e.name !in s.observed)
  }

  function Admit(t: Tools, s: Scan, e: Entry): Scan {
    if e.name == MANIFEST_NAME then Scan(s.observed, Some(e.content), s.total + e.size)
    else Scan(s.observed[e.name := FileRecord(e.name, e.size, t.sha(e.content))], s.manifest, s.total + e.size)
  }

  /** The loop over a prefix of the members. */
  function ScanEntries(t: Tools, es: seq<Entry>): Option<Scan> {
    if es == [] then Some(Scan(map[], None, 0))
    else
      var r := ScanEntries(t, es[..|es| - 1]);
      if r.None? || |es| > MAX_FILES + 1 || !Admissible(t, r.value, es[|es| - 1]) then None
      else Some(Admit(t, r.value, es[|es| - 1]))
  }

  ghost function Total(es: seq<Entry>): int {
    if es == [] then 0 else Total(es[..|es| - 1]) + es[|es| - 1].size
  }

  ghost predicate EntryOk(t: Tools, e: Entry) {
    && t.validName(e.name) && e.regular && 0 <= e.size <= MAX_FILE_SIZE && |e.content| == e.size
    && (e.name == MANIFEST_NAME ==> e.size <= MAX_MANIFEST_SIZE)
    && (e.name != MANIFEST_NAME ==> IsPayload(e.name))
  }

  ghost predicate DistinctNames(es: seq<Entry>) {
    forall i, j | 0 <= i < j < |es| :: es[i].name != es[j].name
  }

  /** The members of an acceptable archive, stated without the loop. */
  ghost predicate EntriesOk(t: Tools, es: seq<Entry>) {
    && |es| <= MAX_FILES + 1 && Total(es) <= MAX_EXPANDED_SIZE
    && (forall i | 0 <= i < |es| :: EntryOk(t, es[i])) && DistinctNames(es)
  }

  ghost predicate Named(es: seq<Entry>, name: string) {
    exists i :: 0 <= i < |es| && es[i].name == name
  }

  function RecordOf(t: Tools, e: Entry): FileRecord {
    FileRecord(e.name, e.size, t.sha(e.content))
  }

  ghost predicate Observes(t: Tools, es: seq<Entry>, observed: map<string, FileRecord>) {
    && (forall i | 0 <= i < |es| && es[i].name != MANIFEST_NAME ::
          es[i].name in observed && observed[es[i].name] == RecordOf(t, es[i]))
    && (forall n | n in observed :: n != MANIFEST_NAME && Named(es, n))
  }

  ghost predicate HoldsManifest(es: seq<Entry>, manifest: Option<Bytes>) {
    && (forall i | 0 <= i < |es| && es[i].name == MANIFEST_NAME :: manifest == Some(es[i].content))
    && (manifest.Some? ==> Named(es, MANIFEST_NAME))
  }

  ghost predicate Gathered(t: Tools, es: seq<Entry>, s: Scan) {
    s.total == Total(es) && Observes(t, es, s.observed) && HoldsManifest(es, s.manifest)
  }

  lemma NamedGrows(es: seq<Entry>, e: Entry, name: string)
    ensures Named(es + [e], name) <==> Named(es, name) || e.name == name
  {
    assert (es + [e])[|es|] == e;
    if i :| 0 <= i < |es| && es[i].name == name {
      assert (es + [e])[i] == es[i];
    }
  }

  lemma ObserveOne(t: Tools, es: seq<Entry>, e: Entry, s: Scan)
    requires Observes(t, es, s.observed) && Admissible(t, s, e)
    ensures Observes(t, es + [e], Admit(t, s, e).observed)
  {
    var observed := Admit(t, s, e).observed;
    forall n | n in observed ensures n != MANIFEST_NAME && Named(es + [e], n) {
      NamedGrows(es, e, n);
    }
  }

  lemma GatherOne(t: Tools, es: seq<Entry>, e: Entry, s: Scan)
    requires Gathered(t, es, s) && Admissible(t, s, e)
    ensures Gathered(t, es + [e], Admit(t, s, e))
  {
    assert (es + [e])[..|es|] == es;
    ObserveOne(t, es, e, s);
    NamedGrows(es, e, MANIFEST_NAME);
    assert HoldsManifest(es + [e], Admit(t, s, e).manifest) by {
      if e.name == MANIFEST_NAME {
        assert forall i | 0 <= i < |es| :: es[i].name != MANIFEST_NAME;
      }
    }
  }

  /** The loop accepts exactly the acceptable members, and gathers every one of them. */
  lemma {:induction false} ScanAcceptsExactly(t: Tools, es: seq<Entry>)
    ensures ScanEntries(t, es).Some? <==> EntriesOk(t, es)
    ensures ScanEntries(t, es).Some? ==> Gathered(t, es, ScanEntries(t, es).value)
  {
    if es != [] {
      var n := |es| - 1;
      var init, e := es[..n], es[n];
      assert es == init + [e];
      ScanAcceptsExactly(t, init);
      if ScanEntries(t, es).Some? {
        GatherOne(t, init, e, ScanEntries(t, init).value);
        AdmittedOk(t, init, e, ScanEntries(t, init).value);
      }
      if EntriesOk(t, es) {
        InitOk(t, init, e);
        OkAdmitted(t, init, e, ScanEntries(t, init).value);
      }
    }
  }

  lemma AdmittedOk(t: Tools, es: seq<Entry>, e: Entry, s: Scan)
    requires EntriesOk(t, es) && Gathered(t, es, s) && Admissible(t, s, e) && |es| <= MAX_FILES
    ensures EntriesOk(t, es + [e])
  {
    assert (es + [e])[..|es|] == es;
    assert forall i | 0 <= i < |es| :: es[i].name != e.name;
  }

  lemma InitOk(t: Tools, es: seq<Entry>, e: Entry)
    requires EntriesOk(t, es + [e])
    ensures EntriesOk(t, es) && Total(es) + e.size <= MAX_EXPANDED_SIZE && EntryOk(t, e)
    ensures forall i | 0 <= i < |es| :: es[i].name != e.name
  {
    var all := es + [e];
    assert all[..|es|] == es && all[|es|] == e;
    assert forall i | 0 <= i < |es| :: all[i] == es[i];
  }

  lemma OkAdmitted(t: Tools, es: seq<Entry>, e: Entry, s: Scan)
    requires Gathered(t, es, s) && Total(es) + e.size <= MAX_EXPANDED_SIZE && EntryOk(t, e)
    requires forall i | 0 <= i < |es| :: es[i].name != e.name
    ensures Admissible(t, s, e)
  {
  }

  /** The checks on the manifest itself. */
  predicate HeaderOk(t: Tools, m: Manifest) {
    && m.formatVersion == FORMAT_VERSION && m.application == "subconv-next"
    && m.appVersion != "" && m.createdAt != "" && m.includes != [] && t.validTime(m.createdAt)
    && "service_config" in m.includes && "business_data" in m.includes
  }

  predicate Matches(t: Tools, f: FileRecord, observed: map<string, FileRecord>) {
    f.path in observed && observed[f.path].size == f.size && t.sameSha(observed[f.path].sha, f.sha)
  }

  ghost predicate DistinctPaths(files: seq<FileRecord>) {
    forall i, j | 0 <= i < j < |files| :: files[i].path != files[j].path
  }

  function PathSet(files: seq<FileRecord>): set<string> {
    set f | f in files :: f.path
  }

  ghost predicate AllMatch(t: Tools, files: seq<FileRecord>, observed: map<string, FileRecord>) {
    forall i | 0 <= i < |files| :: Matches(t, files[i], observed)
  }

  /** As many records as files, no record twice, each matching its file, the configuration among them. */
  ghost predicate FilesOk(t: Tools, files: seq<FileRecord>, observed: map<string, FileRecord>) {
    && |files| == |observed| && DistinctPaths(files) && AllMatch(t, files, observed) && CONFIG_NAME in PathSet(files)
  }

  lemma NextFile(t: Tools, files: seq<FileRecord>, f: FileRecord, observed: map<string, FileRecord>)
    ensures PathSet(files + [f]) == PathSet(files) + {f.path}
    ensures DistinctPaths(files + [f]) <==> DistinctPaths(files) && f.path !in PathSet(files)
    ensures AllMatch(t, files + [f], observed) <==> AllMatch(t, files, observed) && Matches(t, f, observed)
  {
    var all := files + [f];
    assert all[|files|] == f && forall i | 0 <= i < |files| :: all[i] == files[i] && files[i] in files;
  }

  lemma FailedPrefix(t: Tools, files: seq<FileRecord>, n: nat, observed: map<string, FileRecord>)
    requires n <= |files| && !(DistinctPaths(files[..n]) && AllMatch(t, files[..n], observed))
    ensures !(DistinctPaths(files) && AllMatch(t, files, observed))
  {
    assert forall i | 0 <= i < n :: files[..n][i] == files[i];
  }

  /** The loop over the manifest's records. */
  method CheckFiles(t: Tools, files: seq<FileRecord>, observed: map<string, FileRecord>) returns (ok: bool)
    ensures ok <==> FilesOk(t, files, observed)
  {
    if |files| != |observed| {
      return false;
    }
    var hasConfig := false;
    var manifestPaths: set<string> := {};
    for i := 0 to |files|
      invariant manifestPaths == PathSet(files[..i])
      invariant DistinctPaths(files[..i])
      invariant AllMatch(t, files[..i], observed)
      invariant hasConfig <==> CONFIG_NAME in manifestPaths
    {
      NextFile(t, files[..i], files[i], observed);
      assert files[..i + 1] == files[..i] + [files[i]];
      if files[i].path in manifestPaths || !Matches(t, files[i], observed) {
        FailedPrefix(t, files, i + 1, observed);
        return false;
      }
      manifestPaths := manifestPaths + {files[i].path};
      if files[i].path == CONFIG_NAME {
        hasConfig := true;
      }
    }
    assert files[..|files|] == files;
    ok := hasConfig;
  }

  /** `scanArchive` accepts the archive with this manifest. */
  ghost predicate Accepts(t: Tools, a: Archive, m: Manifest) {
    && a.regular && 0 < a.compressedSize <= MAX_ARCHIVE_SIZE && a.gzip && a.intact
    && ScanEntries(t, a.entries).Some?
    && var s := ScanEntries(t, a.entries).value;
       s.manifest.Some? && t.decode(s.manifest.value) == Some(m) && HeaderOk(t, m) && FilesOk(t, m.files, s.observed)
  }

  /** `scanArchive`. */
  method ScanArchive(t: Tools, a: Archive) returns (r: Option<Manifest>)
    ensures forall m :: r == Some(m) <==> Accepts(t, a, m)
  {
    if !a.regular || a.compressedSize <= 0 || a.compressedSize > MAX_ARCHIVE_SIZE || !a.gzip {
      return None;
    }
    var s := Scan(map[], None, 0);
    for count := 0 to |a.entries|
      invariant ScanEntries(t, a.entries[..count]) == Some(s)
    {
      var e := a.entries[count];
      assert a.entries[..count + 1][..count] == a.entries[..count];
      if count >= MAX_FILES + 1 || !Admissible(t, s, e) {
        RejectedPrefix(t, a.entries, count + 1);
        return None;
      }
      s := Admit(t, s, e);
    }
    assert a.entries[..|a.entries|] == a.entries;
    if !a.intact || s.manifest.None? {
      return None;
    }
    var m := t.decode(s.manifest.value);
    if m.None? || !HeaderOk(t, m.value) {
      return None;
    }
    var ok := CheckFiles(t, m.value.files, s.observed);
    r := if ok then m else None;
  }

  lemma {:induction false} RejectedPrefix(t: Tools, es: seq<Entry>, n: nat)
    requires n <= |es| && ScanEntries(t, es[..n]).None?
    ensures ScanEntries(t, es).None?
  {
    if n < |es| {
      var init := es[..|es| - 1];
      assert init[..n] == es[..n];
      RejectedPrefix(t, init, n);
    } else {
      assert es[..n] == es;
    }
  }

  function Paths(files: seq<FileRecord>): seq<string> {
    seq(|files|, i requires 0 <= i < |files| => files[i].path)
  }

  /** Equal counts, no repetition and membership make manifest records and archive files a bijection:
      every file has its one record, with its size and hash, and every record its file. */
  lemma FilesAreTheManifest(t: Tools, files: seq<FileRecord>, observed: map<string, FileRecord>, path: string)
    requires FilesOk(t, files, observed)
    ensures path in observed <==> exists i :: 0 <= i < |files| && files[i].path == path
    ensures forall i, j | 0 <= i < |files| && 0 <= j < |files| && files[i].path == files[j].path :: i == j
    ensures CONFIG_NAME in observed
  {
    DistinctSize(Paths(files));
    assert forall p | p in Elements(Paths(files)) :: p in observed;
    SubsetOfSameSize(Elements(Paths(files)), observed.Keys);
    assert path in Paths(files) <==> path in observed;
  }

  /** What acceptance guarantees about the archive itself. */
  lemma AcceptedArchive(t: Tools, a: Archive, m: Manifest, i: nat)
    requires Accepts(t, a, m) && ChecksNames(t) && i < |a.entries|
    ensures EntriesOk(t, a.entries) && |a.entries| == |m.files| + 1
    ensures a.entries[i].name != MANIFEST_NAME ==>
              exists j :: 0 <= j < |m.files| && m.files[j].path == a.entries[i].name
                          && m.files[j].size == |a.entries[i].content| && t.sameSha(t.sha(a.entries[i].content), m.files[j].sha)
    ensures HasPrefix(a.entries[i].name, "data/") ==> forall p | p in Split(a.entries[i].name, '/') :: Normal(p)
  {
    var e := a.entries[i];
    var s := ScanEntries(t, a.entries).value;
    ScanAcceptsExactly(t, a.entries);
    CountObserved(t, a.entries, s);
    assert EntryOk(t, e);
    if e.name != MANIFEST_NAME {
      FilesAreTheManifest(t, m.files, s.observed, e.name);
      var j :| 0 <= j < |m.files| && m.files[j].path == e.name;
      assert Matches(t, m.files[j], s.observed);
    }
    if HasPrefix(e.name, "data/") {
      ValidNamesStayInside(e.name);
    }
  }

  function Names(es: seq<Entry>): seq<string> {
    seq(|es|, i requires 0 <= i < |es| => es[i].name)
  }

  lemma NamedIffObserved(t: Tools, es: seq<Entry>, s: Scan, n: string)
    requires Gathered(t, es, s) && s.manifest.Some?
    ensures n in Names(es) <==> n in s.observed || n == MANIFEST_NAME
    ensures MANIFEST_NAME !in s.observed
  {
    if i :| 0 <= i < |es| && es[i].name == n {
      assert Names(es)[i] == n;
    }
  }

  lemma NamesAreDistinct(es: seq<Entry>)
    requires DistinctNames(es)
    ensures Distinct(Names(es))
  {
  }

  lemma CountObserved(t: Tools, es: seq<Entry>, s: Scan)
    requires DistinctNames(es) && Gathered(t, es, s) && s.manifest.Some?
    ensures |es| == |s.observed| + 1
  {
    NamesAreDistinct(es);
    DistinctSize(Names(es));
    forall n ensures n in Elements(Names(es)) <==> n in s.observed || n == MANIFEST_NAME {
      NamedIffObserved(t, es, s, n);
    }
    assert Elements(Names(es)) == s.observed.Keys + {MANIFEST_NAME};
  }

  // ---- Export ----

  /** A file to back up: its archive path and content. */
  datatype Source = Source(path: string, content: Bytes)

  function SourceSize(sources: seq<Source>): nat {
    if sources == [] then 0 else SourceSize(sources[..|sources| - 1]) + |sources[|sources| - 1].content|
  }

  // ---- Sorting by path ----

  ghost predicate PathsAscend(sources: seq<Source>) {
    forall i, j | 0 <= i < j < |sources| :: !Less(sources[j].path, sources[i].path)
  }

  lemma NotAfter(a: string, b: string, c: string)
    requires !Less(b, a) && !Less(c, b)
    ensures !Less(c, a)
  {
    LessTotal(a, b);
    if Less(c, a) && Less(a, b) {
      LessTransitive(c, a, b);
    }
  }

  function InsertSource(s: Source, sources: seq<Source>): seq<Source> {
    if sources == [] || !Less(s.path, sources[|sources| - 1].path) then sources + [s]
    else InsertSource(s, sources[..|sources| - 1]) + [sources[|sources| - 1]]
  }

  lemma {:induction false} InsertKeeps(s: Source, sources: seq<Source>)
    ensures var r := InsertSource(s, sources);
            multiset(r) == multiset(sources) + multiset{s} && SourceSize(r) == SourceSize(sources) + |s.content|
  {
    if sources == [] || !Less(s.path, sources[|sources| - 1].path) {
      assert (sources + [s])[..|sources|] == sources;
    } else {
      var init, last := sources[..|sources| - 1], sources[|sources| - 1];
      assert sources == init + [last];
      InsertKeeps(s, init);
      var rest := InsertSource(s, init);
      assert (rest + [last])[..|rest|] == rest;
    }
  }

  lemma AppendAscends(s: Source, sources: seq<Source>)
    requires PathsAscend(sources) && (sources != [] ==> !Less(s.path, sources[|sources| - 1].path))
    ensures PathsAscend(sources + [s])
  {
    forall i | 0 <= i < |sources| ensures !Less(s.path, sources[i].path) {
      if i < |sources| - 1 {
        NotAfter(sources[i].path, sources[|sources| - 1].path, s.path);
      }
    }
  }

  lemma InitAscends(init: seq<Source>, last: Source)
    requires PathsAscend(init + [last])
    ensures PathsAscend(init)
  {
    assert forall i | 0 <= i < |init| :: (init + [last])[i] == init[i];
  }

  lemma InsertBeforeLast(s: Source, init: seq<Source>, last: Source)
    requires PathsAscend(init + [last]) && PathsAscend(InsertSource(s, init)) && Less(s.path, last.path)
    ensures PathsAscend(InsertSource(s, init) + [last])
  {
    InsertKeeps(s, init);
    NotBoth(s.path, last.path);
    LastIsLast(InsertSource(s, init), s, init, last);
  }

  lemma {:induction false} InsertAscends(s: Source, sources: seq<Source>)
    requires PathsAscend(sources)
    ensures PathsAscend(InsertSource(s, sources))
  {
    if sources == [] || !Less(s.path, sources[|sources| - 1].path) {
      AppendAscends(s, sources);
    } else {
      var init, last := sources[..|sources| - 1], sources[|sources| - 1];
      assert sources == init + [last];
      InitAscends(init, last);
      InsertAscends(s, init);
      InsertBeforeLast(s, init, last);
    }
  }

  lemma LastIsLast(rest: seq<Source>, s: Source, init: seq<Source>, last: Source)
    requires PathsAscend(rest) && multiset(rest) == multiset(init) + multiset{s}
    requires PathsAscend(init + [last]) && !Less(last.path, s.path)
    ensures PathsAscend(rest + [last])
  {
    forall i | 0 <= i < |rest| ensures !Less(last.path, rest[i].path) {
      assert rest[i] in multiset(rest);
      if rest[i] != s {
        var j :| 0 <= j < |init| && init[j] == rest[i];
        assert (init + [last])[j] == init[j] && (init + [last])[|init|] == last;
      }
    }
  }

  lemma NotBoth(a: string, b: string)
    requires Less(a, b)
    ensures !Less(b, a)
  {
    if Less(b, a) {
      LessTransitive(a, b, a);
      LessIrreflexive(a);
    }
  }

  function SortedByPath(sources: seq<Source>): seq<Source> {
    if sources == [] then [] else InsertSource(sources[|sources| - 1], SortedByPath(sources[..|sources| - 1]))
  }

  lemma {:induction false} SortedLaws(sources: seq<Source>)
    ensures var r := SortedByPath(sources);
            PathsAscend(r) && multiset(r) == multiset(sources) && SourceSize(r) == SourceSize(sources)
  {
    if sources != [] {
      var init, last := sources[..|sources| - 1], sources[|sources| - 1];
      assert sources == init + [last];
      SortedLaws(init);
      InsertAscends(last, SortedByPath(init));
      InsertKeeps(last, SortedByPath(init));
    }
  }

  /** `sort.Slice` by archive path. */
  method SortSources(sources: seq<Source>) returns (r: seq<Source>)
    ensures r == SortedByPath(sources)
  {
    r := [];
    for i := 0 to |sources|
      invariant r == SortedByPath(sources[..i])
    {
      assert sources[..i + 1][..i] == sources[..i];
      r := InsertSource(sources[i], r);
    }
    assert sources[..|sources|] == sources;
  }

  // ---- Collecting ----

  /** The configuration and the files found, by path. */
  function Gathering(config: Bytes, found: seq<Source>): seq<Source> {
    SortedByPath([Source(CONFIG_NAME, config)] + found)
  }

  lemma {:induction false} SizeOfConcat(a: seq<Source>, b: seq<Source>)
    ensures SourceSize(a + b) == SourceSize(a) + SourceSize(b)
  {
    if b == [] {
      assert a + b == a;
    } else {
      assert (a + b)[..|a + b| - 1] == a + b[..|b| - 1];
      SizeOfConcat(a, b[..|b| - 1]);
    }
  }

  /** It is a permutation in ascending order, and what the acceptance theorem assumes of sources. */
  lemma GatheringIsCollected(config: Bytes, found: seq<Source>)
    ensures var sources := Gathering(config, found);
            && PathsAscend(sources) && multiset(sources) == multiset([Source(CONFIG_NAME, config)] + found)
            && SourceSize(sources) == |config| + SourceSize(found) && (UnderData(found) ==> Collected(sources))
  {
    SortedLaws([Source(CONFIG_NAME, config)] + found);
    SizeOfConcat([Source(CONFIG_NAME, config)], found);
    assert [Source(CONFIG_NAME, config)][..0] == [];
    if UnderData(found) {
      FoundIsCollected(config, found);
      CollectedInAnyOrder([Source(CONFIG_NAME, config)] + found, Gathering(config, found));
    }
  }

  /** `collectSources`, given the regular files the walk finds and does not exclude, in its order. The
      configuration is not checked on its own; only data files are. */
  method CollectSources(config: Bytes, found: seq<Source>) returns (r: Option<seq<Source>>)
    ensures r.Some? <==>
              && (forall i | 0 <= i < |found| :: |found[i].content| <= 0x100_0000)
              && (found == [] || |config| + SourceSize(found) <= 0x400_0000)
              && |found| + 1 <= 2000
    ensures r.Some? ==> r.value == Gathering(config, found)
  {
    var files := [Source(CONFIG_NAME, config)];
    var total := |config|;
    for i := 0 to |found|
      invariant files == [Source(CONFIG_NAME, config)] + found[..i]
      invariant total == |config| + SourceSize(found[..i]) == SourceSize(files)
      invariant forall j | 0 <= j < i :: |found[j].content| <= MAX_FILE_SIZE
      invariant i > 0 ==> total <= MAX_EXPANDED_SIZE && i + 1 <= MAX_FILES
    {
      assert found[..i + 1][..i] == found[..i];
      if |found[i].content| > MAX_FILE_SIZE {
        return None;
      }
      total := total + |found[i].content|;
      if total > MAX_EXPANDED_SIZE {
        SizeOfPrefix(found, i + 1);
        return None;
      }
      assert (files + [found[i]])[..|files|] == files;
      files := files + [found[i]];
      if |files| > MAX_FILES {
        return None;
      }
    }
    assert found[..|found|] == found;
    var sorted := SortSources(files);
    r := Some(sorted);
  }

  /** What a walk of the data directory finds: distinct paths, all of them under data/. */
  ghost predicate UnderData(found: seq<Source>) {
    && (forall i, j | 0 <= i < j < |found| :: found[i].path != found[j].path)
    && (forall i | 0 <= i < |found| :: HasPrefix(found[i].path, "data/"))
  }

  lemma ConfigIsNotData()
    ensures !HasPrefix(CONFIG_NAME, "data/")
  {
    assert CONFIG_NAME[0] == 'c' && "data/"[0] == 'd';
  }

  lemma FoundIsCollected(config: Bytes, found: seq<Source>)
    requires UnderData(found)
    ensures Collected([Source(CONFIG_NAME, config)] + found)
  {
    var all := [Source(CONFIG_NAME, config)] + found;
    ConfigIsNotData();
    assert all[0].path == CONFIG_NAME;
    assert forall i | 0 < i < |all| :: all[i] == found[i - 1];
  }

  /** Being collected does not depend on the order. */
  lemma CollectedInAnyOrder(a: seq<Source>, b: seq<Source>)
    requires Collected(a) && multiset(a) == multiset(b)
    ensures Collected(b)
  {
    forall s ensures s in b <==> s in a {
      assert s in multiset(b) <==> s in multiset(a);
    }
    forall i | 0 <= i < |b| ensures IsPayload(b[i].path) {
      assert b[i] in a;
    }
    var c :| 0 <= c < |a| && a[c].path == CONFIG_NAME;
    assert a[c] in b;
    forall i, j | 0 <= i < j < |b| ensures b[i].path != b[j].path {
      assert b[i] in a && b[j] in a;
      AtMostOnce(a, b[i]);
      TwiceCounts(b, i, j);
    }
  }

  lemma TwiceCounts(b: seq<Source>, i: nat, j: nat)
    requires i < j < |b|
    ensures b[i] == b[j] ==> multiset(b)[b[i]] >= 2
  {
    var s := b[j];
    assert b == b[..j] + b[j..];
    assert multiset(b)[s] == multiset(b[..j])[s] + multiset(b[j..])[s];
    assert b[j..][0] == s && b[..j][i] == b[i];
  }

  lemma {:induction false} AtMostOnce(a: seq<Source>, s: Source)
    requires forall i, j | 0 <= i < j < |a| :: a[i].path != a[j].path
    ensures multiset(a)[s] <= 1
  {
    if a != [] {
      var init, last := a[..|a| - 1], a[|a| - 1];
      AtMostOnce(init, s);
      assert a == init + [last];
      if last == s {
        assert s !in init;
      }
    }
  }

  lemma {:induction false} SizeOfPrefix(sources: seq<Source>, n: nat)
    requires n <= |sources|
    ensures SourceSize(sources[..n]) <= SourceSize(sources)
  {
    if n < |sources| {
      assert sources[..|sources| - 1][..n] == sources[..n];
      SizeOfPrefix(sources[..|sources| - 1], n);
    } else {
      assert sources[..n] == sources;
    }
  }

  function ToEntry(s: Source): Entry {
    Entry(s.path, true, |s.content|, s.content)
  }

  function ToRecord(t: Tools, s: Source): FileRecord {
    FileRecord(s.path, |s.content|, t.sha(s.content))
  }

  function ToEntries(sources: seq<Source>): seq<Entry> {
    seq(|sources|, i requires 0 <= i < |sources| => ToEntry(sources[i]))
  }

  function ToRecords(t: Tools, sources: seq<Source>): seq<FileRecord> {
    seq(|sources|, i requires 0 <= i < |sources| => ToRecord(t, sources[i]))
  }

  function ManifestFor(t: Tools, sources: seq<Source>, appVersion: string, createdAt: string): Manifest {
    Manifest(FORMAT_VERSION, "subconv-next", appVersion, createdAt, ["service_config", "business_data"], ToRecords(t, sources))
  }

  /** The archive `Export` writes for the sorted sources; how far it compresses is not modelled. */
  function ArchiveFor(t: Tools, sources: seq<Source>, m: Manifest, compressedSize: int): Archive {
    var json := t.encode(m);
    Archive(true, compressedSize, true, ToEntries(sources) + [Entry(MANIFEST_NAME, true, |json|, json)], true)
  }

  /** `Export` after collecting: members and manifest records in one pass, then the manifest. */
  method WriteArchive(t: Tools, sources: seq<Source>, appVersion: string, createdAt: string, compressedSize: int)
    returns (a: Option<Archive>, m: Manifest)
    ensures m == ManifestFor(t, sources, appVersion, createdAt)
    ensures a == if compressedSize > MAX_ARCHIVE_SIZE then None else Some(ArchiveFor(t, sources, m, compressedSize))
  {
    var entries, records := [], [];
    for i := 0 to |sources|
      invariant entries == ToEntries(sources[..i]) && records == ToRecords(t, sources[..i])
    {
      assert sources[..i + 1] == sources[..i] + [sources[i]];
      entries := entries + [ToEntry(sources[i])];
      records := records + [ToRecord(t, sources[i])];
    }
    assert sources[..|sources|] == sources;
    m := Manifest(FORMAT_VERSION, "subconv-next", appVersion, createdAt, ["service_config", "business_data"], records);
    var json := t.encode(m);
    entries := entries + [Entry(MANIFEST_NAME, true, |json|, json)];
    a := if compressedSize > MAX_ARCHIVE_SIZE then None else Some(Archive(true, compressedSize, true, entries, true));
  }

  /** Sources as `collectSources` returns them, in any order: distinct archive paths, the configuration
      among them, everything else under data/. */
  ghost predicate Collected(sources: seq<Source>) {
    && (forall i, j | 0 <= i < j < |sources| :: sources[i].path != sources[j].path)
    && (forall i | 0 <= i < |sources| :: IsPayload(sources[i].path))
    && (exists i :: 0 <= i < |sources| && sources[i].path == CONFIG_NAME)
  }

  ghost predicate SameShaReflexive(t: Tools) {
    forall h: string :: t.sameSha(h, h)
  }

  /** The manifest survives being written as JSON, which replaces what is not UTF-8 in its paths. */
  predicate Survives(t: Tools, m: Manifest) {
    t.decode(t.encode(m)) == Some(m)
  }

  lemma PayloadIsNotManifest(name: string)
    requires IsPayload(name)
    ensures name != MANIFEST_NAME
  {
    assert CONFIG_NAME[0] == 'c' && "data/"[0] == 'd' && MANIFEST_NAME[0] == 'm';
  }

  lemma {:induction false} TotalOfEntries(sources: seq<Source>)
    ensures Total(ToEntries(sources)) == SourceSize(sources)
  {
    if sources != [] {
      var init := sources[..|sources| - 1];
      assert ToEntries(sources)[..|sources| - 1] == ToEntries(init);
      TotalOfEntries(init);
    }
  }

  /** The limits `scanArchive` puts on what `Export` wrote, and that `Export` does not check itself. */
  ghost predicate WithinScanLimits(t: Tools, sources: seq<Source>, m: Manifest) {
    && (forall i | 0 <= i < |sources| :: t.validName(sources[i].path) && |sources[i].content| <= 0x100_0000)
    && t.validName(MANIFEST_NAME) && |t.encode(m)| <= 0x10_0000
    && SourceSize(sources) + |t.encode(m)| <= 0x400_0000 && |sources| <= 2000
  }

  lemma ExportedEntries(t: Tools, sources: seq<Source>, m: Manifest, compressedSize: int)
    requires Collected(sources)
    ensures EntriesOk(t, ArchiveFor(t, sources, m, compressedSize).entries) <==> WithinScanLimits(t, sources, m)
  {
    var entries := ArchiveFor(t, sources, m, compressedSize).entries;
    var json := t.encode(m);
    var n := |sources|;
    assert entries[..n] == ToEntries(sources) && entries[n] == Entry(MANIFEST_NAME, true, |json|, json);
    TotalOfEntries(sources);
    assert Total(entries) == SourceSize(sources) + |json|;
    forall i | 0 <= i < n ensures entries[i] == ToEntry(sources[i]) && sources[i].path != MANIFEST_NAME {
      PayloadIsNotManifest(sources[i].path);
    }
    if EntriesOk(t, entries) {
      forall i | 0 <= i < n ensures t.validName(sources[i].path) && |sources[i].content| <= MAX_FILE_SIZE {
        assert EntryOk(t, entries[i]);
      }
      assert EntryOk(t, entries[n]);
    }
  }

  lemma ExportedFiles(t: Tools, sources: seq<Source>, m: Manifest, compressedSize: int, s: Scan)
    requires Collected(sources) && SameShaReflexive(t) && m.files == ToRecords(t, sources)
    requires DistinctNames(ArchiveFor(t, sources, m, compressedSize).entries)
    requires Gathered(t, ArchiveFor(t, sources, m, compressedSize).entries, s)
    ensures FilesOk(t, m.files, s.observed) && s.manifest == Some(t.encode(m))
  {
    var entries := ArchiveFor(t, sources, m, compressedSize).entries;
    var n := |sources|;
    assert entries[n].name == MANIFEST_NAME && entries[n].content == t.encode(m);
    CountObserved(t, entries, s);
    forall i | 0 <= i < n ensures Matches(t, m.files[i], s.observed) {
      PayloadIsNotManifest(sources[i].path);
      assert entries[i] == ToEntry(sources[i]);
    }
    var c :| 0 <= c < n && sources[c].path == CONFIG_NAME;
    assert m.files[c].path == CONFIG_NAME;
  }

  /** Which exported archives are accepted, with the manifest they were written with: exactly those within
      the scan limits, with an application version, and with a manifest that survives JSON. Export itself does not check the size of the
      configuration file, the names, the manifest's size or the total including the manifest. */
  lemma ExportIsAcceptedIff(t: Tools, sources: seq<Source>, appVersion: string, createdAt: string, compressedSize: int)
    requires Collected(sources) && SameShaReflexive(t) && t.validTime(createdAt) && createdAt != ""
    requires 0 < compressedSize <= 0x100_0000
    ensures var m := ManifestFor(t, sources, appVersion, createdAt);
            Accepts(t, ArchiveFor(t, sources, m, compressedSize), m) <==> WithinScanLimits(t, sources, m) && appVersion != "" && Survives(t, m)
  {
    var m := ManifestFor(t, sources, appVersion, createdAt);
    var a := ArchiveFor(t, sources, m, compressedSize);
    ScanAcceptsExactly(t, a.entries);
    ExportedEntries(t, sources, m, compressedSize);
    if ScanEntries(t, a.entries).Some? {
      ExportedFiles(t, sources, m, compressedSize, ScanEntries(t, a.entries).value);
    }
  }

  /** What export can write, in terms of what it is given: the limits of the scan that it does not check. */
  ghost predicate ExportFits(t: Tools, config: Bytes, found: seq<Source>, manifestSize: nat) {
    && |config| <= 0x100_0000 && t.validName(CONFIG_NAME) && t.validName(MANIFEST_NAME)
    && (forall i | 0 <= i < |found| :: t.validName(found[i].path))
    && manifestSize <= 0x10_0000 && |config| + SourceSize(found) + manifestSize <= 0x400_0000
  }

  lemma FitsIffWithin(t: Tools, config: Bytes, found: seq<Source>, sources: seq<Source>, m: Manifest)
    requires multiset(sources) == multiset([Source(CONFIG_NAME, config)] + found) && SourceSize(sources) == |config| + SourceSize(found)
    requires (forall i | 0 <= i < |found| :: |found[i].content| <= MAX_FILE_SIZE) && |found| + 1 <= MAX_FILES
    ensures WithinScanLimits(t, sources, m) <==> ExportFits(t, config, found, |t.encode(m)|)
  {
    var all := [Source(CONFIG_NAME, config)] + found;
    SameLength(sources, all);
    forall s ensures s in sources <==> s in all {
      assert s in multiset(sources) <==> s in multiset(all);
    }
    if WithinScanLimits(t, sources, m) {
      assert all[0] in sources;
      forall i | 0 <= i < |found| ensures t.validName(found[i].path) {
        assert all[i + 1] == found[i] && found[i] in sources;
      }
    }
    if ExportFits(t, config, found, |t.encode(m)|) {
      forall i | 0 <= i < |sources| ensures t.validName(sources[i].path) && |sources[i].content| <= MAX_FILE_SIZE {
        assert sources[i] in all;
      }
    }
  }

  lemma SameLength(a: seq<Source>, b: seq<Source>)
    requires multiset(a) == multiset(b)
    ensures |a| == |b|
  {
    assert |multiset(a)| == |multiset(b)|;
  }

  /** `Export`: it fails exactly on an oversized data file, total, count or compressed size. The archive it
      writes is accepted, with its own manifest, exactly when it also meets the limits export does not check,
      has a version, and the manifest survives JSON. */
  method Export(t: Tools, config: Bytes, found: seq<Source>, appVersion: string, createdAt: string, compressedSize: int)
    returns (a: Option<Archive>, m: Manifest)
    requires UnderData(found) && SameShaReflexive(t) && t.validTime(createdAt) && createdAt != "" && compressedSize > 0
    ensures a.Some? <==>
              && (forall i | 0 <= i < |found| :: |found[i].content| <= 0x100_0000)
              && (found == [] || |config| + SourceSize(found) <= 0x400_0000)
              && |found| + 1 <= 2000 && compressedSize <= 0x100_0000
    ensures a.Some? ==> a.value == ArchiveFor(t, Gathering(config, found), m, compressedSize)
    ensures a.Some? ==> m == ManifestFor(t, Gathering(config, found), appVersion, createdAt)
    ensures a.Some? ==> (Accepts(t, a.value, m) <==> ExportFits(t, config, found, |t.encode(m)|) && appVersion != "" && Survives(t, m))
  {
    m := Manifest(0, "", "", "", [], []);
    var sources := CollectSources(config, found);
    if sources.None? {
      return None, m;
    }
    a, m := WriteArchive(t, sources.value, appVersion, createdAt, compressedSize);
    if a.Some? {
      GatheringIsCollected(config, found);
      ExportIsAcceptedIff(t, sources.value, appVersion, createdAt, compressedSize);
      FitsIffWithin(t, config, found, sources.value, m);
    }
  }

  // ---- Archives that are written and then refused ----

  /** A configuration one byte over the limit, and no data: export succeeds, and no scan accepts the result. */
  method ExportsTooMuch(t: Tools, appVersion: string, createdAt: string, compressedSize: int) returns (a: Option<Archive>, scanned: Option<Manifest>)
    requires compressedSize <= 0x100_0000
    ensures a.Some? && scanned.None? && a.value.entries != [] && a.value.entries[0].name == CONFIG_NAME && a.value.entries[0].size == 0x100_0000 + 1
  {
    var config: Bytes := seq(MAX_FILE_SIZE + 1, i => 0);
    var sources := CollectSources(config, []);
    LoneConfig(config);
    var m;
    a, m := WriteArchive(t, sources.value, appVersion, createdAt, compressedSize);
    OversizedIsRefused(t, a.value.entries);
    scanned := ScanArchive(t, a.value);
  }

  lemma OversizedIsRefused(t: Tools, es: seq<Entry>)
    requires es != [] && es[0].size > MAX_FILE_SIZE
    ensures ScanEntries(t, es).None?
  {
    ScanAcceptsExactly(t, es);
    assert !EntryOk(t, es[0]);
  }

  lemma LoneConfig(config: Bytes)
    ensures Gathering(config, []) == [Source(CONFIG_NAME, config)]
  {
    GatheringIsCollected(config, []);
    assert [Source(CONFIG_NAME, config)] + [] == [Source(CONFIG_NAME, config)];
    OneSource(Gathering(config, []), Source(CONFIG_NAME, config));
  }

  lemma OneSource(sources: seq<Source>, s: Source)
    requires multiset(sources) == multiset{s}
    ensures sources == [s]
  {
    assert |multiset(sources)| == 1;
    assert sources[0] in multiset(sources);
  }

  /** Without an application version: the same, whatever is exported. */
  lemma VersionlessIsRefused(t: Tools, sources: seq<Source>, createdAt: string, compressedSize: int, m: Manifest)
    requires Collected(sources) && Survives(t, ManifestFor(t, sources, "", createdAt))
    ensures !Accepts(t, ArchiveFor(t, sources, ManifestFor(t, sources, "", createdAt), compressedSize), m)
  {
    var own := ManifestFor(t, sources, "", createdAt);
    if ScanEntries(t, ArchiveFor(t, sources, own, compressedSize).entries).Some? {
      ScannedManifest(t, sources, own, compressedSize);
    }
  }

  /** A manifest whose JSON reads back with another path, as for a name that is not UTF-8: refused as well. */
  lemma ChangedPathIsRefused(t: Tools, sources: seq<Source>, appVersion: string, createdAt: string, compressedSize: int, read: Manifest, m: Manifest)
    requires Collected(sources) && t.decode(t.encode(ManifestFor(t, sources, appVersion, createdAt))) == Some(read)
    requires exists i :: 0 <= i < |read.files| && forall j | 0 <= j < |sources| :: sources[j].path != read.files[i].path
    ensures !Accepts(t, ArchiveFor(t, sources, ManifestFor(t, sources, appVersion, createdAt), compressedSize), m)
  {
    var own := ManifestFor(t, sources, appVersion, createdAt);
    var es := ArchiveFor(t, sources, own, compressedSize).entries;
    if ScanEntries(t, es).Some? {
      var s := ScanEntries(t, es).value;
      ScannedManifest(t, sources, own, compressedSize);
      var i :| 0 <= i < |read.files| && forall j | 0 <= j < |sources| :: sources[j].path != read.files[i].path;
      assert read.files[i].path !in s.observed;
      assert !Matches(t, read.files[i], s.observed);
    }
  }

  /** A scan of an exported archive meets the manifest it was written with, and only exported paths. */
  lemma ScannedManifest(t: Tools, sources: seq<Source>, m: Manifest, compressedSize: int)
    requires Collected(sources) && ScanEntries(t, ArchiveFor(t, sources, m, compressedSize).entries).Some?
    ensures var s := ScanEntries(t, ArchiveFor(t, sources, m, compressedSize).entries).value;
            && s.manifest == Some(t.encode(m))
            && forall n | n in s.observed :: exists j :: 0 <= j < |sources| && sources[j].path == n
  {
    var es := ArchiveFor(t, sources, m, compressedSize).entries;
    ScanAcceptsExactly(t, es);
    var s, n := ScanEntries(t, es).value, |sources|;
    assert es[n].name == MANIFEST_NAME && es[n].content == t.encode(m);
    forall name | name in s.observed ensures exists j :: 0 <= j < n && sources[j].path == name {
      var j :| 0 <= j < |es| && es[j].name == name;
      assert es[j] == ToEntry(sources[j]);
    }
  }
}
