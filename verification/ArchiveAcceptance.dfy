/** Which archives the program accepts, told by their members and records alone, with every limit and name written out. */
module ArchiveAcceptance {
  import opened Common
  import opened ArchiveNames
  import opened BackupArchive

  /** A regular file of at most 16 MiB, complete, under a valid name: the manifest of at most 1 MiB, the configuration, or
      something under data/. */
  ghost predicate GoodMember(t: Tools, e: Entry) {
    && t.validName(e.name) && e.regular && 0 <= e.size <= 16 * 1024 * 1024 && |e.content| == e.size
    && ((e.name == "manifest.json" && e.size <= 1024 * 1024) || e.name == "config/subconv-next" || "data/" <= e.name)
  }

  /** At most two thousand files beside the manifest, of at most 64 MiB together, no name twice. */
  ghost predicate GoodMembers(t: Tools, es: seq<Entry>) {
    && |es| <= 2001 && Total(es) <= 64 * 1024 * 1024
    && (forall i | 0 <= i < |es| :: GoodMember(t, es[i])) && forall i, j | 0 <= i < j < |es| :: es[i].name != es[j].name
  }

  ghost predicate GoodHeader(t: Tools, m: Manifest) {
    && m.formatVersion == 1 && m.application == "subconv-next" && m.appVersion != "" && m.createdAt != "" && t.validTime(m.createdAt)
    && "service_config" in m.includes && "business_data" in m.includes
  }

  /** The record has the size and the digest of the member of its name. */
  ghost predicate Records(t: Tools, es: seq<Entry>, f: FileRecord) {
    f.path != "manifest.json"
    && exists i :: 0 <= i < |es| && es[i].name == f.path && es[i].size == f.size && t.sameSha(t.sha(es[i].content), f.sha)
  }

  /** As many records as members beside the manifest, no path twice, each record of a member, one of the configuration. */
  ghost predicate GoodRecords(t: Tools, es: seq<Entry>, files: seq<FileRecord>) {
    && |files| == |es| - 1 && (forall i, j | 0 <= i < j < |files| :: files[i].path != files[j].path)
    && (forall i | 0 <= i < |files| :: Records(t, es, files[i])) && exists i :: 0 <= i < |files| && files[i].path == "config/subconv-next"
  }

  ghost predicate CarriesManifest(t: Tools, es: seq<Entry>, m: Manifest) {
    exists i :: 0 <= i < |es| && es[i].name == "manifest.json" && t.decode(es[i].content) == Some(m)
  }

  ghost predicate Acceptable(t: Tools, a: Archive, m: Manifest) {
    && a.regular && a.gzip && a.intact && 0 < a.compressedSize <= 16 * 1024 * 1024
    && GoodMembers(t, a.entries) && CarriesManifest(t, a.entries, m) && GoodHeader(t, m) && GoodRecords(t, a.entries, m.files)
  }

  lemma MembersIff(t: Tools, es: seq<Entry>)
    ensures EntriesOk(t, es) <==> GoodMembers(t, es)
  {
    forall i | 0 <= i < |es| ensures EntryOk(t, es[i]) <==> GoodMember(t, es[i]) {
      assert MANIFEST_NAME[0] == 'm' && CONFIG_NAME[0] == 'c';
      assert es[i].name == MANIFEST_NAME ==> !IsPayload(es[i].name);
    }
  }

  lemma MatchIff(t: Tools, es: seq<Entry>, s: Scan, f: FileRecord)
    requires DistinctNames(es) && Gathered(t, es, s)
    ensures Matches(t, f, s.observed) <==> Records(t, es, f)
  {
    if Records(t, es, f) {
      var i :| 0 <= i < |es| && es[i].name == f.path && es[i].size == f.size && t.sameSha(t.sha(es[i].content), f.sha);
      assert s.observed[f.path] == RecordOf(t, es[i]);
    }
    if Matches(t, f, s.observed) {
      assert Named(es, f.path);
      var i :| 0 <= i < |es| && es[i].name == f.path;
      assert s.observed[f.path] == RecordOf(t, es[i]);
    }
  }

  lemma RecordsIff(t: Tools, es: seq<Entry>, s: Scan, files: seq<FileRecord>)
    requires DistinctNames(es) && Gathered(t, es, s) && s.manifest.Some?
    ensures FilesOk(t, files, s.observed) <==> GoodRecords(t, es, files)
  {
    CountObserved(t, es, s);
    forall i | 0 <= i < |files| ensures Matches(t, files[i], s.observed) <==> Records(t, es, files[i]) {
      MatchIff(t, es, s, files[i]);
    }
    ConfigRecorded(files);
  }

  lemma ConfigRecorded(files: seq<FileRecord>)
    ensures CONFIG_NAME in PathSet(files) <==> exists i :: 0 <= i < |files| && files[i].path == "config/subconv-next"
  {
    if i :| 0 <= i < |files| && files[i].path == "config/subconv-next" {
      assert files[i] in files;
    }
  }

  lemma ManifestIff(t: Tools, es: seq<Entry>, s: Scan, m: Manifest)
    requires Gathered(t, es, s)
    ensures s.manifest.Some? && t.decode(s.manifest.value) == Some(m) <==> CarriesManifest(t, es, m)
  {
    if s.manifest.Some? {
      assert Named(es, MANIFEST_NAME);
      var i :| 0 <= i < |es| && es[i].name == MANIFEST_NAME;
      assert s.manifest == Some(es[i].content);
    }
    if CarriesManifest(t, es, m) {
      var i :| 0 <= i < |es| && es[i].name == "manifest.json" && t.decode(es[i].content) == Some(m);
      assert es[i].name == MANIFEST_NAME;
    }
  }

  /** An archive is accepted, with this manifest, exactly under these conditions. */
  lemma AcceptsIff(t: Tools, a: Archive, m: Manifest)
    ensures Accepts(t, a, m) <==> Acceptable(t, a, m)
  {
    ScanAcceptsExactly(t, a.entries);
    MembersIff(t, a.entries);
    if ScanEntries(t, a.entries).Some? {
      var s := ScanEntries(t, a.entries).value;
      ManifestIff(t, a.entries, s, m);
      if s.manifest.Some? {
        RecordsIff(t, a.entries, s, m.files);
      }
    }
  }
}
