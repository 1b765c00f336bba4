/** Export and restore together: what was exported comes back, and what a failing restore costs. */
module BackupRoundTrip {
  import opened Common
  import opened ArchiveNames
  import opened BackupArchive
  import opened BackupRestore
  import UciConfig

  // ---- What an exported archive unpacks to ----

  /** No file lies below another one, as in any directory tree. */
  ghost predicate Unnested(found: seq<Source>) {
    forall i, j | 0 <= i < |found| && 0 <= j < |found| :: !Below(found[i].path, found[j].path)
  }

  /** The tree holds the files found under data/, with their contents, and nothing else. */
  ghost predicate IsTreeOf(tree: Tree, found: seq<Source>) {
    && (forall i, rel | 0 <= i < |found| && found[i].path == "data/" + rel :: rel in tree && tree[rel] == found[i].content)
    && (forall rel | rel in tree :: exists i :: 0 <= i < |found| && found[i].path == "data/" + rel)
  }

  lemma GatheringHas(config: Bytes, found: seq<Source>, s: Source)
    ensures s in Gathering(config, found) <==> s == Source(CONFIG_NAME, config) || s in found
  {
    var all := [Source(CONFIG_NAME, config)] + found;
    GatheringIsCollected(config, found);
    assert s in Gathering(config, found) <==> s in multiset(all);
    assert s in all <==> s == Source(CONFIG_NAME, config) || s in found;
  }

  lemma EntriesOfSources(t: Tools, sources: seq<Source>, m: Manifest, compressedSize: int, e: Entry)
    requires Collected(sources)
    ensures e in ArchiveFor(t, sources, m, compressedSize).entries && e.name != MANIFEST_NAME <==> exists s :: s in sources && e == ToEntry(s)
  {
    var es, n := ArchiveFor(t, sources, m, compressedSize).entries, |sources|;
    assert es[n].name == MANIFEST_NAME;
    if e in es && e.name != MANIFEST_NAME {
      var i :| 0 <= i < |es| && es[i] == e;
      assert e == ToEntry(sources[i]) && sources[i] in sources;
    }
    if s :| s in sources && e == ToEntry(s) {
      var i :| 0 <= i < n && sources[i] == s;
      PayloadIsNotManifest(s.path);
      assert es[i] == e;
    }
  }

  /** Everything but the manifest was found, or is the configuration. */
  lemma EntriesAreFound(t: Tools, config: Bytes, found: seq<Source>, m: Manifest, compressedSize: int, e: Entry)
    requires UnderData(found)
    ensures var es := ArchiveFor(t, Gathering(config, found), m, compressedSize).entries;
            e in es && e.name != MANIFEST_NAME <==> e == ToEntry(Source(CONFIG_NAME, config)) || exists s :: s in found && e == ToEntry(s)
  {
    GatheringIsCollected(config, found);
    EntriesOfSources(t, Gathering(config, found), m, compressedSize, e);
    forall s ensures s in Gathering(config, found) <==> s == Source(CONFIG_NAME, config) || s in found {
      GatheringHas(config, found, s);
    }
  }

  lemma {:induction false} ConfigEntryIs(es: seq<Entry>, i: nat)
    requires DistinctNames(es) && i < |es| && es[i].name == CONFIG_NAME
    ensures ConfigEntry(es) == Some(es[i].content)
  {
    if i < |es| - 1 {
      assert es[..|es| - 1][i] == es[i];
      ConfigEntryIs(es[..|es| - 1], i);
    }
  }

  /** The data entries of an exported archive are exactly the files found. */
  lemma ExportedTree(t: Tools, config: Bytes, found: seq<Source>, m: Manifest, compressedSize: int)
    requires UnderData(found) && DistinctNames(ArchiveFor(t, Gathering(config, found), m, compressedSize).entries)
    ensures IsTreeOf(DataTree(ArchiveFor(t, Gathering(config, found), m, compressedSize).entries), found)
  {
    var es := ArchiveFor(t, Gathering(config, found), m, compressedSize).entries;
    forall i, rel | 0 <= i < |found| && found[i].path == "data/" + rel
      ensures rel in DataTree(es) && DataTree(es)[rel] == found[i].content
    {
      EntriesAreFound(t, config, found, m, compressedSize, ToEntry(found[i]));
      var j :| 0 <= j < |es| && es[j] == ToEntry(found[i]);
      DataTreeIsExact(es, rel);
    }
    forall rel | rel in DataTree(es) ensures exists i :: 0 <= i < |found| && found[i].path == "data/" + rel {
      DataTreeIsExact(es, rel);
      var j :| 0 <= j < |es| && es[j].name == "data/" + rel;
      DataIsPayload(rel);
      EntriesAreFound(t, config, found, m, compressedSize, es[j]);
      var s :| s in found && es[j] == ToEntry(s);
    }
  }

  lemma DataIsPayload(rel: string)
    ensures "data/" + rel != MANIFEST_NAME && "data/" + rel != CONFIG_NAME
  {
    assert ("data/" + rel)[0] == 'd' && MANIFEST_NAME[0] == 'm' && CONFIG_NAME[0] == 'c';
  }

  /** Files that do not lie below each other give entries that do not. */
  lemma ExportedIsUnnested(t: Tools, config: Bytes, found: seq<Source>, m: Manifest, compressedSize: int)
    requires UnderData(found) && Unnested(found)
    ensures !Nested(ArchiveFor(t, Gathering(config, found), m, compressedSize).entries)
  {
    var es := ArchiveFor(t, Gathering(config, found), m, compressedSize).entries;
    forall i, j | 0 <= i < |es| && 0 <= j < |es| && IsData(es[i]) && IsData(es[j]) ensures !Below(Rel(es[i]), Rel(es[j])) {
      var a := FoundAt(t, config, found, m, compressedSize, es[i]);
      var b := FoundAt(t, config, found, m, compressedSize, es[j]);
      BelowInData(Rel(es[i]), Rel(es[j]));
    }
  }

  lemma FoundAt(t: Tools, config: Bytes, found: seq<Source>, m: Manifest, compressedSize: int, e: Entry) returns (i: nat)
    requires UnderData(found) && e in ArchiveFor(t, Gathering(config, found), m, compressedSize).entries && IsData(e)
    ensures i < |found| && found[i].path == e.name == "data/" + Rel(e)
  {
    assert e.name == "data/" + Rel(e);
    DataIsPayload(Rel(e));
    EntriesAreFound(t, config, found, m, compressedSize, e);
    var s :| s in found && e == ToEntry(s);
    i :| 0 <= i < |found| && found[i] == s;
  }

  lemma BelowInData(a: string, b: string)
    ensures Below(a, b) ==> Below("data/" + a, "data/" + b)
  {
    if Below(a, b) {
      assert a == (b + "/") + a[|b| + 1..];
      assert "data/" + a == ("data/" + b + "/") + a[|b| + 1..];
    }
  }

  // ---- The round trip ----

  /** What is exported and accepted again: within the limits of both, with a version, and with a manifest that survives
      JSON. */
  ghost predicate Exportable(t: Tools, config: Bytes, found: seq<Source>, appVersion: string, createdAt: string, compressedSize: int) {
    var m := ManifestFor(t, Gathering(config, found), appVersion, createdAt);
    && UnderData(found) && Unnested(found) && SameShaReflexive(t) && t.validTime(createdAt) && createdAt != "" && appVersion != ""
    && 0 < compressedSize <= 0x100_0000 && |found| + 1 <= 2000
    && (forall i | 0 <= i < |found| :: |found[i].content| <= 0x100_0000)
    && ExportFits(t, config, found, |t.encode(m)|) && Survives(t, m)
  }

  function Exported(t: Tools, config: Bytes, found: seq<Source>, appVersion: string, createdAt: string, compressedSize: int): Archive {
    var sources := Gathering(config, found);
    ArchiveFor(t, sources, ManifestFor(t, sources, appVersion, createdAt), compressedSize)
  }

  lemma ExportedIsAccepted(t: Tools, config: Bytes, found: seq<Source>, appVersion: string, createdAt: string, compressedSize: int)
    requires Exportable(t, config, found, appVersion, createdAt, compressedSize)
    ensures var a := Exported(t, config, found, appVersion, createdAt, compressedSize);
            Accepts(t, a, ManifestFor(t, Gathering(config, found), appVersion, createdAt)) && DistinctNames(a.entries)
  {
    var sources := Gathering(config, found);
    var m := ManifestFor(t, sources, appVersion, createdAt);
    GatheringIsCollected(config, found);
    FitsIffWithin(t, config, found, sources, m);
    ExportIsAcceptedIff(t, sources, appVersion, createdAt, compressedSize);
    ScanAcceptsExactly(t, ArchiveFor(t, sources, m, compressedSize).entries);
  }

  lemma ExportedUnpacks(t: Tools, config: Bytes, found: seq<Source>, appVersion: string, createdAt: string, compressedSize: int,
                        dir: string, asText: Bytes -> string)
    requires Exportable(t, config, found, appVersion, createdAt, compressedSize) && UciConfig.PreserveText(asText(config), dir).Some?
    ensures var es := Exported(t, config, found, appVersion, createdAt, compressedSize).entries;
            Unpacks(es, dir, asText, -1) && ConfigEntry(es) == Some(config) && IsTreeOf(DataTree(es), found)
  {
    var m := ManifestFor(t, Gathering(config, found), appVersion, createdAt);
    var es := Exported(t, config, found, appVersion, createdAt, compressedSize).entries;
    ExportedIsAccepted(t, config, found, appVersion, createdAt, compressedSize);
    ExportedTree(t, config, found, m, compressedSize);
    ExportedIsUnnested(t, config, found, m, compressedSize);
    PayloadIsNotManifest(CONFIG_NAME);
    EntriesAreFound(t, config, found, m, compressedSize, ToEntry(Source(CONFIG_NAME, config)));
    var i :| 0 <= i < |es| && es[i] == ToEntry(Source(CONFIG_NAME, config));
    ConfigEntryIs(es, i);
  }

  /** Nothing before the service is at fault when an exported archive is restored. */
  lemma ExportedPrepares(t: Tools, config: Bytes, found: seq<Source>, appVersion: string, createdAt: string, compressedSize: int,
                         dir: string, asText: Bytes -> string, faults: set<Step>)
    requires Exportable(t, config, found, appVersion, createdAt, compressedSize) && UciConfig.PreserveText(asText(config), dir).Some?
    requires Space !in faults && MakeTemp !in faults && WriteConfig !in faults
    ensures Prepares(t, Exported(t, config, found, appVersion, createdAt, compressedSize), dir, asText, faults, -1)
  {
    ExportedIsAccepted(t, config, found, appVersion, createdAt, compressedSize);
    ExportedUnpacks(t, config, found, appVersion, createdAt, compressedSize, dir, asText);
  }

  /** Export, then restore with no step at fault, onto any host: the data directory holds exactly the files that were found
      and the configuration is the exported one with the current data directory forced. */
  method RoundTrip(h: Host, t: Tools, config: Bytes, found: seq<Source>, appVersion: string, createdAt: string, compressedSize: int,
                   dir: string, hasScript: bool, asText: Bytes -> string)
    returns (a: Option<Archive>, restored: bool)
    requires Exportable(t, config, found, appVersion, createdAt, compressedSize) && UciConfig.PreserveText(asText(config), dir).Some?
    requires h.Tidy() && (!hasScript ==> !h.running)
    modifies h
    ensures a == Some(Exported(t, config, found, appVersion, createdAt, compressedSize)) && restored && h.running == old(h.running)
    ensures h.data.Some? && IsTreeOf(h.data.value, found)
    ensures h.config == Some(File(UciConfig.PreserveText(asText(config), dir).value, 0x1A4))
  {
    var m;
    a, m := Export(t, config, found, appVersion, createdAt, compressedSize);
    ExportedPrepares(t, config, found, appVersion, createdAt, compressedSize, dir, asText, {});
    ExportedUnpacks(t, config, found, appVersion, createdAt, compressedSize, dir, asText);
    restored := RestoreAll(h, t, a.value, dir, hasScript, asText, {});
  }

  method RestoreAll(h: Host, t: Tools, a: Archive, dir: string, hasScript: bool, asText: Bytes -> string, faults: set<Step>)
    returns (restored: bool)
    requires h.Tidy() && (!hasScript ==> !h.running) && Prepares(t, a, dir, asText, faults, -1)
    requires Installs(hasScript && h.running, h.data.Some?, h.config.Some?, faults) && !FailsLate(hasScript && h.running, faults)
    modifies h
    ensures restored && h.running == old(h.running) && h.data == Some(DataTree(a.entries))
    ensures h.config == Some(File(UciConfig.PreserveText(asText(ConfigEntry(a.entries).value), dir).value, 0x1A4))
  {
    var r, _ := h.Restore(t, a, dir, hasScript, asText, faults, -1, File("", PRIVATE), false);
    restored := r.Restored?;
  }

  // ---- A configuration that loses its mode ----

  lemma ChmodComesLate(hasData: bool)
    ensures Installs(false, hasData, true, {ChmodConfig}) && FailsLate(false, {ChmodConfig})
  {
  }

  /** A configuration with mode 0644, whatever is in it, of which the last chmod fails: it comes back with mode 0600. */
  method RolledBackConfigIsPrivate(h: Host, t: Tools, a: Archive, dir: string, asText: Bytes -> string, faults: set<Step>, text: string)
    returns (failed: bool)
    requires h.Tidy() && !h.running && h.config == Some(File(text, 0x1A4))
    requires Prepares(t, a, dir, asText, faults, -1) && Installs(false, h.data.Some?, true, faults) && ChmodConfig in faults
    modifies h
    ensures failed && h.config == Some(File(text, 0x180))
  {
    var r, _ := h.Restore(t, a, dir, false, asText, faults, -1, File("", PRIVATE), false);
    failed := r.Failed?;
  }

  /** All of it together: an exported archive is restored over a configuration of mode 0644, and only the last chmod fails. */
  method ExportedConfigLosesMode(h: Host, t: Tools, config: Bytes, found: seq<Source>, appVersion: string, createdAt: string, compressedSize: int,
                                 dir: string, asText: Bytes -> string, text: string)
    returns (failed: bool)
    requires Exportable(t, config, found, appVersion, createdAt, compressedSize) && UciConfig.PreserveText(asText(config), dir).Some?
    requires h.Tidy() && !h.running && h.config == Some(File(text, 0x1A4))
    modifies h
    ensures failed && h.config == Some(File(text, 0x180))
  {
    ExportedPrepares(t, config, found, appVersion, createdAt, compressedSize, dir, asText, {ChmodConfig});
    ChmodComesLate(h.data.Some?);
    var a := Exported(t, config, found, appVersion, createdAt, compressedSize);
    failed := RolledBackConfigIsPrivate(h, t, a, dir, asText, {ChmodConfig}, text);
  }
}
