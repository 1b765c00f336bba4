/** Transactional restore, `internal/backup/archive.go`. Every file and service operation may fail; the
    compensating operations of the rollback, whose errors the program ignores, are taken to succeed. */
module BackupRestore {
  import opened Common
  import opened Text
  import opened ArchiveNames
  import opened BackupArchive
  import UciConfig

  /** Content below the data directory, by relative path. */
  type Tree = map<string, Bytes>

  datatype File = File(text: string, mode: int)

  const PRIVATE := 0x180   // 0600
  const PUBLIC := 0x1A4    // 0644

  /** Operations that can fail, in the order they are attempted. */
  datatype Step =
    | Scanning | Space | MakeTemp | Extract | ForceDataDir | WriteConfig | StopService
    | CopyConfig | StatData | MoveDataAside | InstallData | ChmodData | InstallConfig | ChmodConfig | StartService

  datatype Result = Restored(files: nat, running: bool) | Failed(at: Step)

  /** Two paths cannot both be files when one lies below the other. */
  predicate Below(a: string, b: string) {
    HasPrefix(a, b + "/")
  }

  /** A path lies below another exactly if its components begin with those of the other, and go on. */
  lemma BelowIff(a: string, b: string)
    ensures Below(a, b) <==> |Split(b, '/')| < |Split(a, '/')| && Split(a, '/')[..|Split(b, '/')|] == Split(b, '/')
  {
    var up, down := Split(b, '/'), Split(a, '/');
    if Below(a, b) {
      var rest := a[|b| + 1..];
      assert a == b + ['/'] + rest;
      SplitConcat(b, '/', rest);
    }
    if |up| < |down| && down[..|up|] == up {
      var rest := down[|up|..];
      assert down == up + rest;
      JoinOfSplit(a, '/');
      JoinOfSplit(b, '/');
      JoinConcat(up, rest, '/');
      assert a == b + "/" + Join(rest, '/');
    }
  }

  predicate Conflicts(tree: Tree, rel: string) {
    rel in tree || exists p | p in tree :: Below(p, rel) || Below(rel, p)
  }

  predicate IsData(e: Entry) {
    HasPrefix(e.name, "data/")
  }

  function Rel(e: Entry): string
    requires IsData(e)
  {
    e.name[5..]
  }

  /** The data entries of an archive, as a tree. */
  function DataTree(es: seq<Entry>): Tree {
    if es == [] then map[]
    else
      var init, e := DataTree(es[..|es| - 1]), es[|es| - 1];
      if IsData(e) then init[Rel(e) := e.content] else init
  }

  function ConfigEntry(es: seq<Entry>): Option<Bytes> {
    if es == [] then None
    else if es[|es| - 1].name == CONFIG_NAME then Some(es[|es| - 1].content)
    else ConfigEntry(es[..|es| - 1])
  }

  /** The tree holds exactly the archive's data entries. */
  lemma {:induction false} DataTreeIsExact(es: seq<Entry>, rel: string)
    requires DistinctNames(es)
    ensures rel in DataTree(es) <==> Named(es, "data/" + rel)
    ensures forall i | 0 <= i < |es| && es[i].name == "data/" + rel :: rel in DataTree(es) && DataTree(es)[rel] == es[i].content
  {
    if es != [] {
      var n := |es| - 1;
      var init, e := es[..n], es[n];
      assert es == init + [e];
      DataTreeIsExact(init, rel);
      NamedGrows(init, e, "data/" + rel);
      assert IsData(e) ==> e.name == "data/" + Rel(e);
      assert ("data/" + rel)[5..] == rel;
      assert IsData(e) && Rel(e) == rel ==> e.name == "data/" + rel;
      assert e.name == "data/" + rel ==> IsData(e) && Rel(e) == rel;
    }
  }

  /** What the rollback leaves of the original configuration: its content, with the mode of the copy. */
  function Demoted(config: Option<File>): Option<File> {
    if config.Some? then Some(config.value.(mode := PRIVATE)) else None
  }

  predicate LateFailure(at: Step) {
    at == ChmodConfig || at == StartService
  }

  function Extracted(es: seq<Entry>, asText: Bytes -> string): Option<File> {
    if ConfigEntry(es).Some? then Some(File(asText(ConfigEntry(es).value), PRIVATE)) else None
  }

  // ---- Which runs fail, and where ----

  /** One data entry lies below another, so they cannot both be files. */
  ghost predicate Nested(es: seq<Entry>) {
    exists i, j :: 0 <= i < |es| && 0 <= j < |es| && IsData(es[i]) && IsData(es[j]) && Below(Rel(es[i]), Rel(es[j]))
  }

  /** The next data entry is refused exactly when it makes the entries nested. */
  lemma NestedGrows(es: seq<Entry>, e: Entry)
    requires DistinctNames(es + [e])
    ensures Nested(es + [e]) <==> Nested(es) || (IsData(e) && Conflicts(DataTree(es), Rel(e)))
  {
    var all := es + [e];
    assert forall i | 0 <= i < |es| :: all[i] == es[i];
    assert all[|es|] == e;
    assert DistinctNames(es);
    if IsData(e) {
      forall rel ensures rel in DataTree(es) <==> Named(es, "data/" + rel) {
        DataTreeIsExact(es, rel);
      }
      assert e.name == "data/" + Rel(e);
      forall i | 0 <= i < |es| && IsData(es[i]) ensures Rel(es[i]) in DataTree(es) {
        assert es[i].name == "data/" + Rel(es[i]);
      }
      if p :| p in DataTree(es) && (Below(p, Rel(e)) || Below(Rel(e), p)) {
        var i :| 0 <= i < |es| && es[i].name == "data/" + p;
        assert all[i].name[5..] == p && Rel(all[i]) == p && Rel(all[|es|]) == Rel(e);
      }
    }
  }

  /** What the next entry adds to the tree, to the configuration, and to what is nested. */
  lemma NextEntry(es: seq<Entry>, i: nat, asText: Bytes -> string)
    requires DistinctNames(es) && i < |es|
    ensures Nested(es[..i + 1]) <==> Nested(es[..i]) || (IsData(es[i]) && Conflicts(DataTree(es[..i]), Rel(es[i])))
    ensures DataTree(es[..i + 1]) == if IsData(es[i]) then DataTree(es[..i])[Rel(es[i]) := es[i].content] else DataTree(es[..i])
    ensures Extracted(es[..i + 1], asText) == if es[i].name == CONFIG_NAME then Some(File(asText(es[i].content), PRIVATE)) else Extracted(es[..i], asText)
  {
    assert es[..i + 1][..i] == es[..i];
    assert es[..i + 1] == es[..i] + [es[i]];
    NestedGrows(es[..i], es[i]);
  }

  lemma NestedPrefix(es: seq<Entry>, n: nat)
    requires n <= |es| && Nested(es[..n])
    ensures Nested(es)
  {
    var i, j :| 0 <= i < n && 0 <= j < n && IsData(es[..n][i]) && IsData(es[..n][j]) && Below(Rel(es[..n][i]), Rel(es[..n][j]));
    assert es[..n][i] == es[i] && es[..n][j] == es[j];
  }

  /** The entries can be unpacked, with a configuration that has a main section. `failAt` is the entry at which the
      second scan fails. */
  ghost predicate Unpacks(es: seq<Entry>, dir: string, asText: Bytes -> string, failAt: int) {
    && !(0 <= failAt < |es|) && !Nested(es) && ConfigEntry(es).Some?
    && UciConfig.PreserveText(asText(ConfigEntry(es).value), dir).Some?
  }

  /** Nothing before the service is at fault. */
  ghost predicate Prepares(t: Tools, a: Archive, dir: string, asText: Bytes -> string, faults: set<Step>, failAt: int) {
    && (exists m :: Accepts(t, a, m)) && Space !in faults && MakeTemp !in faults && WriteConfig !in faults
    && Unpacks(a.entries, dir, asText, failAt)
  }

  /** Stopping a running service fails and leaves it down all the same. */
  predicate StopFails(active: bool, faults: set<Step>, stopLeaves: bool) {
    active && StopService in faults && !stopLeaves
  }

  /** Nothing from stopping the service to installing the configuration is at fault. */
  predicate Installs(active: bool, hasData: bool, hasConfig: bool, faults: set<Step>) {
    && (active ==> StopService !in faults) && (hasConfig ==> CopyConfig !in faults) && (hasData ==> MoveDataAside !in faults)
    && {StatData, InstallData, ChmodData, InstallConfig} !! faults
  }

  /** The configuration has been replaced, and then a step is at fault. */
  predicate FailsLate(active: bool, faults: set<Step>) {
    ChmodConfig in faults || (active && StartService in faults)
  }

  class Host {
    var data: Option<Tree>
    var tempData: Option<Tree>
    var rollbackData: Option<Tree>
    var config: Option<File>
    var tempConfig: Option<File>
    var rollbackConfig: Option<File>
    var running: bool

    predicate Tidy()
      reads this
    {
      tempData == None && rollbackData == None && tempConfig == None && rollbackConfig == None
    }

    constructor (data: Option<Tree>, config: Option<File>, running: bool)
      ensures this.data == data && this.config == config && this.running == running && Tidy()
    {
      this.data, this.config, this.running := data, config, running;
      tempData, rollbackData, tempConfig, rollbackConfig := None, None, None, None;
    }

    /** The deferred removals. */
    method Cleanup()
      modifies this`tempData, this`tempConfig, this`rollbackData, this`rollbackConfig
      ensures Tidy()
    {
      rollbackData := None;
      rollbackConfig := None;
      tempConfig := None;
      tempData := None;
    }

    /** The sink of the second scan. */
    method WriteEntry(e: Entry, asText: Bytes -> string) returns (ok: bool)
      requires tempData.Some?
      modifies this`tempData, this`tempConfig
      ensures ok <==> !(IsData(e) && Conflicts(old(tempData).value, Rel(e)))
      ensures ok ==> tempData == Some(if IsData(e) then old(tempData).value[Rel(e) := e.content] else old(tempData).value)
      ensures ok ==> tempConfig == if e.name == CONFIG_NAME then Some(File(asText(e.content), PRIVATE)) else old(tempConfig)
    {
      ConfigIsNotData();
      if e.name == CONFIG_NAME {
        tempConfig := Some(File(asText(e.content), PRIVATE));
      } else if IsData(e) {
        if Conflicts(tempData.value, Rel(e)) {
          return false;
        }
        tempData := Some(tempData.value[Rel(e) := e.content]);
      }
      ok := true;
    }

    /** The second scan, which fails at `failAt` if that is an entry. */
    method ExtractAll(es: seq<Entry>, asText: Bytes -> string, failAt: int) returns (ok: bool)
      requires tempData == Some(map[]) && tempConfig == None && DistinctNames(es)
      modifies this`tempData, this`tempConfig
      ensures ok <==> !(0 <= failAt < |es|) && !Nested(es)
      ensures ok ==> tempData == Some(DataTree(es)) && ConfigEntry(es).Some? == tempConfig.Some?
      ensures ok && tempConfig.Some? ==> tempConfig.value == File(asText(ConfigEntry(es).value), PRIVATE)
    {
      for i := 0 to |es|
        invariant tempData == Some(DataTree(es[..i]))
        invariant tempConfig == Extracted(es[..i], asText)
        invariant !(0 <= failAt < i) && !Nested(es[..i])
      {
        NextEntry(es, i, asText);
        if i == failAt {
          return false;
        }
        ok := WriteEntry(es[i], asText);
        if !ok {
          NestedPrefix(es, i + 1);
          return;
        }
      }
      assert es[..|es|] == es;
      ok := true;
    }

    /** The deferred rollback. */
    method Rollback(dataReplaced: bool, configReplaced: bool, wasRunning: bool, hasScript: bool)
      modifies this
      ensures data == if dataReplaced then old(rollbackData) else old(data)
      ensures config == if configReplaced then old(rollbackConfig) else old(config)
      ensures running == if hasScript then wasRunning else old(running)
    {
      if hasScript { running := false; }
      if dataReplaced {
        data := None;
        if rollbackData.Some? {
          data, rollbackData := rollbackData, None;
        }
      }
      if configReplaced {
        config := None;
        if rollbackConfig.Some? {
          config, rollbackConfig := rollbackConfig, None;
        }
      }
      if wasRunning && hasScript { running := true; }
    }

    /** From the copy of the configuration to the restart: `partial` is what a failing copy leaves. */
    method Swap(hasScript: bool, wasRunning: bool, faults: set<Step>, partial: File)
      returns (at: Option<Step>, dataReplaced: bool, configReplaced: bool)
      requires tempData.Some? && tempConfig.Some? && rollbackData == None && rollbackConfig == None
      requires hasScript && wasRunning ==> !running
      modifies this
      ensures at == None ==> data == old(tempData) && config == Some(old(tempConfig).value.(mode := PUBLIC))
      ensures at == None ==> running == if hasScript && wasRunning then true else old(running)
      ensures at.Some? ==> if dataReplaced then rollbackData == old(data) else data == old(data)
      ensures at.Some? ==> if configReplaced then rollbackConfig == Demoted(old(config)) else config == old(config)
      ensures at.Some? ==> (configReplaced <==> LateFailure(at.value))
      ensures !hasScript ==> running == old(running)
      ensures var reached := Installs(false, old(data).Some?, old(config).Some?, faults);
              && (at == None <==> reached && !FailsLate(wasRunning && hasScript, faults))
              && (at.Some? ==> (LateFailure(at.value) <==> reached))
    {
      dataReplaced, configReplaced := false, false;
      if config.Some? {
        if CopyConfig in faults {
          rollbackConfig := Some(partial);
          return Some(CopyConfig), false, false;
        }
        rollbackConfig := Some(File(config.value.text, PRIVATE));
      }
      if StatData in faults {
        return Some(StatData), false, false;
      }
      if data.Some? {
        if MoveDataAside in faults {
          return Some(MoveDataAside), false, false;
        }
        rollbackData, data := data, None;
      }
      if InstallData in faults {
        if rollbackData.Some? {
          data, rollbackData := rollbackData, None;
        }
        return Some(InstallData), false, false;
      }
      data, tempData := tempData, None;
      dataReplaced := true;
      if ChmodData in faults {
        return Some(ChmodData), true, false;
      }
      if InstallConfig in faults {
        return Some(InstallConfig), true, false;
      }
      config, tempConfig := tempConfig, None;
      configReplaced := true;
      if ChmodConfig in faults {
        return Some(ChmodConfig), true, true;
      }
      config := Some(config.value.(mode := PUBLIC));
      if wasRunning && hasScript {
        if StartService in faults {
          return Some(StartService), true, true;
        }
        running := true;
      }
      at := None;
    }

    /** Everything before the service is touched: scan, space, temporary directory, extraction, and the
        configuration with its data directory forced. */
    method Prepare(t: Tools, a: Archive, dir: string, asText: Bytes -> string, faults: set<Step>, failAt: int)
      returns (at: Option<Step>, ghost m: Manifest, files: nat)
      requires Tidy()
      modifies this`tempData, this`tempConfig
      ensures at == None <==> Prepares(t, a, dir, asText, faults, failAt)
      ensures at == None ==>
                && Accepts(t, a, m) && files == |m.files| && tempData == Some(DataTree(a.entries)) && ConfigEntry(a.entries).Some?
                && UciConfig.PreserveText(asText(ConfigEntry(a.entries).value), dir).Some?
                && tempConfig == Some(File(UciConfig.PreserveText(asText(ConfigEntry(a.entries).value), dir).value, PRIVATE))
      ensures at.Some? ==> !LateFailure(at.value) && at != Some(StopService)
    {
      files := 0;
      m := Manifest(0, "", "", "", [], []);
      var scanned := ScanArchive(t, a);
      if scanned.None? {
        return Some(Scanning), m, 0;
      }
      m := scanned.value;
      files := |scanned.value.files|;
      if Space in faults {
        return Some(Space), m, files;
      }
      if MakeTemp in faults {
        return Some(MakeTemp), m, files;
      }
      tempData := Some(map[]);
      ScanAcceptsExactly(t, a.entries);
      at := Unpack(a.entries, dir, asText, faults, failAt);
    }

    /** Unpacking, and the configuration with its data directory forced. */
    method Unpack(es: seq<Entry>, dir: string, asText: Bytes -> string, faults: set<Step>, failAt: int) returns (at: Option<Step>)
      requires tempData == Some(map[]) && tempConfig == None && DistinctNames(es)
      modifies this`tempData, this`tempConfig
      ensures at == None <==> Unpacks(es, dir, asText, failAt) && WriteConfig !in faults
      ensures at == None ==>
                && tempData == Some(DataTree(es))
                && tempConfig == Some(File(UciConfig.PreserveText(asText(ConfigEntry(es).value), dir).value, PRIVATE))
      ensures at.Some? ==> at.value in {Extract, ForceDataDir, WriteConfig}
    {
      var ok := ExtractAll(es, asText, failAt);
      if !ok || tempConfig.None? {
        return Some(Extract);
      }
      var forced := UciConfig.PreserveDataDir(tempConfig.value.text, dir);
      if forced.None? {
        return Some(ForceDataDir);
      }
      if WriteConfig in faults {
        return Some(WriteConfig);
      }
      tempConfig := Some(File(forced.value, PRIVATE));
      at := None;
    }

    /** All or nothing. On success the data directory holds exactly the archive's data entries and the
        configuration is the archived one with the current data directory forced. On failure, whatever
        failed, data and configuration text are the originals, absent included. The service runs as before
        except when stopping it failed and left it down. It succeeds exactly when no step is at fault. The
        configuration loses its mode exactly when all steps up to its replacement succeed, a later one is at
        fault, and there was a configuration with another mode than 0600. */
    method Restore(t: Tools, a: Archive, dir: string, hasScript: bool, asText: Bytes -> string,
                   faults: set<Step>, failAt: int, partial: File, stopLeaves: bool)
      returns (r: Result, ghost m: Manifest)
      requires Tidy() && (!hasScript ==> !running)
      modifies this
      ensures Tidy()
      ensures r.Restored? ==>
                && Accepts(t, a, m) && r.files == |m.files| && r.running == running == old(running)
                && data == Some(DataTree(a.entries)) && ConfigEntry(a.entries).Some?
                && UciConfig.PreserveText(asText(ConfigEntry(a.entries).value), dir).Some?
                && config == Some(File(UciConfig.PreserveText(asText(ConfigEntry(a.entries).value), dir).value, 0x1A4))
      ensures r.Failed? ==> data == old(data) && Demoted(config) == Demoted(old(config))
      ensures running != old(running) <==> Prepares(t, a, dir, asText, faults, failAt) && StopFails(hasScript && old(running), faults, stopLeaves)
      ensures var active := hasScript && old(running);
              var reached := Prepares(t, a, dir, asText, faults, failAt) && Installs(active, old(data).Some?, old(config).Some?, faults);
              && (r.Restored? <==> reached && !FailsLate(active, faults))
              && (r.Failed? ==> config == if reached then Demoted(old(config)) else old(config))
              && (r.Failed? ==> (config != old(config) <==> reached && old(config).Some? && old(config).value.mode != 0x180))
    {
      var at, prepared, files := Prepare(t, a, dir, asText, faults, failAt);
      m := prepared;
      if at.Some? {
        Cleanup();
        return Failed(at.value), m;
      }
      var failed := Commit(hasScript, faults, partial, stopLeaves);
      Cleanup();
      r := if failed.Some? then Failed(failed.value) else Restored(files, running);
    }

    /** Stop, replace, restart; undo everything if a step fails. */
    method Commit(hasScript: bool, faults: set<Step>, partial: File, stopLeaves: bool) returns (at: Option<Step>)
      requires tempData.Some? && tempConfig.Some? && rollbackData == None && rollbackConfig == None
      requires !hasScript ==> !running
      modifies this
      ensures at == None ==> running == old(running) && data == old(tempData) && config == Some(old(tempConfig).value.(mode := PUBLIC))
      ensures at.Some? ==> data == old(data)
      ensures running != old(running) <==> StopFails(hasScript && old(running), faults, stopLeaves)
      ensures at.Some? ==> config == if LateFailure(at.value) then Demoted(old(config)) else old(config)
      ensures var active := hasScript && old(running);
              var reached := Installs(active, old(data).Some?, old(config).Some?, faults);
              && (at == None <==> reached && !FailsLate(active, faults))
              && (at.Some? ==> (LateFailure(at.value) <==> reached))
    {
      var wasRunning := hasScript && running;
      if wasRunning {
        if StopService in faults {
          running := stopLeaves;
          return Some(StopService);
        }
        running := false;
      }
      var dataReplaced, configReplaced;
      at, dataReplaced, configReplaced := Swap(hasScript, wasRunning, faults, partial);
      if at.Some? {
        Rollback(dataReplaced, configReplaced, wasRunning, hasScript);
      }
    }
  }
}
