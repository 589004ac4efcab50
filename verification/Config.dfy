/** The layered settings store of src/usb_moded-config.c: priority ordered static files, one dynamic
    file holding only what differs from them, and the legacy file the dynamic one replaced. */
module Config {
  import opened Basics
  import opened KeyStore

  /** A file on disk: absent, present but not a key file, or a key file. */
  datatype File = Missing | Unreadable | Parsed(groups: Groups)

  datatype SetResult = Error | Updated | Unchanged

  /** How the file system treats one save. sameText: the file already holds exactly this text. */
  datatype SaveOutcome = SaveOutcome(sameText: bool, mkdirOk: bool, writeOk: bool, unlinkOk: bool)

  datatype Disk = Disk(staticFiles: seq<File>, legacy: File, dynamic: File)

  const MODE_SETTING_ENTRY := "usbmode"
  const MODE_SETTING_KEY := "mode"
  const MODE_HIDE_KEY := "hide"
  const MODE_WHITELIST_KEY := "whitelist"
  const MODE_ASK := "ask"

  function MergedFile(g: Groups, f: File): Groups {
    if f.Parsed? then Merged(g, f.groups) else g
  }

  function StaticOnto(ini: Groups, files: seq<File>): Groups {
    if |files| == 0 then WithValue(ini, MODE_SETTING_ENTRY, MODE_SETTING_KEY, MODE_ASK)
    else MergedFile(StaticOnto(ini, files[..|files| - 1]), files[|files| - 1])
  }

  function StaticGroups(d: Disk): Groups {
    StaticOnto(map[], d.staticFiles)
  }

  /** All settings, as read back before every use. */
  function Settings(d: Disk): Groups {
    MergedFile(StaticGroups(d), d.dynamic)
  }

  /** What every reader of the settings sees. */
  ghost function Effective(d: Disk): View { ViewOf(Settings(d)) }

  /** What setting a value reports, whether or not it can then be written. */
  ghost function ResultOfSet(d: Disk, entry: string, key: string, value: string): SetResult {
    if Find(Effective(d), entry, key) == Some(value) then Unchanged else Updated
  }

  ghost function StaticView(d: Disk): View { ViewOf(StaticGroups(d)) }

  ghost function FileView(f: File): View {
    if f.Parsed? then ViewOf(f.groups) else imap[]
  }

  function WithoutDefault(g: Groups, entry: string, key: string, default: string): Groups {
    if Lookup(g, entry, key) == Some(default) then WithoutKey(g, entry, key) else g
  }

  function LegacyOnto(ini: Groups, d: Disk): Groups {
    WithoutDefault(MergedFile(ini, d.legacy), MODE_SETTING_ENTRY, MODE_SETTING_KEY, MODE_ASK)
  }

  predicate LegacyInUse(d: Disk) {
    d.legacy.Parsed? && d.dynamic.Missing?
  }

  /** The text can only be the same if the file says the same. */
  predicate Consistent(d: Disk, ini: Groups, o: SaveOutcome) {
    o.sameText ==> d.dynamic == Parsed(WithoutEmpty(ini))
  }

  predicate Saves(o: SaveOutcome) {
    o.sameText || (o.mkdirOk && o.writeOk)
  }

  /** What a save leaves behind. Where the text is the same nothing is written, and nothing has to be. */
  function Saved(d: Disk, ini: Groups, o: SaveOutcome): Disk {
    if o.sameText then d.(dynamic := Parsed(WithoutEmpty(ini)))
    else if !(o.mkdirOk && o.writeOk) then d
    else Disk(d.staticFiles, if o.unlinkOk then Missing else d.legacy, Parsed(WithoutEmpty(ini)))
  }

  function WithSetting(d: Disk, entry: string, key: string, value: string): Groups {
    var active := Settings(d);
    Purged(if Lookup(active, entry, key) == Some(value) then active else WithValue(active, entry, key, value), StaticGroups(d))
  }

  function AfterSet(d: Disk, entry: string, key: string, value: string, o: SaveOutcome): Disk {
    Saved(d, WithSetting(d, entry, key, value), o)
  }

  function Migrated(d: Disk): Groups {
    var active := if LegacyInUse(d) then Merged(map[], Purged(LegacyOnto(map[], d), StaticGroups(d))) else map[];
    Purged(MergedFile(active, d.dynamic), StaticGroups(d))
  }

  function AfterInit(d: Disk, o: SaveOutcome): Disk {
    Saved(d, Migrated(d), o)
  }

  function WithoutSetting(d: Disk, entry: string, key: string): Groups {
    WithoutKey(MergedFile(map[], d.dynamic), entry, key)
  }

  function AfterClear(d: Disk, entry: string, key: Option<string>, o: SaveOutcome): Disk {
    if key.Some? && Lookup(MergedFile(map[], d.dynamic), entry, key.value).Some?
    then Saved(d, WithoutSetting(d, entry, key.value), o) else d
  }

  /** Static settings have no empty group of their own making, so copying them copies everything. */
  lemma {:induction false} StaticHasNoEmptyGroup(files: seq<File>)
    ensures Canonical(StaticOnto(map[], files))
  {
    if |files| > 0 {
      StaticHasNoEmptyGroup(files[..|files| - 1]);
      var g, f := StaticOnto(map[], files[..|files| - 1]), files[|files| - 1];
      if f.Parsed? {
        forall grp | grp in Merged(g, f.groups) ensures Merged(g, f.groups)[grp] != map[] {
          if grp in g {
            var key :| key in g[grp];
            assert key in Merged(g, f.groups)[grp];
          }
        }
      }
    } else {
      assert MODE_SETTING_KEY in StaticOnto(map[], files)[MODE_SETTING_ENTRY];
    }
  }

  lemma MergedFromNothing(g: Groups, files: seq<File>)
    requires g == StaticOnto(map[], files)
    ensures Merged(map[], g) == g
  {
    StaticHasNoEmptyGroup(files);
    forall grp | grp in g ensures Merged(map[], g)[grp] == g[grp] {
      assert map[] + g[grp] == g[grp];
    }
  }

  /** The configuration files and the operations on them. */
  class Store {
    var staticFiles: seq<File>
    var legacy: File
    var dynamic: File

    function State(): Disk
      reads this
    {
      Disk(staticFiles, legacy, dynamic)
    }

    constructor (d: Disk)
      ensures State() == d
    {
      staticFiles, legacy, dynamic := d.staticFiles, d.legacy, d.dynamic;
    }

    method MergeFromFile(ini: KeyFile, file: File) returns (ack: bool)
      modifies ini
      ensures ini.groups == MergedFile(old(ini.groups), file)
      ensures ack == file.Parsed?
    {
      ack := false;
      if file.Parsed? {
        var tmp := new KeyFile();
        tmp.groups := file.groups;
        MergeData(ini, tmp);
        ack := true;
      }
    }

    method LoadStaticConfig(ini: KeyFile)
      modifies ini
      ensures ini.groups == StaticOnto(old(ini.groups), staticFiles)
    {
      ini.SetValue(MODE_SETTING_ENTRY, MODE_SETTING_KEY, MODE_ASK);
      for i := 0 to |staticFiles|
        invariant staticFiles == old(staticFiles)
        invariant ini.groups == StaticOnto(old(ini.groups), staticFiles[..i])
      {
        assert staticFiles[..i + 1][..i] == staticFiles[..i];
        var _ := MergeFromFile(ini, staticFiles[i]);
      }
      assert staticFiles[..|staticFiles|] == staticFiles;
    }

    method LoadLegacyConfig(ini: KeyFile) returns (ack: bool)
      modifies ini
      ensures ack == LegacyInUse(State())
      ensures ini.groups == if ack then LegacyOnto(old(ini.groups), State()) else old(ini.groups)
    {
      ack := false;
      if legacy.Missing? {
        return;
      }
      if !dynamic.Missing? {
        return;
      }
      var loaded := MergeFromFile(ini, legacy);
      if !loaded {
        return;
      }
      var val := Lookup(ini.groups, MODE_SETTING_ENTRY, MODE_SETTING_KEY);
      if val.Some? {
        if val.value == MODE_ASK {
          var _ := ini.RemoveKey(MODE_SETTING_ENTRY, MODE_SETTING_KEY);
        }
      }
      ack := true;
    }

    method LoadDynamicConfig(ini: KeyFile)
      modifies ini
      ensures ini.groups == MergedFile(old(ini.groups), dynamic)
    {
      var _ := MergeFromFile(ini, dynamic);
    }

    method RemoveLegacyConfig(unlinkOk: bool)
      modifies this`legacy
      ensures legacy == if unlinkOk then Missing else old(legacy)
    {
      if !legacy.Missing? && unlinkOk {
        legacy := Missing;
      }
    }

    method SaveDynamicConfig(ini: KeyFile, o: SaveOutcome)
      requires Consistent(State(), ini.groups, o)
      modifies ini, this`legacy, this`dynamic
      ensures State() == Saved(old(State()), old(ini.groups), o)
    {
      PurgeEmptyGroups(ini);
      if !o.sameText {
        if o.mkdirOk && o.writeOk {
          dynamic := Parsed(ini.groups);
          RemoveLegacyConfig(o.unlinkOk);
        }
      }
    }

    method GetSettings() returns (ini: KeyFile)
      ensures fresh(ini) && ini.groups == Settings(State())
    {
      ini := new KeyFile();
      LoadStaticConfig(ini);
      LoadDynamicConfig(ini);
    }

    method GetConfString(entry: string, key: string) returns (val: Option<string>)
      ensures val == Find(Effective(State()), entry, key)
    {
      var ini := GetSettings();
      val := Lookup(ini.groups, entry, key);
      LookupIsFind(ini.groups, entry, key);
    }

    method SetConfigSetting(entry: string, key: string, value: string, o: SaveOutcome) returns (ret: SetResult)
      requires Consistent(State(), WithSetting(State(), entry, key, value), o)
      modifies this`legacy, this`dynamic
      ensures State() == AfterSet(old(State()), entry, key, value, o)
      ensures ret == ResultOfSet(old(State()), entry, key, value)
    {
      ret := Unchanged;
      var staticIni := new KeyFile();
      var activeIni := new KeyFile();
      LoadStaticConfig(staticIni);
      MergeData(activeIni, staticIni);
      MergedFromNothing(staticIni.groups, staticFiles);
      LoadDynamicConfig(activeIni);
      var prev := Lookup(activeIni.groups, entry, key);
      LookupIsFind(activeIni.groups, entry, key);
      if prev != Some(value) {
        activeIni.SetValue(entry, key, value);
        ret := Updated;
      }
      PurgeData(activeIni, staticIni);
      SaveDynamicConfig(activeIni, o);
    }

    method Init(o: SaveOutcome)
      requires Consistent(State(), Migrated(State()), o)
      modifies this`legacy, this`dynamic
      ensures State() == AfterInit(old(State()), o)
    {
      var legacyIni := new KeyFile();
      var staticIni := new KeyFile();
      var activeIni := new KeyFile();
      LoadStaticConfig(staticIni);
      var loaded := LoadLegacyConfig(legacyIni);
      if loaded {
        PurgeData(legacyIni, staticIni);
        MergeData(activeIni, legacyIni);
      }
      LoadDynamicConfig(activeIni);
      PurgeData(activeIni, staticIni);
      SaveDynamicConfig(activeIni, o);
    }

    /** The common part of config_user_clear: forget one key of the dynamic file. */
    method ClearKey(entry: string, key: Option<string>, o: SaveOutcome)
      requires key.Some? ==> Consistent(State(), WithoutSetting(State(), entry, key.value), o)
      modifies this`legacy, this`dynamic
      ensures State() == AfterClear(old(State()), entry, key, o)
    {
      var activeIni := new KeyFile();
      LoadDynamicConfig(activeIni);
      if key.Some? {
        var removed := activeIni.RemoveKey(entry, key.value);
        if removed {
          SaveDynamicConfig(activeIni, o);
        }
      }
    }
  }

  lemma EffectiveIsLayered(d: Disk)
    ensures Effective(d) == StaticView(d) + FileView(d.dynamic)
  {
    if d.dynamic.Parsed? {
      ViewOfMerged(StaticGroups(d), d.dynamic.groups);
    }
  }
}
