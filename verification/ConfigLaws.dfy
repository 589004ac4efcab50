/** What the settings store promises: changing one setting changes what readers see of that setting and
    nothing else, although the file keeps only the least difference from the static files. */
module ConfigLaws {
  import opened Basics
  import opened KeyStore
  import opened Config

  ghost predicate IsContained(small: View, big: View) {
    forall k :: k in small ==> k in big && big[k] == small[k]
  }

  /** The file content written for a wanted view: the least one, in the one canonical form. */
  ghost predicate IsLeastFor(g: Groups, base: View, wanted: View) {
    && Canonical(g)
    && ViewOf(g) == Difference(wanted, base)
  }

  lemma LeastIsLeast(g: Groups, base: View, wanted: View, other: View)
    requires IsLeastFor(g, base, wanted)
    requires base + other == wanted
    ensures IsContained(ViewOf(g), other)
  {
    DifferenceIsLeast(wanted, base, other);
  }

  lemma LeastRestores(g: Groups, base: View, wanted: View)
    requires IsLeastFor(g, base, wanted) && base.Keys <= wanted.Keys
    ensures base + ViewOf(g) == wanted
  {
    DifferenceRestores(wanted, base);
  }

  lemma LeastIsUnique(g: Groups, h: Groups, base: View, wanted: View)
    requires IsLeastFor(g, base, wanted) && IsLeastFor(h, base, wanted)
    ensures g == h
  {
    CanonicalByView(g, h);
  }

  lemma SettingIsLeast(d: Disk, entry: string, key: string, value: string)
    ensures var wanted := Effective(d)[(entry, key) := value];
            && StaticView(d).Keys <= wanted.Keys
            && IsLeastFor(WithoutEmpty(WithSetting(d, entry, key, value)), StaticView(d), wanted)
  {
    var active := Settings(d);
    LookupIsFind(active, entry, key);
    var next := if Lookup(active, entry, key) == Some(value) then active else WithValue(active, entry, key, value);
    ViewOfValue(active, entry, key, value);
    assert ViewOf(next) == Effective(d)[(entry, key) := value];
    ViewOfPurged(next, StaticGroups(d));
    ViewOfCanonical(Purged(next, StaticGroups(d)));
    EffectiveIsLayered(d);
  }

  lemma UpdateIsVisible(v: View, k: (string, string), value: string)
    ensures v[k := value] == v <==> Find(v, k.0, k.1) == Some(value)
  {
    assert v[k := value][k] == value;
  }

  /** A saved change is read back as exactly that change. Updated is reported exactly if the change would be
      visible; if it can not be written, every reader keeps the old settings all the same, and the value just
      reported as set is not read back. */
  lemma SetPromise(d: Disk, entry: string, key: string, value: string, o: SaveOutcome)
    ensures var after := AfterSet(d, entry, key, value, o);
            && Effective(after) == (if Saves(o) then Effective(d)[(entry, key) := value] else Effective(d))
            && (Find(Effective(after), entry, key) == Some(value) <==> Saves(o) || Find(Effective(d), entry, key) == Some(value))
            && (ResultOfSet(d, entry, key, value) == Updated <==> Effective(d)[(entry, key) := value] != Effective(d))
            && (ResultOfSet(d, entry, key, value) == Updated && !Saves(o) ==> Find(Effective(after), entry, key) != Some(value))
  {
    var after := AfterSet(d, entry, key, value, o);
    UpdateIsVisible(Effective(d), (entry, key), value);
    SettingIsLeast(d, entry, key, value);
    EffectiveIsLayered(after);
    if Saves(o) {
      LeastRestores(WithoutEmpty(WithSetting(d, entry, key, value)), StaticView(d), Effective(d)[(entry, key) := value]);
    }
  }

  /** The file holds no more than it must: it is contained in every dynamic content with the same effect. */
  lemma SetIsMinimal(d: Disk, entry: string, key: string, value: string, o: SaveOutcome, other: View)
    requires Saves(o)
    requires StaticView(d) + other == Effective(d)[(entry, key) := value]
    ensures var file := AfterSet(d, entry, key, value, o).dynamic;
            file.Parsed? && Canonical(file.groups) && IsContained(ViewOf(file.groups), other)
  {
    SettingIsLeast(d, entry, key, value);
    LeastIsLeast(WithoutEmpty(WithSetting(d, entry, key, value)), StaticView(d), Effective(d)[(entry, key) := value], other);
  }

  /** The saved file depends on what was visible, not on how it was stored: settings made in either order
      give the same file, and a setting made twice gives the file it gave the first time. */
  lemma SavedFileIsCanonical(d1: Disk, d2: Disk, e1: string, k1: string, v1: string, o1: SaveOutcome,
                             e2: string, k2: string, v2: string, o2: SaveOutcome)
    requires d1.staticFiles == d2.staticFiles
    requires Effective(d1)[(e1, k1) := v1] == Effective(d2)[(e2, k2) := v2]
    requires Saves(o1) && Saves(o2)
    ensures AfterSet(d1, e1, k1, v1, o1).dynamic == AfterSet(d2, e2, k2, v2, o2).dynamic
  {
    SettingIsLeast(d1, e1, k1, v1);
    SettingIsLeast(d2, e2, k2, v2);
    LeastIsUnique(WithoutEmpty(WithSetting(d1, e1, k1, v1)), WithoutEmpty(WithSetting(d2, e2, k2, v2)),
                  StaticView(d1), Effective(d1)[(e1, k1) := v1]);
  }

  lemma UpdateTwice(v: View, k: (string, string), value: string)
    ensures v[k := value][k := value] == v[k := value]
  {
  }

  lemma SetTwice(d: Disk, entry: string, key: string, value: string, o1: SaveOutcome, o2: SaveOutcome)
    requires Saves(o1) && Saves(o2)
    ensures var once := AfterSet(d, entry, key, value, o1);
            AfterSet(once, entry, key, value, o2).dynamic == once.dynamic
  {
    SetPromise(d, entry, key, value, o1);
    UpdateTwice(Effective(d), (entry, key), value);
    SavedFileIsCanonical(d, AfterSet(d, entry, key, value, o1), entry, key, value, o1, entry, key, value, o2);
  }

  lemma UpdatesCommute(v: View, k1: (string, string), v1: string, k2: (string, string), v2: string)
    requires k1 != k2
    ensures v[k1 := v1][k2 := v2] == v[k2 := v2][k1 := v1]
  {
  }

  lemma SetsCommute(d: Disk, e1: string, k1: string, v1: string, e2: string, k2: string, v2: string,
                    o1: SaveOutcome, o2: SaveOutcome, o3: SaveOutcome, o4: SaveOutcome)
    requires (e1, k1) != (e2, k2)
    requires Saves(o1) && Saves(o2) && Saves(o3) && Saves(o4)
    ensures AfterSet(AfterSet(d, e1, k1, v1, o1), e2, k2, v2, o2).dynamic ==
            AfterSet(AfterSet(d, e2, k2, v2, o3), e1, k1, v1, o4).dynamic
  {
    SetPromise(d, e1, k1, v1, o1);
    SetPromise(d, e2, k2, v2, o3);
    UpdatesCommute(Effective(d), (e1, k1), v1, (e2, k2), v2);
    SavedFileIsCanonical(AfterSet(d, e1, k1, v1, o1), AfterSet(d, e2, k2, v2, o3), e2, k2, v2, o2, e1, k1, v1, o4);
  }

  function DropDefault(v: View, entry: string, key: string, default: string): View {
    if Find(v, entry, key) == Some(default) then v - {(entry, key)} else v
  }

  /** The legacy settings, without a default mode of "ask". */
  ghost function LegacyView(d: Disk): View {
    DropDefault(FileView(d.legacy), MODE_SETTING_ENTRY, MODE_SETTING_KEY, MODE_ASK)
  }

  /** The settings a start-up run is meant to make effective. */
  ghost function Intended(d: Disk): View {
    if LegacyInUse(d) then StaticView(d) + LegacyView(d) else Effective(d)
  }

  lemma ViewOfWithoutDefault(g: Groups, entry: string, key: string, default: string)
    ensures ViewOf(WithoutDefault(g, entry, key, default)) == DropDefault(ViewOf(g), entry, key, default)
  {
    LookupIsFind(g, entry, key);
    ViewOfRemoval(g, entry, key);
  }

  lemma OnNothing(g: Groups)
    ensures ViewOf(Merged(map[], g)) == ViewOf(g)
  {
    SameView(Merged(map[], g), ViewOf(g));
  }

  lemma ViewOfFileOnNothing(f: File)
    ensures ViewOf(MergedFile(map[], f)) == FileView(f)
  {
    if f.Parsed? {
      OnNothing(f.groups);
    }
  }

  lemma DifferenceTwice(v: View, base: View)
    ensures Difference(Difference(v, base), base) == Difference(v, base) == Difference(base + v, base)
  {
  }

  lemma PurgedOnNothing(g: Groups, base: Groups)
    ensures ViewOf(Merged(map[], Purged(g, base))) == Difference(ViewOf(g), ViewOf(base))
  {
    ViewOfPurged(g, base);
    OnNothing(Purged(g, base));
  }

  lemma LegacyPurged(d: Disk)
    ensures ViewOf(Merged(map[], Purged(LegacyOnto(map[], d), StaticGroups(d)))) == Difference(LegacyView(d), StaticView(d))
  {
    ViewOfFileOnNothing(d.legacy);
    ViewOfWithoutDefault(MergedFile(map[], d.legacy), MODE_SETTING_ENTRY, MODE_SETTING_KEY, MODE_ASK);
    PurgedOnNothing(LegacyOnto(map[], d), StaticGroups(d));
  }

  lemma MigratedIsLeast(d: Disk)
    ensures StaticView(d).Keys <= Intended(d).Keys
    ensures IsLeastFor(WithoutEmpty(Migrated(d)), StaticView(d), Intended(d))
  {
    EffectiveIsLayered(d);
    ViewOfCanonical(Migrated(d));
    if LegacyInUse(d) {
      LegacyPurged(d);
      ViewOfPurged(Merged(map[], Purged(LegacyOnto(map[], d), StaticGroups(d))), StaticGroups(d));
      DifferenceTwice(LegacyView(d), StaticView(d));
    } else {
      ViewOfFileOnNothing(d.dynamic);
      ViewOfPurged(MergedFile(map[], d.dynamic), StaticGroups(d));
      DifferenceTwice(FileView(d.dynamic), StaticView(d));
    }
  }

  /** Start-up makes legacy settings effective on top of the static ones when there is no dynamic file yet,
      and otherwise changes nothing a reader can see; without a successful write nothing changes at all. */
  lemma InitPromise(d: Disk, o: SaveOutcome)
    ensures Effective(AfterInit(d, o)) == if Saves(o) then Intended(d) else Effective(d)
    ensures !Saves(o) ==> AfterInit(d, o) == d
  {
    var after := AfterInit(d, o);
    MigratedIsLeast(d);
    EffectiveIsLayered(after);
    if Saves(o) {
      LeastRestores(WithoutEmpty(Migrated(d)), StaticView(d), Intended(d));
    }
  }

  /** A second start-up finds nothing left to do: same settings file, same effective settings, and the
      same disk unless it managed to rewrite the file and to drop a legacy file the first run had to keep. */
  lemma InitTwice(d: Disk, o1: SaveOutcome, o2: SaveOutcome)
    requires Saves(o1)
    ensures var once := AfterInit(d, o1); var twice := AfterInit(once, o2);
            && twice.dynamic == once.dynamic
            && Effective(twice) == Effective(once)
            && (o2.sameText || once.legacy.Missing? ==> twice == once)
  {
    var once := AfterInit(d, o1);
    MigratedIsLeast(d);
    MigratedIsLeast(once);
    InitPromise(d, o1);
    InitPromise(once, o2);
    assert !LegacyInUse(once);
    LeastIsUnique(WithoutEmpty(Migrated(d)), WithoutEmpty(Migrated(once)), StaticView(d), Intended(d));
  }
}
