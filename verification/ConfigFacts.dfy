/** What the layered settings are, value by value, in terms of what the files hold (src/usb_moded-config.c). */
module ConfigFacts {
  import opened Basics
  import opened KeyStore
  import opened Config
  import opened ConfigLaws
  import opened UserKeys

  predicate Has(f: File, entry: string, key: string) {
    f.Parsed? && entry in f.groups && key in f.groups[entry]
  }

  function ValueIn(f: File, entry: string, key: string): string
    requires Has(f, entry, key)
  {
    f.groups[entry][key]
  }

  /** No file from i on has a value. */
  predicate NoneFrom(files: seq<File>, i: nat, entry: string, key: string) {
    forall j :: i <= j < |files| ==> !Has(files[j], entry, key)
  }

  /** What is built in. */
  function BuiltIn(entry: string, key: string): Option<string> {
    if entry == "usbmode" && key == "mode" then Some("ask") else None
  }

  lemma FileAdds(g: Groups, f: File, entry: string, key: string)
    ensures Find(ViewOf(MergedFile(g, f)), entry, key) ==
            if Has(f, entry, key) then Some(ValueIn(f, entry, key)) else Find(ViewOf(g), entry, key)
  {
    if f.Parsed? {
      ViewOfMerged(g, f.groups);
    }
  }

  lemma LastAddsNothing(files: seq<File>, i: nat, entry: string, key: string)
    requires |files| > 0 && i < |files| && NoneFrom(files, i, entry, key)
    ensures NoneFrom(files[..|files| - 1], i, entry, key) && !Has(files[|files| - 1], entry, key)
  {
  }

  lemma {:induction false} LastFileCounts(files: seq<File>, i: nat, entry: string, key: string)
    requires i < |files| && Has(files[i], entry, key) && NoneFrom(files, i + 1, entry, key)
    ensures Find(ViewOf(StaticOnto(map[], files)), entry, key) == Some(ValueIn(files[i], entry, key))
  {
    var init, last := files[..|files| - 1], files[|files| - 1];
    FileAdds(StaticOnto(map[], init), last, entry, key);
    if i < |files| - 1 {
      LastAddsNothing(files, i + 1, entry, key);
      LastFileCounts(init, i, entry, key);
    }
  }

  lemma {:induction false} BuiltInCounts(files: seq<File>, entry: string, key: string)
    requires NoneFrom(files, 0, entry, key)
    ensures Find(ViewOf(StaticOnto(map[], files)), entry, key) == BuiltIn(entry, key)
  {
    if |files| == 0 {
      ViewOfValue(map[], MODE_SETTING_ENTRY, MODE_SETTING_KEY, MODE_ASK);
    } else {
      LastAddsNothing(files, 0, entry, key);
      BuiltInCounts(files[..|files| - 1], entry, key);
      FileAdds(StaticOnto(map[], files[..|files| - 1]), files[|files| - 1], entry, key);
    }
  }

  /** The static settings: of each setting the value in the last static file that has one, else what is built
      in. */
  lemma StaticIsLastFile(files: seq<File>, entry: string, key: string)
    ensures forall i :: 0 <= i < |files| && Has(files[i], entry, key) && NoneFrom(files, i + 1, entry, key) ==>
              Find(ViewOf(StaticOnto(map[], files)), entry, key) == Some(ValueIn(files[i], entry, key))
    ensures NoneFrom(files, 0, entry, key) ==> Find(ViewOf(StaticOnto(map[], files)), entry, key) == BuiltIn(entry, key)
  {
    forall i | 0 <= i < |files| && Has(files[i], entry, key) && NoneFrom(files, i + 1, entry, key)
      ensures Find(ViewOf(StaticOnto(map[], files)), entry, key) == Some(ValueIn(files[i], entry, key))
    {
      LastFileCounts(files, i, entry, key);
    }
    if NoneFrom(files, 0, entry, key) {
      BuiltInCounts(files, entry, key);
    }
  }

  /** All settings: of each the dynamic value, else that of the last static file with one, else what is built in. */
  lemma EffectiveIsLastFile(d: Disk, entry: string, key: string)
    ensures Has(d.dynamic, entry, key) ==> Find(Effective(d), entry, key) == Some(ValueIn(d.dynamic, entry, key))
    ensures !Has(d.dynamic, entry, key) ==>
              forall i :: 0 <= i < |d.staticFiles| && Has(d.staticFiles[i], entry, key) && NoneFrom(d.staticFiles, i + 1, entry, key) ==>
                Find(Effective(d), entry, key) == Some(ValueIn(d.staticFiles[i], entry, key))
    ensures NoneFrom(d.staticFiles, 0, entry, key) && !Has(d.dynamic, entry, key) ==>
              Find(Effective(d), entry, key) == BuiltIn(entry, key)
  {
    FileAdds(StaticGroups(d), d.dynamic, entry, key);
    StaticIsLastFile(d.staticFiles, entry, key);
  }

  /** Is the value one that start-up takes over from the legacy file? */
  predicate TakenOver(d: Disk, entry: string, key: string) {
    d.dynamic.Missing? && Has(d.legacy, entry, key) && !(entry == "usbmode" && key == "mode" && ValueIn(d.legacy, entry, key) == "ask")
  }

  lemma LegacyFact(d: Disk, entry: string, key: string)
    requires d.legacy.Parsed?
    ensures Find(LegacyView(d), entry, key) ==
            if Has(d.legacy, entry, key) && !(entry == "usbmode" && key == "mode" && ValueIn(d.legacy, entry, key) == "ask")
            then Some(ValueIn(d.legacy, entry, key)) else None
  {
  }

  /** What a successful start-up makes of each setting. */
  lemma InitIsTakenOver(d: Disk, o: SaveOutcome, entry: string, key: string)
    requires Saves(o)
    ensures Find(Effective(AfterInit(d, o)), entry, key) ==
            if TakenOver(d, entry, key) then Some(ValueIn(d.legacy, entry, key)) else Find(Effective(d), entry, key)
  {
    InitPromise(d, o);
    if d.legacy.Parsed? && d.dynamic.Missing? {
      LegacyFact(d, entry, key);
      EffectiveIsLayered(d);
    }
  }

  /** What a save does to the files: the dynamic one is written only if its text changes, the legacy one is
      dropped only after that has worked, and the static ones are never touched. */
  lemma SaveExactly(d: Disk, ini: Groups, o: SaveOutcome)
    requires Consistent(d, ini, o)
    ensures var r := Saved(d, ini, o);
            var written := !o.sameText && o.mkdirOk && o.writeOk;
            && r.staticFiles == d.staticFiles
            && (if written then r.dynamic.Parsed? && ViewOf(r.dynamic.groups) == ViewOf(ini)
                                && (forall g :: g in r.dynamic.groups <==> g in ini && ini[g] != map[])
                else r.dynamic == d.dynamic)
            && r.legacy == if written && o.unlinkOk then Missing else d.legacy
  {
    ViewOfCanonical(ini);
  }

  /** No outcome of a start-up loses a setting: the legacy file goes only once its values are in effect. */
  lemma InitLosesNothing(d: Disk, o: SaveOutcome, entry: string, key: string)
    requires Consistent(d, Migrated(d), o)
    ensures TakenOver(d, entry, key) ==>
            var r := AfterInit(d, o);
            r.legacy == d.legacy || Find(Effective(r), entry, key) == Some(ValueIn(d.legacy, entry, key))
  {
    if Saves(o) {
      InitIsTakenOver(d, o, entry, key);
    }
    SaveExactly(d, Migrated(d), o);
  }

  // ---- keys of additional users --------------------------------------------------------------------

  function Value(s: string): int {
    if |s| == 0 then 0 else Value(s[..|s| - 1]) * 10 + (s[|s| - 1] as int - '0' as int)
  }

  predicate IsDecimal(s: string) {
    s != "" && (forall i :: 0 <= i < |s| ==> '0' <= s[i] <= '9') && (|s| > 1 ==> s[0] != '0')
  }

  /** The suffix reads back as the uid, written without leading zeros. */
  lemma {:induction false} DecimalReadsBack(n: nat)
    ensures Value(Decimal(n)) == n && IsDecimal(Decimal(n)) && (n > 0 ==> Decimal(n)[0] != '0')
  {
    if n >= 10 {
      DecimalReadsBack(n / 10);
      var s := Decimal(n);
      assert s[..|s| - 1] == Decimal(n / 10);
    } else {
      assert Decimal(n)[..0] == "";
    }
  }

  /** Users 100001 to 999999 have a key of their own, with the uid in decimal; all others share one. */
  lemma KeysOfUsers(baseKey: string, uid: int)
    ensures if 100001 <= uid <= 999999
            then KeyFor(baseKey, uid) == baseKey + "_" + Decimal(uid) && Value(Decimal(uid)) == uid && IsDecimal(Decimal(uid))
            else KeyFor(baseKey, uid) == baseKey
  {
    if 100001 <= uid <= 999999 {
      DecimalReadsBack(uid);
    }
  }
}
