/** Settings of additional users: keys made from a base key and a uid in decimal. */
module UserKeys {
  import opened Basics
  import opened KeyStore
  import opened Config
  import opened ConfigLaws

  const MIN_ADDITIONAL_USER := 100001
  const MAX_ADDITIONAL_USER := 999999

  predicate IsAdditionalUser(uid: int) {
    MIN_ADDITIONAL_USER <= uid <= MAX_ADDITIONAL_USER
  }

  function Digit(d: int): char
    requires 0 <= d < 10
  {
    ['0', '1', '2', '3', '4', '5', '6', '7', '8', '9'][d]
  }

  function Decimal(n: nat): (s: string)
    ensures s != ""
  {
    if n < 10 then [Digit(n)] else Decimal(n / 10) + [Digit(n % 10)]
  }

  lemma {:induction false} DecimalInjective(m: nat, n: nat)
    requires Decimal(m) == Decimal(n)
    ensures m == n
  {
    var s := Decimal(m);
    assert s[|s| - 1] == Digit(m % 10) == Digit(n % 10);
    assert m % 10 == n % 10;
    if m >= 10 && n >= 10 {
      assert Decimal(m / 10) == s[..|s| - 1] == Decimal(n / 10);
      DecimalInjective(m / 10, n / 10);
    }
  }

  /** config_make_user_key_string: NULL unless the uid is an additional user's. */
  function UserKey(baseKey: string, uid: int): Option<string> {
    if IsAdditionalUser(uid) then Some(baseKey + "_" + Decimal(uid)) else None
  }

  function KeyFor(baseKey: string, uid: int): string {
    UserKey(baseKey, uid).GetOr(baseKey)
  }

  /** Different additional users have different keys, and none of them is the shared key. */
  lemma UserKeysDiffer(baseKey: string, a: int, b: int)
    requires IsAdditionalUser(a)
    ensures KeyFor(baseKey, a) != baseKey
    ensures IsAdditionalUser(b) && KeyFor(baseKey, a) == KeyFor(baseKey, b) ==> a == b
  {
    if IsAdditionalUser(b) && KeyFor(baseKey, a) == KeyFor(baseKey, b) {
      var s := KeyFor(baseKey, a);
      assert s[|baseKey| + 1..] == Decimal(a);
      assert s[|baseKey| + 1..] == Decimal(b);
      DecimalInjective(a, b);
    }
  }

  /** config_get_user_conf_string on the settings a reader sees. */
  function UserSetting(v: View, entry: string, baseKey: string, uid: int): Option<string> {
    var own := if UserKey(baseKey, uid).Some? then Find(v, entry, UserKey(baseKey, uid).value) else None;
    if own.Some? then own else Find(v, entry, baseKey)
  }

  method GetUserConfString(store: Store, entry: string, baseKey: string, uid: int) returns (value: Option<string>)
    ensures value == UserSetting(Effective(store.State()), entry, baseKey, uid)
  {
    value := None;
    var key := UserKey(baseKey, uid);
    if key.Some? {
      value := store.GetConfString(entry, key.value);
    }
    if value.None? {
      value := store.GetConfString(entry, baseKey);
    }
  }

  method SetUserConfigSetting(store: Store, entry: string, baseKey: string, value: string, uid: int, o: SaveOutcome)
    returns (ret: SetResult)
    requires Consistent(store.State(), WithSetting(store.State(), entry, KeyFor(baseKey, uid), value), o)
    modifies store`legacy, store`dynamic
    ensures store.State() == AfterSet(old(store.State()), entry, KeyFor(baseKey, uid), value, o)
    ensures ret == ResultOfSet(old(store.State()), entry, KeyFor(baseKey, uid), value)
  {
    var key := UserKey(baseKey, uid);
    ret := store.SetConfigSetting(entry, key.GetOr(baseKey), value, o);
  }

  method UserClear(store: Store, uid: int, o: SaveOutcome) returns (ok: bool)
    requires IsAdditionalUser(uid) ==> Consistent(store.State(), WithoutSetting(store.State(), MODE_SETTING_ENTRY, KeyFor(MODE_SETTING_KEY, uid)), o)
    modifies store`legacy, store`dynamic
    ensures ok == IsAdditionalUser(uid)
    ensures store.State() == if ok then AfterClear(old(store.State()), MODE_SETTING_ENTRY, UserKey(MODE_SETTING_KEY, uid), o) else old(store.State())
  {
    if uid < MIN_ADDITIONAL_USER || uid > MAX_ADDITIONAL_USER {
      return false;
    }
    store.ClearKey(MODE_SETTING_ENTRY, UserKey(MODE_SETTING_KEY, uid), o);
    ok := true;
  }

  /** An additional user's setting is read back by that user and by nobody else. */
  lemma SetIsolation(d: Disk, entry: string, baseKey: string, value: string, uid: int, other: int, o: SaveOutcome)
    requires IsAdditionalUser(uid)
    requires Saves(o)
    ensures var after := AfterSet(d, entry, KeyFor(baseKey, uid), value, o);
            UserSetting(Effective(after), entry, baseKey, other) ==
            if other == uid then Some(value) else UserSetting(Effective(d), entry, baseKey, other)
  {
    SetPromise(d, entry, KeyFor(baseKey, uid), value, o);
    UserKeysDiffer(baseKey, uid, other);
    UserKeysDiffer(baseKey, uid, uid);
  }

  /** A setting made for everyone else reaches exactly the users without one of their own. */
  lemma SharedSetting(d: Disk, entry: string, baseKey: string, value: string, uid: int, other: int, o: SaveOutcome)
    requires !IsAdditionalUser(uid)
    requires Saves(o)
    ensures var after := AfterSet(d, entry, KeyFor(baseKey, uid), value, o);
            UserSetting(Effective(after), entry, baseKey, other) ==
            if IsAdditionalUser(other) && Find(Effective(d), entry, KeyFor(baseKey, other)).Some?
            then Find(Effective(d), entry, KeyFor(baseKey, other)) else Some(value)
  {
    SetPromise(d, entry, baseKey, value, o);
    if IsAdditionalUser(other) {
      UserKeysDiffer(baseKey, other, other);
    }
  }

  lemma RemovalOfAbsent(v: View, k: (string, string))
    ensures k !in v ==> v - {k} == v
  {
  }

  lemma ClearedContent(ini: Groups, entry: string, key: string)
    ensures ViewOf(WithoutEmpty(WithoutKey(ini, entry, key))) == ViewOf(ini) - {(entry, key)}
  {
    ViewOfRemoval(ini, entry, key);
    ViewOfCanonical(WithoutKey(ini, entry, key));
  }

  lemma ClearedView(d: Disk, entry: string, key: string, o: SaveOutcome)
    requires (entry, key) in FileView(d.dynamic) ==> Saves(o)
    ensures FileView(AfterClear(d, entry, Some(key), o).dynamic) == FileView(d.dynamic) - {(entry, key)}
  {
    var ini := MergedFile(map[], d.dynamic);
    ViewOfFileOnNothing(d.dynamic);
    LookupIsFind(ini, entry, key);
    RemovalOfAbsent(FileView(d.dynamic), (entry, key));
    if Lookup(ini, entry, key).Some? {
      ClearedContent(ini, entry, key);
    }
  }

  lemma ClearedEffect(d: Disk, entry: string, key: string, o: SaveOutcome)
    requires (entry, key) in FileView(d.dynamic) ==> Saves(o)
    ensures Effective(d) == StaticView(d) + FileView(d.dynamic)
    ensures Effective(AfterClear(d, entry, Some(key), o)) == StaticView(d) + (FileView(d.dynamic) - {(entry, key)})
  {
    ClearedView(d, entry, key, o);
    EffectiveIsLayered(d);
    EffectiveIsLayered(AfterClear(d, entry, Some(key), o));
  }

  lemma LayeredRemoval(base: View, v: View, k: (string, string))
    ensures forall e, c :: (e, c) != k ==> Find(base + (v - {k}), e, c) == Find(base + v, e, c)
    ensures Find(base + (v - {k}), k.0, k.1) == Find(base, k.0, k.1)
  {
  }

  lemma UserWithoutOwn(base: View, v: View, entry: string, baseKey: string, uid: int, other: int)
    requires IsAdditionalUser(uid)
    ensures var after := base + (v - {(entry, KeyFor(baseKey, uid))});
            UserSetting(after, entry, baseKey, other) ==
            if other != uid then UserSetting(base + v, entry, baseKey, other)
            else if Find(base, entry, KeyFor(baseKey, uid)).Some? then Find(base, entry, KeyFor(baseKey, uid))
            else Find(base + v, entry, baseKey)
  {
    UserKeysDiffer(baseKey, uid, other);
    LayeredRemoval(base, v, (entry, KeyFor(baseKey, uid)));
  }

  /** Clearing a user brings back what the static files say for that user, else the shared setting, and
      leaves every other user's setting alone. */
  lemma ClearPromise(d: Disk, entry: string, baseKey: string, uid: int, other: int, o: SaveOutcome)
    requires IsAdditionalUser(uid)
    requires (entry, KeyFor(baseKey, uid)) in FileView(d.dynamic) ==> Saves(o)
    ensures var after := Effective(AfterClear(d, entry, UserKey(baseKey, uid), o));
            var fallback := Find(StaticView(d), entry, KeyFor(baseKey, uid));
            UserSetting(after, entry, baseKey, other) ==
            if other != uid then UserSetting(Effective(d), entry, baseKey, other)
            else if fallback.Some? then fallback
            else Find(Effective(d), entry, baseKey)
  {
    var key := KeyFor(baseKey, uid);
    ClearedEffect(d, entry, key, o);
    UserWithoutOwn(StaticView(d), FileView(d.dynamic), entry, baseKey, uid, other);
  }

}
