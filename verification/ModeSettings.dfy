/** The stored default mode, and how a change of the whitelist reaches it (src/usb_moded-config.c). */
module ModeSettings {
  import opened Basics
  import opened Modes
  import opened Tokens
  import opened KeyStore
  import opened Config
  import opened Policy
  import opened ConfigLaws
  import opened UserKeys
  import opened Visibility
  import ModeLists
  import PolicyLaws

  /** The configuration of st with its settings read back from disk. */
  ghost function On(st: Policy.Settings, d: Disk): Policy.Settings {
    st.(view := Effective(d))
  }

  /** Does looking up the mode setting reset it to "ask"? */
  predicate Resets(st: Policy.Settings, uid: int) {
    !StoredModeUsable(st, uid) && Permitted(st, Ask, uid)
  }

  ghost function WithMode(d: Disk, name: string, uid: int): Groups {
    WithSetting(d, MODE_SETTING_ENTRY, KeyFor(MODE_SETTING_KEY, uid), name)
  }

  ghost function AfterSetMode(d: Disk, name: string, uid: int, o: SaveOutcome): Disk {
    AfterSet(d, MODE_SETTING_ENTRY, KeyFor(MODE_SETTING_KEY, uid), name, o)
  }

  ghost function AfterLookup(d: Disk, st: Policy.Settings, uid: int, o: SaveOutcome): Disk {
    if Resets(On(st, d), uid) then AfterSetMode(d, MODE_ASK, uid, o) else d
  }

  /** common_valid_mode. */
  method IsValidMode(store: Store, st: Policy.Settings, m: Mode) returns (valid: bool)
    ensures valid == ValidMode(On(st, store.State()), m)
  {
    if m.Charging? {
      return true;
    }
    if m !in st.modelist {
      return false;
    }
    var whitelist := store.GetConfString(MODE_SETTING_ENTRY, MODE_WHITELIST_KEY);
    if whitelist.None? {
      return true;
    }
    valid := ModeLists.ModeInList(ModeName(m), Some(Split(whitelist.value)));
  }

  /** usbmoded_is_mode_permitted. */
  method IsPermitted(store: Store, st: Policy.Settings, m: Mode, uid: int) returns (allowed: bool)
    ensures allowed == Permitted(On(st, store.State()), m, uid)
  {
    if uid == 0 {
      return true;
    }
    if uid == UID_UNKNOWN {
      return false;
    }
    if m !in st.modelist {
      return true;
    }
    var group := store.GetConfString("mode_group", ModeName(m));
    allowed := (uid, group.GetOr("sailfish-system")) in st.groups;
  }

  /** Nothing is written for modes that do not exist or are not permitted. */
  method SetModeSetting(store: Store, st: Policy.Settings, m: Mode, uid: int, o: SaveOutcome) returns (ret: SetResult)
    requires Consistent(store.State(), WithMode(store.State(), ModeName(m), uid), o)
    modifies store`legacy, store`dynamic
    ensures var d := old(store.State());
            if (m.Ask? || ValidMode(On(st, d), m)) && Permitted(On(st, d), m, uid)
            then store.State() == AfterSetMode(d, ModeName(m), uid, o) &&
                 ret == ResultOfSet(d, MODE_SETTING_ENTRY, KeyFor(MODE_SETTING_KEY, uid), ModeName(m))
            else store.State() == d && ret == Error
  {
    if !m.Ask? {
      var valid := IsValidMode(store, st, m);
      if !valid {
        return Error;
      }
    }
    var allowed := IsPermitted(store, st, m, uid);
    if !allowed {
      return Error;
    }
    ret := SetUserConfigSetting(store, MODE_SETTING_ENTRY, MODE_SETTING_KEY, ModeName(m), uid, o);
  }

  method IsUsable(store: Store, st: Policy.Settings, m: Mode, uid: int) returns (usable: bool)
    ensures usable == (m.Ask? || (ValidMode(On(st, store.State()), m) && Permitted(On(st, store.State()), m, uid)))
  {
    usable := true;
    if !m.Ask? {
      var valid := IsValidMode(store, st, m);
      var allowed := IsPermitted(store, st, m, uid);
      usable := valid && allowed;
    }
  }

  method ResetMode(store: Store, st: Policy.Settings, uid: int, o: SaveOutcome)
    requires Consistent(store.State(), WithMode(store.State(), MODE_ASK, uid), o)
    modifies store`legacy, store`dynamic
    ensures var d := old(store.State());
            store.State() == if Permitted(On(st, d), Ask, uid) then AfterSetMode(d, MODE_ASK, uid, o) else d
  {
    assert ModeName(Ask) == MODE_ASK;
    var _ := SetModeSetting(store, st, Ask, uid, o);
  }

  lemma LookupDecides(st: Policy.Settings, uid: int)
    requires StoredMode(st, uid).Some?
    ensures var m := ModeFromName(StoredMode(st, uid).value);
            var usable := m.Ask? || (ValidMode(st, m) && Permitted(st, m, uid));
            ModeSetting(st, uid) == (if usable then m else Ask) && (Resets(st, uid) <==> !usable && Permitted(st, Ask, uid))
  {
  }

  /** config_get_mode_setting, with the write it may make. */
  method GetModeSetting(store: Store, st: Policy.Settings, uid: int, o: SaveOutcome) returns (mode: Mode)
    requires Consistent(store.State(), WithMode(store.State(), MODE_ASK, uid), o)
    modifies store`legacy, store`dynamic
    ensures mode == ModeSetting(On(st, old(store.State())), uid)
    ensures store.State() == AfterLookup(old(store.State()), st, uid, o)
  {
    var stored := GetUserConfString(store, MODE_SETTING_ENTRY, MODE_SETTING_KEY, uid);
    if stored.None? {
      return Charging;
    }
    mode := ModeFromName(stored.value);
    var usable := IsUsable(store, st, mode, uid);
    LookupDecides(On(st, store.State()), uid);
    if !usable {
      mode := Ask;
      ResetMode(store, st, uid, o);
    }
  }

  /** What readers see after a lookup is what the decision code assumes. */
  lemma LookupIsVisible(d: Disk, st: Policy.Settings, uid: int, o: SaveOutcome)
    requires st.writable == Saves(o)
    ensures On(st, AfterLookup(d, st, uid, o)) == SettingsAfterLookup(On(st, d), uid)
  {
    SetPromise(d, MODE_SETTING_ENTRY, KeyFor(MODE_SETTING_KEY, uid), MODE_ASK, o);
  }

  /** A mode that is accepted is from then on the user's default mode. */
  lemma AcceptedModeIsDefault(d: Disk, st: Policy.Settings, m: Mode, uid: int, o: SaveOutcome)
    requires Saves(o) && ModeFromName(ModeName(m)) == m
    requires (m == Ask || PolicyLaws.Exists(On(st, d), m)) && PolicyLaws.MayUse(On(st, d), m, uid)
    ensures PolicyLaws.DefaultMode(On(st, AfterSetMode(d, ModeName(m), uid, o)), uid) == m
  {
    SetPromise(d, MODE_SETTING_ENTRY, KeyFor(MODE_SETTING_KEY, uid), ModeName(m), o);
    PolicyLaws.KeyExactly(uid);
    PolicyLaws.KeysApart(uid);
    PolicyLaws.TextsApart(On(st, d), PolicyLaws.ModeKey(uid), ModeName(m), "usbmode", "whitelist");
    PolicyLaws.TextsApart(On(st, d), PolicyLaws.ModeKey(uid), ModeName(m), "mode_group", ModeName(m));
  }

  // ---- the whitelist -------------------------------------------------------------------------------

  ghost function AfterWhitelist(d: Disk, st: Policy.Settings, whitelist: string, uid: int, o1: SaveOutcome, o2: SaveOutcome): Disk {
    var d1 := AfterSet(d, MODE_SETTING_ENTRY, MODE_WHITELIST_KEY, whitelist, o1);
    if ResultOfSet(d, MODE_SETTING_ENTRY, MODE_WHITELIST_KEY, whitelist) == Updated then AfterLookup(d1, st, uid, o2) else d1
  }

  ghost predicate WritesConsistent(d: Disk, whitelist: string, uid: int, o1: SaveOutcome, o2: SaveOutcome) {
    && Consistent(d, WithSetting(d, MODE_SETTING_ENTRY, MODE_WHITELIST_KEY, whitelist), o1)
    && var d1 := AfterSet(d, MODE_SETTING_ENTRY, MODE_WHITELIST_KEY, whitelist, o1);
       Consistent(d1, WithMode(d1, MODE_ASK, uid), o2)
  }

  /** rethink: control_settings_changed is called. uid: the current user. */
  method SetModeWhitelist(store: Store, st: Policy.Settings, whitelist: string, uid: int, o1: SaveOutcome, o2: SaveOutcome)
    returns (ret: SetResult, rethink: bool)
    requires WritesConsistent(store.State(), whitelist, uid, o1, o2)
    modifies store`legacy, store`dynamic
    ensures store.State() == AfterWhitelist(old(store.State()), st, whitelist, uid, o1, o2)
    ensures ret == ResultOfSet(old(store.State()), MODE_SETTING_ENTRY, MODE_WHITELIST_KEY, whitelist)
    ensures rethink == (ret == Updated)
  {
    rethink := false;
    ret := store.SetConfigSetting(MODE_SETTING_ENTRY, MODE_WHITELIST_KEY, whitelist, o1);
    if ret == Updated {
      var mode := GetModeSetting(store, st, uid, o2);
      if !mode.Ask? {
        var valid := IsValidMode(store, st, mode);
        if !valid {
          assert false; // the lookup has replaced a mode that is not valid already
        }
      }
      rethink := true;
    }
  }

  method SetModeInWhitelist(store: Store, st: Policy.Settings, name: string, allowed: bool, uid: int, o1: SaveOutcome, o2: SaveOutcome)
    returns (ret: SetResult, rethink: bool)
    requires WritesConsistent(store.State(), NewValue(store.State(), MODE_WHITELIST_KEY, name, allowed), uid, o1, o2)
    modifies store`legacy, store`dynamic
    ensures var d := old(store.State());
            && store.State() == AfterWhitelist(d, st, NewValue(d, MODE_WHITELIST_KEY, name, allowed), uid, o1, o2)
            && ret == ResultOfSet(d, MODE_SETTING_ENTRY, MODE_WHITELIST_KEY, NewValue(d, MODE_WHITELIST_KEY, name, allowed))
            && rethink == (ret == Updated)
  {
    var value := store.GetConfString(MODE_SETTING_ENTRY, MODE_WHITELIST_KEY);
    var modes := ModeLists.MakeModesString(value, name, allowed);
    ret, rethink := SetModeWhitelist(store, st, modes, uid, o1, o2);
  }

  /** What readers see after a mode has been allowed or disallowed: nothing new if that leaves the whitelist as
      it was; else the edited whitelist, if it could be written, and in either case nothing else changed but
      the mode setting of the current user, if the whitelist now read back requires it to be reset. */
  lemma WhitelistingIsVisible(d: Disk, st: Policy.Settings, name: string, adding: bool, uid: int, o1: SaveOutcome, o2: SaveOutcome)
    requires st.writable == Saves(o2)
    ensures var was, now := On(st, d), On(st, d).(view := Edited(Effective(d), MODE_WHITELIST_KEY, name, adding));
            On(st, AfterWhitelist(d, st, NewValue(d, MODE_WHITELIST_KEY, name, adding), uid, o1, o2)) ==
            if now == was then was else SettingsAfterLookup(if Saves(o1) then now else was, uid)
  {
    var value := NewValue(d, MODE_WHITELIST_KEY, name, adding);
    SetPromise(d, MODE_SETTING_ENTRY, MODE_WHITELIST_KEY, value, o1);
    LookupIsVisible(AfterSet(d, MODE_SETTING_ENTRY, MODE_WHITELIST_KEY, value, o1), st, uid, o2);
  }

  lemma KeysDiffer(uid: int)
    ensures KeyFor(MODE_SETTING_KEY, uid) != MODE_WHITELIST_KEY
  {
    assert MODE_SETTING_KEY[0] != MODE_WHITELIST_KEY[0];
    if IsAdditionalUser(uid) {
      assert KeyFor(MODE_SETTING_KEY, uid)[0] == MODE_SETTING_KEY[0];
    }
  }

  lemma StoredModeStays(st: Policy.Settings, name: string, adding: bool, uid: int)
    ensures StoredMode(st.(view := Edited(st.view, MODE_WHITELIST_KEY, name, adding)), uid) == StoredMode(st, uid)
  {
    KeysDiffer(uid);
    assert MODE_SETTING_KEY[0] != MODE_WHITELIST_KEY[0];
  }

  /** Can the stored mode s be used? */
  predicate CanUse(st: Policy.Settings, s: Mode, uid: int, allowed: bool) {
    s.Ask? || (Permitted(st, s, uid) && (s.Charging? || (s in st.modelist && allowed)))
  }

  /** Would a lookup reset the mode setting once mode m has been allowed or disallowed? */
  lemma EditedResets(st: Policy.Settings, m: Mode, adding: bool, uid: int)
    requires ModeName(m) != "" && (adding ==> CommaFree(ModeName(m)))
    ensures Resets(st.(view := Edited(st.view, MODE_WHITELIST_KEY, ModeName(m), adding)), uid) <==>
            && Permitted(st, Ask, uid) && StoredMode(st, uid).Some?
            && var s := ModeFromName(StoredMode(st, uid).value); !CanUse(st, s, uid, StaysWhitelisted(st, m, adding, s))
  {
    StoredModeStays(st, ModeName(m), adding, uid);
    PermissionsStay(st, MODE_WHITELIST_KEY, ModeName(m), adding, Ask, uid);
    if StoredMode(st, uid).Some? {
      var s := ModeFromName(StoredMode(st, uid).value);
      PermissionsStay(st, MODE_WHITELIST_KEY, ModeName(m), adding, s, uid);
      WhitelistEdited(st, m, adding, s);
    }
  }

  /** A lookup leaves the stored mode alone, or replaces it by "ask". */
  lemma LookupStores(st: Policy.Settings, uid: int)
    ensures StoredMode(SettingsAfterLookup(st, uid), uid) ==
            if Resets(st, uid) && st.writable then Some(MODE_ASK) else StoredMode(st, uid)
  {
  }

  /** Exactly what allowing or disallowing mode m makes of the current user's stored mode. It is reset if and
      only if the edit changes the whitelist, the user may choose "ask", there is a stored mode, that can not be
      used with the whitelist now read back (the edited one if it could be written), and "ask" can be written. */
  lemma WhitelistingResets(d: Disk, st: Policy.Settings, m: Mode, adding: bool, uid: int, o1: SaveOutcome, o2: SaveOutcome)
    requires ModeName(m) != "" && (adding ==> CommaFree(ModeName(m))) && st.writable == Saves(o2)
    ensures var was := On(st, d);
            var after := On(st, AfterWhitelist(d, st, NewValue(d, MODE_WHITELIST_KEY, ModeName(m), adding), uid, o1, o2));
            var stored := StoredMode(was, uid);
            StoredMode(after, uid) ==
            if && Edited(was.view, MODE_WHITELIST_KEY, ModeName(m), adding) != was.view
               && Permitted(was, Ask, uid) && stored.Some?
               && (var s := ModeFromName(stored.value);
                   !CanUse(was, s, uid, if Saves(o1) then StaysWhitelisted(was, m, adding, s) else IsWhitelisted(was, s)))
               && Saves(o2)
            then Some(MODE_ASK) else stored
  {
    var was := On(st, d);
    var now := was.(view := Edited(was.view, MODE_WHITELIST_KEY, ModeName(m), adding));
    WhitelistingIsVisible(d, st, ModeName(m), adding, uid, o1, o2);
    EditedResets(was, m, adding, uid);
    StoredModeStays(was, ModeName(m), adding, uid);
    LookupStores(now, uid);
    LookupStores(was, uid);
  }
}
