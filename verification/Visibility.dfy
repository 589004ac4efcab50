/** Hiding modes and whitelisting them: from the edit of a comma separated setting to the modes offered to a
    user (src/usb_moded-config.c, src/usb_moded-common.c). */
module Visibility {
  import opened Basics
  import opened Modes
  import opened Tokens
  import opened Policy
  import ModeLists
  import Config
  import ConfigLaws
  import KeyStore

  /** What readers see once a list setting has been edited. */
  function Edited(v: KeyStore.View, key: string, name: string, adding: bool): KeyStore.View {
    v[(Config.MODE_SETTING_ENTRY, key) := ModeLists.ModesString(KeyStore.Find(v, Config.MODE_SETTING_ENTRY, key), name, adding)]
  }

  ghost function NewValue(d: Config.Disk, key: string, name: string, adding: bool): string {
    ModeLists.ModesString(KeyStore.Find(Config.Effective(d), Config.MODE_SETTING_ENTRY, key), name, adding)
  }

  /** config_set_hide_mode_setting and config_set_unhide_mode_setting. */
  method SetModeHidden(store: Config.Store, name: string, adding: bool, o: Config.SaveOutcome) returns (ret: Config.SetResult)
    requires Config.Consistent(store.State(),
               Config.WithSetting(store.State(), Config.MODE_SETTING_ENTRY, Config.MODE_HIDE_KEY,
                                  NewValue(store.State(), Config.MODE_HIDE_KEY, name, adding)), o)
    modifies store`legacy, store`dynamic
    ensures var was := old(Config.Effective(store.State()));
            && Config.Effective(store.State()) == (if Config.Saves(o) then Edited(was, Config.MODE_HIDE_KEY, name, adding) else was)
            && (ret == Config.Updated <==> was != Edited(was, Config.MODE_HIDE_KEY, name, adding))
            && (ret == Config.Updated || ret == Config.Unchanged)
  {
    var value := store.GetConfString(Config.MODE_SETTING_ENTRY, Config.MODE_HIDE_KEY);
    var modes := ModeLists.MakeModesString(value, name, adding);
    ConfigLaws.SetPromise(store.State(), Config.MODE_SETTING_ENTRY, Config.MODE_HIDE_KEY, modes, o);
    ret := store.SetConfigSetting(Config.MODE_SETTING_ENTRY, Config.MODE_HIDE_KEY, modes, o);
  }

  lemma {:induction false} WithoutMembers(ts: seq<string>, name: string)
    ensures forall t :: t in ModeLists.Without(ts, name) <==> t in ts && t != name
  {
    if |ts| > 0 {
      WithoutMembers(ts[..|ts| - 1], name);
      assert ts == ts[..|ts| - 1] + [ts[|ts| - 1]];
    }
  }

  /** Editing changes whether the edited mode is listed, and nothing about any other (but an empty token is
      dropped). */
  lemma EditedMembers(value: Option<string>, name: string, adding: bool, t: string)
    requires name != "" && (adding ==> CommaFree(name))
    ensures t in Split(ModeLists.ModesString(value, name, adding)) <==>
            if t == name then adding else t != "" && t in Split(ModeLists.TextOf(value))
  {
    var before := NonEmpty(Split(ModeLists.TextOf(value)));
    var after := Split(ModeLists.ModesString(value, name, adding));
    ModeLists.EditPromise(value, name, adding);
    NonEmptyMembers(Split(ModeLists.TextOf(value)));
    WithoutMembers(after, name);
    WithoutMembers(before, name);
    assert t in ModeLists.Without(after, name) <==> t in ModeLists.Without(before, name);
  }

  lemma PermissionsStay(st: Settings, key: string, name: string, adding: bool, m: Mode, uid: int)
    ensures Permitted(st.(view := Edited(st.view, key, name, adding)), m, uid) == Permitted(st, m, uid)
  {
    assert "mode_group" != Config.MODE_SETTING_ENTRY;
  }

  lemma HiddenEdited(st: Settings, m: Mode, adding: bool, other: Mode)
    requires ModeName(m) != "" && (adding ==> CommaFree(ModeName(m)))
    ensures var now := st.(view := Edited(st.view, Config.MODE_HIDE_KEY, ModeName(m), adding));
            && Whitelist(now) == Whitelist(st)
            && (IsHidden(now, other) <==>
                if ModeName(other) == ModeName(m) then adding else ModeName(other) != "" && IsHidden(st, other))
  {
    assert Config.MODE_HIDE_KEY != Config.MODE_WHITELIST_KEY;
    EditedMembers(KeyStore.Find(st.view, Config.MODE_SETTING_ENTRY, Config.MODE_HIDE_KEY), ModeName(m), adding, ModeName(other));
  }

  /** Hiding a mode takes exactly that mode from what every user is offered; unhiding gives it back to exactly
      the users who may have it. This goes for either list of modes. */
  lemma HidingHides(st: Settings, m: Mode, adding: bool, other: Mode, uid: int, t: ListType)
    requires ModeName(m) != "" && (adding ==> CommaFree(ModeName(m))) && ModeName(other) != ""
    ensures var now := st.(view := Edited(st.view, Config.MODE_HIDE_KEY, ModeName(m), adding));
            Listed(now, other, uid, t) <==>
            if ModeName(other) == ModeName(m)
            then !adding && Permitted(st, other, uid) && (t.AvailableList? ==> IsWhitelisted(st, other))
            else Listed(st, other, uid, t)
  {
    HiddenEdited(st, m, adding, other);
    PermissionsStay(st, Config.MODE_HIDE_KEY, ModeName(m), adding, other, uid);
  }

  /** Is a mode allowed once another one, or itself, has been allowed or disallowed? */
  predicate StaysWhitelisted(st: Settings, m: Mode, adding: bool, other: Mode) {
    if ModeName(other) == ModeName(m) then adding
    else ModeName(other) != "" && Whitelist(st).Some? && IsWhitelisted(st, other)
  }

  lemma WhitelistEdited(st: Settings, m: Mode, adding: bool, other: Mode)
    requires ModeName(m) != "" && (adding ==> CommaFree(ModeName(m)))
    ensures var now := st.(view := Edited(st.view, Config.MODE_WHITELIST_KEY, ModeName(m), adding));
            Hidden(now) == Hidden(st) && (IsWhitelisted(now, other) <==> StaysWhitelisted(st, m, adding, other))
  {
    assert Config.MODE_HIDE_KEY != Config.MODE_WHITELIST_KEY;
    EditedMembers(KeyStore.Find(st.view, Config.MODE_SETTING_ENTRY, Config.MODE_WHITELIST_KEY), ModeName(m), adding, ModeName(other));
  }

  /** Allowing or disallowing one mode keeps the status of any other mode if there was a whitelist before;
      where there was none every other mode was allowed, and now none is: even when the edit was to
      disallow a mode. */
  lemma WhitelistingDecides(st: Settings, m: Mode, adding: bool, other: Mode, uid: int)
    requires ModeName(m) != "" && (adding ==> CommaFree(ModeName(m)))
    ensures var now := st.(view := Edited(st.view, Config.MODE_WHITELIST_KEY, ModeName(m), adding));
            Available(now, other, uid) <==>
            StaysWhitelisted(st, m, adding, other) && Permitted(st, other, uid) && !IsHidden(st, other)
  {
    WhitelistEdited(st, m, adding, other);
    PermissionsStay(st, Config.MODE_WHITELIST_KEY, ModeName(m), adding, other, uid);
  }
}
