/** Which mode is decided on, in terms of the raw settings and flags: an account of control_rethink_usb_mode and of
    everything it asks that does not go through the functions of Policy. */
module PolicyLaws {
  import opened Basics
  import opened Modes
  import opened Tokens
  import opened Policy
  import UserKeys

  // ---- raw settings --------------------------------------------------------------------------------

  function Text(st: Settings, grp: string, key: string): Option<string> {
    if (grp, key) in st.view then Some(st.view[(grp, key)]) else None
  }

  /** May the user use the mode? Root may use all, an unknown user none; a configured mode takes membership in the
      group configured for it, or in sailfish-system. */
  predicate MayUse(st: Settings, m: Mode, uid: int) {
    || uid == 0
    || (uid != 0xFFFF_FFFF
        && (m !in st.modelist
            || (uid, if Text(st, "mode_group", ModeName(m)).Some? then Text(st, "mode_group", ModeName(m)).value
                     else "sailfish-system") in st.groups))
  }

  predicate InList(list: Option<string>, m: Mode) {
    list.Some? && ModeName(m) in Split(list.value)
  }

  /** Plain charging, or a configured mode the whitelist does not leave out. */
  predicate Exists(st: Settings, m: Mode) {
    m == Charging || (m in st.modelist && (Text(st, "usbmode", "whitelist").Some? ==> InList(Text(st, "usbmode", "whitelist"), m)))
  }

  /** Offered to the user when asking. */
  predicate Offered(st: Settings, m: Mode, uid: int) {
    && m in st.modelist && MayUse(st, m, uid)
    && !InList(Text(st, "usbmode", "hide"), m)
    && (Text(st, "usbmode", "whitelist").Some? ==> InList(Text(st, "usbmode", "whitelist"), m))
  }

  /** The key of a user's default mode. */
  function ModeKey(uid: int): string {
    if 100001 <= uid <= 999999 then "mode_" + UserKeys.Decimal(uid) else "mode"
  }

  function StoredText(st: Settings, uid: int): Option<string> {
    if Text(st, "usbmode", ModeKey(uid)).Some? then Text(st, "usbmode", ModeKey(uid)) else Text(st, "usbmode", "mode")
  }

  lemma KeyExactly(uid: int)
    ensures UserKeys.KeyFor("mode", uid) == ModeKey(uid)
  {
    assert "mode" + "_" == "mode_";
  }

  /** Exactly who is permitted to use a mode. */
  lemma PermittedExactly(st: Settings, m: Mode, uid: int)
    ensures Permitted(st, m, uid) <==> MayUse(st, m, uid)
  {
  }

  lemma ValidExactly(st: Settings, m: Mode)
    ensures ValidMode(st, m) <==> Exists(st, m)
  {
  }

  /** Exactly which modes are listed for a user: available ones, and supported ones whatever the whitelist. */
  lemma ListedExactly(st: Settings, m: Mode, uid: int)
    ensures m in ListedModes(st, st.modelist, uid, AvailableList) <==> Offered(st, m, uid)
    ensures m in ListedModes(st, st.modelist, uid, SupportedList) <==>
            m in st.modelist && MayUse(st, m, uid) && !InList(Text(st, "usbmode", "hide"), m)
  {
    PermittedExactly(st, m, uid);
  }

  predicate IsSubsequence(a: seq<Mode>, b: seq<Mode>) {
    if |a| == 0 then true
    else if |b| == 0 then false
    else if a[|a| - 1] == b[|b| - 1] && IsSubsequence(a[..|a| - 1], b[..|b| - 1]) then true
    else IsSubsequence(a, b[..|b| - 1])
  }

  lemma {:induction false} ListedInOrder(st: Settings, ms: seq<Mode>, uid: int, t: ListType)
    ensures IsSubsequence(ListedModes(st, ms, uid, t), ms)
  {
    if |ms| > 0 {
      ListedInOrder(st, ms[..|ms| - 1], uid, t);
      var init := ListedModes(st, ms[..|ms| - 1], uid, t);
      if Listed(st, ms[|ms| - 1], uid, t) {
        assert (init + [ms[|ms| - 1]])[..|init|] == init;
      }
    }
  }

  lemma StoredExactly(st: Settings, uid: int)
    ensures StoredMode(st, uid) == StoredText(st, uid)
  {
    KeyExactly(uid);
  }

  // ---- what is chosen ------------------------------------------------------------------------------

  /** The client's selection can be used. */
  predicate Selected(c: Control, e: Env) {
    c.selectedMode.Some? && Exists(e.settings, c.selectedMode.value) && MayUse(e.settings, c.selectedMode.value, e.user)
  }

  /** The user whose default mode counts; root while no user is known. */
  function DefaultUser(e: Env): int {
    if e.user == 0xFFFF_FFFF then 0 else e.user
  }

  /** Can the stored default mode be used? */
  predicate DefaultUsable(st: Settings, uid: int) {
    var stored := StoredText(st, uid);
    stored.None? ||
    (var m := ModeFromName(stored.value); m == Ask || (Exists(st, m) && MayUse(st, m, uid)))
  }

  function DefaultMode(st: Settings, uid: int): Mode {
    if StoredText(st, uid).None? then Charging
    else if DefaultUsable(st, uid) then ModeFromName(StoredText(st, uid).value)
    else Ask
  }

  /** What the client selected, if usable, or else the default mode. */
  function Choice(c: Control, e: Env): Mode {
    if Selected(c, e) then c.selectedMode.value else DefaultMode(e.settings, DefaultUser(e))
  }

  /** What comes of a choice on an unlocked device. */
  function Granted(choice: Mode, c: Control, e: Env): Mode {
    var m := if choice != Ask then choice
             else if e.user == 0xFFFF_FFFF then ChargingFallback
             else if exists o :: o in e.settings.modelist && Offered(e.settings, o, e.user) then Ask
             else Charging;
    if !MayUse(e.settings, m, e.user) then ChargingFallback
    else if c.userForMode != e.user && c.internalMode == Some(m) && !(m in {Undefined, DedicatedCharger, ChargingFallback, Charging})
    then ChargingFallback
    else m
  }

  /** Connected to a pc, and nothing overrides what users want: no rescue, diagnosis, booting or shutdown. */
  predicate UsersDecide(c: Control, e: Env) {
    && c.enabled && c.cable == PcConnected
    && !((e.rescue || c.inRescue) && c.selectedMode.None?)
    && !e.diag && e.initDone && !e.shutdown
  }

  predicate Unlocked(c: Control, e: Env) {
    !c.pendingUserChange && ((e.usermode && e.unlocked) || e.rescue)
  }

  lemma UsersDecideExactly(c: Control, e: Env)
    ensures ReadsSettings(c, e) <==> UsersDecide(c, e)
  {
  }

  lemma DefaultExactly(st: Settings, uid: int)
    ensures ModeSetting(st, uid) == DefaultMode(st, uid)
    ensures StoredModeUsable(st, uid) <==> DefaultUsable(st, uid)
  {
    StoredExactly(st, uid);
    if StoredText(st, uid).Some? {
      var m := ModeFromName(StoredText(st, uid).value);
      ValidExactly(st, m);
      PermittedExactly(st, m, uid);
    }
  }

  lemma ChoiceExactly(c: Control, e: Env)
    ensures Preferred(c, e) == Choice(c, e)
    ensures SelectionUsable(c, e) <==> Selected(c, e)
  {
    if c.selectedMode.Some? {
      ValidExactly(e.settings, c.selectedMode.value);
      PermittedExactly(e.settings, c.selectedMode.value, e.user);
    }
    DefaultExactly(e.settings, DefaultUser(e));
  }

  /** Looking up the default mode writes at most that one setting: "ask", for a default that can not be used, if
      the user may be asked. */
  lemma LookupExactly(c: Control, e: Env)
    ensures var uid := DefaultUser(e);
            EnvAfter(c, e) ==
            if UsersDecide(c, e) && !Selected(c, e) && !DefaultUsable(e.settings, uid) && MayUse(e.settings, Ask, uid) && e.settings.writable
            then e.(settings := e.settings.(view := e.settings.view[("usbmode", ModeKey(uid)) := "ask"]))
            else e
  {
    UsersDecideExactly(c, e);
    ChoiceExactly(c, e);
    DefaultExactly(e.settings, DefaultUser(e));
    PermittedExactly(e.settings, Ask, DefaultUser(e));
    KeyExactly(DefaultUser(e));
  }

  lemma KeysApart(uid: int)
    ensures ModeKey(uid) != "hide" && ModeKey(uid) != "whitelist" && "mode_group" != "usbmode"
  {
    assert ModeKey(uid)[0] == 'm' && "hide"[0] == 'h' && "whitelist"[0] == 'w';
    assert "mode_group"[0] != "usbmode"[0];
  }

  lemma TextsApart(st: Settings, key: string, text: string, grp: string, k: string)
    requires (grp, k) != ("usbmode", key)
    ensures Text(st.(view := st.view[("usbmode", key) := text]), grp, k) == Text(st, grp, k)
  {
  }

  lemma SameRights(st: Settings, uid: int, m: Mode, user: int)
    ensures var now := st.(view := st.view[("usbmode", ModeKey(uid)) := "ask"]);
            (MayUse(now, m, user) <==> MayUse(st, m, user)) && (Offered(now, m, user) <==> Offered(st, m, user))
  {
    KeysApart(uid);
    TextsApart(st, ModeKey(uid), "ask", "mode_group", ModeName(m));
    TextsApart(st, ModeKey(uid), "ask", "usbmode", "hide");
    TextsApart(st, ModeKey(uid), "ask", "usbmode", "whitelist");
  }

  /** That write does not change who may use what. */
  lemma SameAfterLookup(c: Control, e: Env, m: Mode, uid: int)
    ensures var e1 := EnvAfterLookup(c, e);
            && e1 == e.(settings := e1.settings) && e1.settings.modelist == e.settings.modelist && e1.settings.groups == e.settings.groups
            && (MayUse(e1.settings, m, uid) <==> MayUse(e.settings, m, uid))
            && (Offered(e1.settings, m, uid) <==> Offered(e.settings, m, uid))
  {
    KeyExactly(SettingUid(e));
    SameRights(e.settings, SettingUid(e), m, uid);
  }

  lemma PromptedExactly(m: Mode, c: Control, e: Env)
    ensures Prompted(m, EnvAfterLookup(c, e)) ==
            if m != Ask then m
            else if e.user == 0xFFFF_FFFF then ChargingFallback
            else if exists o :: o in e.settings.modelist && Offered(e.settings, o, e.user) then Ask
            else Charging
  {
    var e1 := EnvAfterLookup(c, e);
    SameAfterLookup(c, e, Ask, e.user);
    if o :| o in e.settings.modelist && Offered(e.settings, o, e.user) {
      SameAfterLookup(c, e, o, e.user);
      ListedExactly(e1.settings, o, e.user);
    } else if |AvailableModes(e1.settings, e.user)| > 0 {
      var o := AvailableModes(e1.settings, e.user)[0];
      ListedExactly(e1.settings, o, e.user);
      SameAfterLookup(c, e, o, e.user);
    }
  }

  lemma GrantedExactly(c: Control, e: Env)
    ensures var e1 := EnvAfterLookup(c, e);
            OwnerChecked(Allowed(Prompted(Preferred(c, e), e1), e1), c, e1) == Granted(Choice(c, e), c, e)
  {
    var e1 := EnvAfterLookup(c, e);
    ChoiceExactly(c, e);
    PromptedExactly(Choice(c, e), c, e);
    var m := Prompted(Choice(c, e), e1);
    PermittedExactly(e1.settings, m, e.user);
    SameAfterLookup(c, e, m, e.user);
  }

  /** On an unlocked device the decision is the choice as granted... */
  lemma UnlockedDecision(c: Control, e: Env)
    requires UsersDecide(c, e) && Unlocked(c, e)
    ensures !Retains(c, e) && Wanted(c, e) == Granted(Choice(c, e), c, e)
  {
    UsersDecideExactly(c, e);
    GrantedExactly(c, e);
    SameAfterLookup(c, e, Ask, e.user);
  }

  /** ...and on a locked one, or right after a change of user, as far as that is a mode that exposes nothing, or the
      current one; not asking. */
  lemma LockedDecisionExactly(c: Control, e: Env)
    requires UsersDecide(c, e) && !Unlocked(c, e)
    ensures !Retains(c, e)
    ensures var m := Granted(Choice(c, e), c, e);
            Wanted(c, e) ==
            if m in {Undefined, DedicatedCharger, ChargingFallback, Charging} || (m != Ask && c.internalMode == Some(m))
            then m else ChargingFallback
  {
    UsersDecideExactly(c, e);
    GrantedExactly(c, e);
    SameAfterLookup(c, e, Ask, e.user);
  }

  /** A mode that may be used is entered when a client selects it. */
  lemma SelectionIsObeyed(c: Control, e: Env, m: Mode)
    requires UsersDecide(c, e) && Unlocked(c, e) && c.selectedMode == Some(m) && m != Ask
    requires c.internalMode == Some(m) ==> c.userForMode == e.user
    ensures Exists(e.settings, m) && MayUse(e.settings, m, e.user) ==> Wanted(c, e) == m
  {
    UnlockedDecision(c, e);
  }

  /** Exactly when a dynamic mode is decided on while the device is unlocked. */
  lemma DynamicExactly(c: Control, e: Env, m: Mode)
    requires UsersDecide(c, e) && Unlocked(c, e)
    requires m !in {Undefined, DedicatedCharger, ChargingFallback, Charging, Ask}
    ensures Wanted(c, e) == m <==>
            && Choice(c, e) == m && MayUse(e.settings, m, e.user)
            && (c.internalMode == Some(m) ==> c.userForMode == e.user)
  {
    UnlockedDecision(c, e);
  }

  /** Exactly when the user is asked. */
  lemma AskExactly(c: Control, e: Env)
    requires UsersDecide(c, e)
    ensures Wanted(c, e) == Ask <==>
            && Unlocked(c, e) && Choice(c, e) == Ask && e.user != 0xFFFF_FFFF && MayUse(e.settings, Ask, e.user)
            && (exists o :: o in e.settings.modelist && Offered(e.settings, o, e.user))
            && (c.internalMode == Some(Ask) ==> c.userForMode == e.user)
  {
    if Unlocked(c, e) {
      UnlockedDecision(c, e);
    } else {
      LockedDecisionExactly(c, e);
    }
  }

  /** What overrides the users, highest priority first; what is left is decided by them. */
  lemma Priorities(c: Control, e: Env)
    ensures var rescue := (e.rescue || c.inRescue) && c.selectedMode.None?;
            if !c.enabled then Retains(c, e)
            else if c.cable == ChargerConnected then !Retains(c, e) && Wanted(c, e) == DedicatedCharger
            else if c.cable != PcConnected then !Retains(c, e) && Wanted(c, e) == Undefined
            else if rescue then !Retains(c, e) && Wanted(c, e) == Developer
            else if e.diag then !Retains(c, e) && Wanted(c, e) == (if e.settings.modelist == [] then ChargingFallback else e.settings.modelist[0])
            else if !e.initDone then !Retains(c, e) && Wanted(c, e) == ChargingFallback
            else if e.shutdown then Retains(c, e)
            else !Retains(c, e) && UsersDecide(c, e)
  {
  }

  /** What else a decision changes in the control state: without a pc the selection and rescue mode are over, with
      one rescue mode lasts until something is selected. */
  lemma Bookkeeping(c: Control, e: Env)
    ensures ControlAfter(c, e) ==
            if !c.enabled then c
            else if c.cable != PcConnected then c.(selectedMode := None, inRescue := false)
            else c.(inRescue := (e.rescue || c.inRescue) && c.selectedMode.None?)
  {
  }
}
