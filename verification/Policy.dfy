/** Which mode the daemon wants: the decision taken by control_rethink_usb_mode, as a function of the
    control state and of everything it reads (src/usb_moded-control.c, -common.c, usb_moded.c, -config.c). */
module Policy {
  import opened Basics
  import opened Modes
  import opened Tokens
  import KeyStore
  import Config
  import UserKeys

  /** Configuration as the main thread sees it: the mode list, which (uid, group) pairs hold, and the settings. */
  datatype Settings = Settings(modelist: seq<Mode>, groups: set<(int, string)>, view: KeyStore.View, writable: bool)

  /** What the control code reads but does not own. */
  datatype Env = Env(user: int, usermode: bool, unlocked: bool, shutdown: bool, initDone: bool,
                     rescue: bool, diag: bool, settings: Settings)

  /** The static variables of src/usb_moded-control.c. */
  datatype Control = Control(internalMode: Option<Mode>, targetMode: Option<Mode>, externalMode: Option<Mode>,
                             selectedMode: Option<Mode>, userForMode: int, cable: CableState,
                             pendingUserChange: bool, inRescue: bool, enabled: bool)

  predicate CanExport(e: Env) {
    (e.usermode && e.unlocked) || e.rescue
  }

  function ListSetting(st: Settings, key: string): Option<seq<string>> {
    match KeyStore.Find(st.view, Config.MODE_SETTING_ENTRY, key)
    case Some(text) => Some(Split(text))
    case None => None
  }

  function Whitelist(st: Settings): Option<seq<string>> { ListSetting(st, Config.MODE_WHITELIST_KEY) }

  function Hidden(st: Settings): Option<seq<string>> { ListSetting(st, Config.MODE_HIDE_KEY) }

  /** common_valid_mode, as a yes/no answer. */
  predicate ValidMode(st: Settings, m: Mode) {
    m.Charging? || (m in st.modelist && (Whitelist(st).None? || ModeName(m) in Whitelist(st).value))
  }

  function GroupForMode(st: Settings, m: Mode): string {
    KeyStore.Find(st.view, "mode_group", ModeName(m)).GetOr("sailfish-system")
  }

  /** usbmoded_is_mode_permitted. */
  predicate Permitted(st: Settings, m: Mode, uid: int) {
    uid == 0 || (uid != UID_UNKNOWN && (m in st.modelist ==> (uid, GroupForMode(st, m)) in st.groups))
  }

  /** The user whose settings apply. */
  function SettingUid(e: Env): int {
    if e.user == UID_UNKNOWN then 0 else e.user
  }

  function StoredMode(st: Settings, uid: int): Option<string> {
    UserKeys.UserSetting(st.view, Config.MODE_SETTING_ENTRY, Config.MODE_SETTING_KEY, uid)
  }

  predicate StoredModeUsable(st: Settings, uid: int) {
    match StoredMode(st, uid)
    case None => true
    case Some(name) =>
      var m := ModeFromName(name);
      m.Ask? || (ValidMode(st, m) && Permitted(st, m, uid))
  }

  /** config_get_mode_setting: the configured default mode... */
  function ModeSetting(st: Settings, uid: int): Mode {
    if !StoredModeUsable(st, uid) then Ask
    else match StoredMode(st, uid) case None => Charging case Some(name) => ModeFromName(name)
  }

  /** ...which is reset to "ask", also on disk, once it can not be used. */
  function SettingsAfterLookup(st: Settings, uid: int): Settings {
    if StoredModeUsable(st, uid) || !Permitted(st, Ask, uid) || !st.writable then st
    else st.(view := st.view[(Config.MODE_SETTING_ENTRY, UserKeys.KeyFor(Config.MODE_SETTING_KEY, uid)) := Config.MODE_ASK])
  }

  /** Lists of modes as told to clients. */
  datatype ListType = SupportedList | AvailableList

  predicate IsHidden(st: Settings, m: Mode) {
    Hidden(st).Some? && ModeName(m) in Hidden(st).value
  }

  predicate IsWhitelisted(st: Settings, m: Mode) {
    Whitelist(st).None? || ModeName(m) in Whitelist(st).value
  }

  predicate Listed(st: Settings, m: Mode, uid: int, t: ListType) {
    Permitted(st, m, uid) && !IsHidden(st, m) && (t.AvailableList? ==> IsWhitelisted(st, m))
  }

  predicate Available(st: Settings, m: Mode, uid: int) { Listed(st, m, uid, AvailableList) }

  function ListedModes(st: Settings, ms: seq<Mode>, uid: int, t: ListType): (r: seq<Mode>)
    ensures forall m :: m in r <==> m in ms && Listed(st, m, uid, t)
  {
    if |ms| == 0 then []
    else
      var init := ListedModes(st, ms[..|ms| - 1], uid, t);
      if Listed(st, ms[|ms| - 1], uid, t) then init + [ms[|ms| - 1]] else init
  }

  function AvailableModes(st: Settings, uid: int): seq<Mode> {
    ListedModes(st, st.modelist, uid, AvailableList)
  }

  predicate SelectionUsable(c: Control, e: Env) {
    c.selectedMode.Some? && ValidMode(e.settings, c.selectedMode.value) && Permitted(e.settings, c.selectedMode.value, e.user)
  }

  /** What the client asked for, else what is configured. */
  function Preferred(c: Control, e: Env): Mode {
    if SelectionUsable(c, e) then c.selectedMode.value else ModeSetting(e.settings, SettingUid(e))
  }

  function EnvAfterLookup(c: Control, e: Env): Env {
    if SelectionUsable(c, e) then e else e.(settings := SettingsAfterLookup(e.settings, SettingUid(e)))
  }

  /** Asking the user makes sense only with a user, and with something to choose from. */
  function Prompted(m: Mode, e: Env): Mode {
    if !m.Ask? then m
    else if e.user == UID_UNKNOWN then ChargingFallback
    else if AvailableModes(e.settings, e.user) == [] then Charging
    else Ask
  }

  function Allowed(m: Mode, e: Env): Mode {
    if m.ChargingFallback? || Permitted(e.settings, m, e.user) then m else ChargingFallback
  }

  /** A dynamic mode is not handed over from one user to the next. */
  function OwnerChecked(m: Mode, c: Control, e: Env): Mode {
    if c.userForMode != e.user && c.internalMode == Some(m) && !IsStatic(m) then ChargingFallback else m
  }

  /** While the device is locked a dynamic mode may be kept, but not entered. */
  function LockChecked(m: Mode, c: Control, e: Env): Mode {
    if !(c.pendingUserChange || !CanExport(e)) then m
    else if m.Ask? then ChargingFallback
    else if c.internalMode != Some(m) && !IsStatic(m) then ChargingFallback
    else m
  }

  function Filtered(c: Control, e: Env): Mode {
    var e1 := EnvAfterLookup(c, e);
    LockChecked(OwnerChecked(Allowed(Prompted(Preferred(c, e), e1), e1), c, e1), c, e1)
  }

  predicate InRescue(c: Control, e: Env) {
    (e.rescue || c.inRescue) && c.selectedMode.None?
  }

  /** The situations in which re-evaluation leaves the current mode alone. */
  predicate Retains(c: Control, e: Env) {
    !c.enabled || (c.cable.PcConnected? && !InRescue(c, e) && !e.diag && e.initDone && e.shutdown)
  }

  /** The mode to enter, highest priority first. */
  function Wanted(c: Control, e: Env): Mode
    requires !Retains(c, e)
  {
    if c.cable.ChargerConnected? then DedicatedCharger
    else if !c.cable.PcConnected? then Undefined
    else if InRescue(c, e) then Developer
    else if e.diag then if e.settings.modelist == [] then ChargingFallback else e.settings.modelist[0]
    else if !e.initDone then ChargingFallback
    else Filtered(c, e)
  }

  predicate ReadsSettings(c: Control, e: Env) {
    !Retains(c, e) && c.cable.PcConnected? && !InRescue(c, e) && !e.diag && e.initDone
  }

  function EnvAfter(c: Control, e: Env): Env {
    if ReadsSettings(c, e) then EnvAfterLookup(c, e) else e
  }

  /** Bookkeeping done on the way to the decision. */
  function ControlAfter(c: Control, e: Env): Control {
    if !c.enabled then c
    else if !c.cable.PcConnected? then c.(selectedMode := None, inRescue := false)
    else c.(inRescue := InRescue(c, e))
  }

  /** Without a known user every connection to a pc ends in fallback charging: nobody is permitted anything.
      (The comment at src/usb_moded-control.c:716-720 promises the global default mode instead.) */
  lemma UnknownUserGetsFallback(c: Control, e: Env)
    requires ReadsSettings(c, e) && e.user == UID_UNKNOWN
    ensures Wanted(c, e) == ChargingFallback
  {
    assert !Permitted(e.settings, Preferred(c, e), e.user);
  }

  /** While exporting data is not allowed, re-evaluation never picks a mode that is not static,
      unless it is the current one. */
  lemma LockedDecision(c: Control, e: Env)
    requires ReadsSettings(c, e) && (!CanExport(e) || c.pendingUserChange)
    ensures IsStatic(Wanted(c, e)) || (c.internalMode == Some(Wanted(c, e)) && Wanted(c, e) != Ask)
  {
  }

  /** The exact reach of the retention rule: a non-static current mode stays while the device is locked
      if and only if the same user still prefers it and is still permitted to use it. */
  lemma KeptWhileLocked(c: Control, e: Env, m: Mode)
    requires ReadsSettings(c, e) && !CanExport(e)
    requires c.internalMode == Some(m) && !IsStatic(m)
    ensures Wanted(c, e) == m <==>
            m != Ask && c.userForMode == e.user && Preferred(c, e) == m && Permitted(EnvAfterLookup(c, e).settings, m, e.user)
  {
  }

  /** A mode that is taken off the whitelist is not decided on any more: not even kept while locked. */
  lemma InvalidModeIsLeft(c: Control, e: Env, m: Mode)
    requires ReadsSettings(c, e) && !ValidMode(e.settings, m) && !IsStatic(m) && !m.Ask?
    ensures Wanted(c, e) != m
  {
    assert Preferred(c, e) != m;
  }

  /** A decision never invents a mode: static, asking, developer (rescue), or one the configuration lists. */
  lemma WantedIsKnown(c: Control, e: Env)
    requires !Retains(c, e)
    ensures var m := Wanted(c, e); IsStatic(m) || m.Ask? || m.Developer? || m in e.settings.modelist
  {
  }
}
