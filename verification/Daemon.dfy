/** The code of the two threads, written as the source writes it, and shown to take the steps of the
    protocol: a main loop event and a worker iteration each amount to a run of the step system. */
module Daemon {
  import opened Basics
  import opened Modes
  import opened Policy
  import opened Protocol
  import opened ProtocolInvariant
  import Config
  import UserKeys
  import ModeLists
  import Tokens

  /** How the hardware takes a switch: the calls made before a wait, the naps until a daemon is ready, the calls
      made after the wait, and charging. */
  datatype Hardware = Hardware(accepts: bool, readyAfter: nat, completes: bool, charges: bool)

  function OkAt(w: WorkerPc, h: Hardware): bool {
    match w
    case Entering(_) => h.accepts
    case Awaiting(_, naps) => WAIT_NAPS - naps >= h.readyAfter
    case Completing(_) => h.completes
    case _ => h.charges
  }

  /** A request handed to the worker without the worker getting in between. */
  function Handed(s: State): State {
    if !s.main.Storing? then s
    else
      var s1 := MainNext(s);
      if s1.main.Idle? then s1 else MainNext(MainNext(s1))
  }

  function HandSteps(s: State): seq<Step> {
    if !s.main.Storing? then []
    else if MainNext(s).main.Idle? then [MainStep]
    else [MainStep, MainStep, MainStep]
  }

  /** The worker thread running on its own until it waits again. */
  function Iterated(s: State, h: Hardware): State
    decreases WorkerWork(s.worker)
  {
    if s.worker.Waiting? then s
    else Iterated(WorkerNext(s, OkAt(s.worker, h)), h)
  }

  function IterationSteps(s: State, h: Hardware): seq<Step>
    decreases WorkerWork(s.worker)
  {
    if s.worker.Waiting? then []
    else
      var ok := OkAt(s.worker, h);
      [WorkerStep(ok)] + IterationSteps(WorkerNext(s, ok), h)
  }

  lemma HandIsRun(s: State)
    ensures IsRun(s, HandSteps(s)) && After(s, HandSteps(s)) == Handed(s)
  {
    if s.main.Storing? {
      var s1 := MainNext(s);
      assert Take(s, MainStep) == s1;
      assert [MainStep][1..] == [];
      if !s1.main.Idle? {
        assert HandSteps(s)[1..] == [MainStep, MainStep];
        assert HandSteps(s)[1..][1..] == [MainStep];
        assert HandSteps(s)[1..][1..][1..] == [];
        var s2 := MainNext(s1);
        assert Take(s1, MainStep) == s2 && Take(s2, MainStep) == MainNext(s2);
        assert After(s2, [MainStep]) == MainNext(s2);
      }
    }
  }

  /** A whole main loop event is a run... */
  lemma EventIsRun(s: State, ev: Event)
    requires s.main.Idle? && Possible(s, ev)
    ensures var steps := [Happen(ev)] + HandSteps(Handle(s, ev));
            IsRun(s, steps) && After(s, steps) == Handed(Handle(s, ev))
  {
    HandIsRun(Handle(s, ev));
    var rest := HandSteps(Handle(s, ev));
    assert ([Happen(ev)] + rest)[1..] == rest;
  }

  /** ...and so is a whole worker iteration. */
  lemma {:induction false} IterationIsRun(s: State, h: Hardware)
    requires !MainHoldsLock(s)
    ensures var steps := IterationSteps(s, h);
            IsRun(s, steps) && After(s, steps) == Iterated(s, h)
    decreases WorkerWork(s.worker)
  {
    if !s.worker.Waiting? {
      var ok := OkAt(s.worker, h);
      IterationIsRun(WorkerNext(s, ok), h);
      var rest := IterationSteps(WorkerNext(s, ok), h);
      assert ([WorkerStep(ok)] + rest)[1..] == rest;
    }
  }

  /** So everything proved of runs holds of the code: whole events and whole worker rounds keep the invariant,
      and a daemon whose worker has nothing queued after a round and whose replies are taken is settled. */
  lemma EventKeepsInv(s: State, ev: Event)
    requires Inv(s) && s.main.Idle? && Possible(s, ev)
    ensures Inv(Handed(Handle(s, ev))) && Handed(Handle(s, ev)).main.Idle?
  {
    EventIsRun(s, ev);
    RunKeepsInv(s, [Happen(ev)] + HandSteps(Handle(s, ev)));
  }

  lemma {:induction false} RoundEnds(s: State, h: Hardware)
    requires s.main.Idle? && s.shared.wakeups == 0 && !s.worker.Waiting?
    ensures var r := Iterated(s, h);
            r.main.Idle? && r.worker.Waiting? && r.shared.wakeups == 0 && r.shared.replies > 0
    decreases WorkerWork(s.worker)
  {
    var r := WorkerNext(s, OkAt(s.worker, h));
    if !r.worker.Waiting? {
      RoundEnds(r, h);
    }
  }

  lemma RoundKeepsInv(s: State, h: Hardware)
    requires Inv(s) && s.main.Idle? && s.worker.Waiting? && s.shared.wakeups > 0
    ensures var r := Iterated(WorkerNext(s, true), h);
            Inv(r) && r.main.Idle? && r.worker.Waiting? && r.shared.wakeups == 0 && r.shared.replies > 0
  {
    WorkerKeepsInv(s, true);
    var t := WorkerNext(s, true);
    IterationIsRun(t, h);
    RunKeepsInv(t, IterationSteps(t, h));
    RoundEnds(t, h);
  }

  // ---- reading the configuration -------------------------------------------------------------------

  /** "a, b, charging_only" */
  function Render(ms: seq<Mode>): string {
    if |ms| == 0 then "" else Render(ms[..|ms| - 1]) + ModeName(ms[|ms| - 1]) + ", "
  }

  lemma {:induction false} RenderHasComma(ms: seq<Mode>)
    ensures ',' in Render(ms) <==> ms != []
  {
    if |ms| > 0 {
      var s := Render(ms);
      assert s[|s| - 2] == ',';
    }
  }

  /** Cut at its commas, a rendered list with one more name behind it gives all the names in order, each but the first
      behind a space. */
  lemma {:induction false} RenderedFields(ms: seq<Mode>, last: string)
    requires Tokens.CommaFree(last) && forall m :: m in ms ==> Tokens.CommaFree(ModeName(m))
    ensures var fs := Tokens.Fields(Render(ms) + last);
            && |fs| == |ms| + 1
            && forall i :: 0 <= i <= |ms| ==> fs[i] == (if i == 0 then "" else " ") + (if i == |ms| then last else ModeName(ms[i]))
  {
    if |ms| == 0 {
      assert Render(ms) + last == last == "" + last;
      Tokens.FieldsOfCommaFree(last);
    } else {
      var init, name := ms[..|ms| - 1], ModeName(ms[|ms| - 1]);
      RenderedFields(init, name);
      Tokens.FieldsOfConcat(Render(init) + name, " " + last);
      Tokens.FieldsOfCommaFree(" " + last);
      assert Render(ms) + last == Render(init) + name + "," + (" " + last);
    }
  }

  method GetModeList(e: Env, uid: int, t: ListType) returns (list: string)
    ensures list == if e.diag then ModeName(Diag)
                    else Render(ListedModes(e.settings, e.settings.modelist, uid, t)) + ModeName(Charging)
  {
    if e.diag {
      return ModeName(Diag);
    }
    list := "";
    var st := e.settings;
    var hidden := Hidden(st);
    var whitelist := if t.AvailableList? then Whitelist(st) else None;
    ghost var listed: seq<Mode> := [];
    for i := 0 to |st.modelist|
      invariant listed == ListedModes(st, st.modelist[..i], uid, t)
      invariant list == Render(listed)
    {
      assert st.modelist[..i + 1][..i] == st.modelist[..i];
      var mode := st.modelist[i];
      if !Permitted(st, mode, uid) {
        continue;
      }
      var isHidden := ModeLists.ModeInList(ModeName(mode), hidden);
      if isHidden {
        continue;
      }
      var isListed := ModeLists.ModeInList(ModeName(mode), whitelist);
      if whitelist.Some? && !isListed {
        continue;
      }
      list := list + ModeName(mode) + ", ";
      listed := listed + [mode];
      assert listed[..|listed| - 1] == ListedModes(st, st.modelist[..i], uid, t);
    }
    assert st.modelist[..|st.modelist|] == st.modelist;
    list := list + ModeName(Charging);
  }

  lemma ChargingByName()
    ensures ModeFromName(ModeName(Charging)) == Charging
    ensures ',' !in ModeName(Charging)
  {
    var n := ModeName(Charging);
    assert ModeFromNameAt(n, 5) == Charging;
    assert |ModeName(Ask)| != |n| && |ModeName(ChargingFallback)| != |n| && |ModeName(DedicatedCharger)| != |n|;
    assert |ModeName(Busy)| != |n| && |ModeName(Undefined)| != |n|;
    assert ModeFromNameAt(n, 4) == Charging;
    assert ModeFromNameAt(n, 3) == Charging;
    assert ModeFromNameAt(n, 2) == Charging;
    assert ModeFromNameAt(n, 1) == Charging;
  }

  /** Asking among a single possibility: that possibility is always plain charging. */
  lemma SingleChoiceIsCharging(st: Settings, uid: int)
    ensures var list := Render(AvailableModes(st, uid)) + ModeName(Charging);
            && (',' in list <==> AvailableModes(st, uid) != [])
            && (',' !in list ==> ModeFromName(list) == Charging)
            && list != ""
  {
    var ms := AvailableModes(st, uid);
    RenderHasComma(ms);
    ChargingByName();
    if ms == [] {
      assert Render(ms) + ModeName(Charging) == ModeName(Charging);
    }
  }

  lemma HandOverKeepsSelection(s: State, m: Mode)
    ensures Handed(ForgetSelection(s, m)) == ForgetSelection(Handed(s), m)
  {
  }

  lemma FilterIgnoresRescue(c: Control, d: Control, e: Env)
    requires d == c.(inRescue := false)
    ensures Filtered(c, e) == Filtered(d, e) && EnvAfterLookup(c, e) == EnvAfterLookup(d, e)
  {
    assert Preferred(c, e) == Preferred(d, e);
  }

  // ---- the daemon ----------------------------------------------------------------------------------

  class ModeSwitch {
    // src/usb_moded-control.c
    var internalMode: Option<Mode>
    var targetMode: Option<Mode>
    var externalMode: Option<Mode>
    var selectedMode: Option<Mode>
    var userForMode: int
    var cableState: CableState
    var pendingUserChange: bool
    var inRescueMode: bool
    var isEnabled: bool
    // what other modules tell it
    var env: Env
    // src/usb_moded-worker.c
    var requestedMode: Option<Mode>
    var activatedMode: Option<Mode>
    var wakeups: nat
    var replies: nat
    var bailoutRequested: bool
    var bailoutHandled: bool
    var modeData: Option<Mode>
    // where the threads are, and what happened so far
    ghost var main: MainPc
    ghost var worker: WorkerPc
    ghost var past: History

    ghost function ControlState(): Control
      reads this
    {
      Control(internalMode, targetMode, externalMode, selectedMode, userForMode, cableState, pendingUserChange, inRescueMode, isEnabled)
    }

    ghost function SharedState(): Shared
      reads this
    {
      Shared(requestedMode, activatedMode, wakeups, replies, bailoutRequested, bailoutHandled, modeData)
    }

    ghost function State(): State
      reads this
    {
      Protocol.State(ControlState(), env, main, worker, SharedState(), past)
    }

    constructor (e: Env)
      ensures State() == Initial(e)
    {
      internalMode, targetMode, externalMode, selectedMode := None, None, None, None;
      userForMode, cableState, pendingUserChange, inRescueMode, isEnabled := UID_UNKNOWN, Unknown, false, false, false;
      env := e;
      requestedMode, activatedMode, wakeups, replies := None, None, 0, 0;
      bailoutRequested, bailoutHandled, modeData := false, false, None;
      main, worker, past := Idle, Waiting, INITIAL_HISTORY;
    }

    // ---- worker interface used by the main thread ---------------------------------------------------

    method Wakeup()
      requires main.Flagging?
      modifies this
      ensures State() == MainNext(MainNext(old(State())))
    {
      bailoutRequested := true;
      main, past := Waking(main.mode), past.(flags := past.flags + 1);
      wakeups := wakeups + 1;
      main := Idle;
    }

    method RequestHardwareMode(mode: Mode) returns (scheduled: bool)
      requires main == Storing(mode)
      modifies this
      ensures scheduled <==> old(requestedMode) != Some(mode)
      ensures State() == if scheduled then Handed(old(State())) else old(State())
    {
      scheduled := false;
      if requestedMode == Some(mode) {
        return;
      }
      requestedMode := Some(mode);
      main, past := Flagging(mode), past.(stores := past.stores + 1, overridden := false);
      assert State() == MainNext(old(State()));
      Wakeup();
      scheduled := true;
    }

    // ---- control ------------------------------------------------------------------------------------

    method SetTargetMode(mode: Mode)
      modifies this`targetMode
      ensures targetMode == Some(mode)
    {
      if targetMode != Some(mode) {
        targetMode := Some(mode);
      }
    }

    method SetExternalMode(mode: Mode)
      modifies this`externalMode, this`targetMode
      ensures ControlState() == WithExternal(old(ControlState()), mode)
    {
      if externalMode == Some(mode) {
        return;
      }
      externalMode := Some(mode);
      if !mode.Busy? {
        SetTargetMode(mode);
      }
    }

    method UpdateExternalMode()
      requires internalMode.Some?
      modifies this`externalMode, this`targetMode
      ensures ControlState() == WithExternal(old(ControlState()), ExternalMode(internalMode.value))
    {
      var mode := MapModeToExternal(internalMode.value);
      SetExternalMode(mode);
    }

    method ModeSwitched(mode: Mode)
      modifies this`internalMode, this`externalMode, this`targetMode
      ensures ControlState() == Protocol.ModeSwitched(old(ControlState()), mode)
    {
      if internalMode != Some(mode) {
        internalMode := Some(mode);
      }
      UpdateExternalMode();
    }

    /** Main loop callback for worker replies. */
    method NotifyCb()
      requires main.Idle? && replies > 0
      modifies this
      ensures State() == MainNext(Take(old(State()), Reply))
    {
      replies := 0;
      main := Replying;
      var mode := requestedMode.GetOr(Undefined);
      ModeSwitched(mode);
      main := Idle;
    }

    /** Pass the mode on to the worker; without work to wait for, end the transition at once. */
    method PropagateDown(mode: Mode)
      requires main == Storing(mode) && internalMode == Some(mode)
      modifies this
      ensures State() == Handed(old(State()))
    {
      var scheduled := RequestHardwareMode(mode);
      if !scheduled {
        UpdateExternalMode();
        main := Idle;
        assert State() == MainNext(old(State()));
      }
    }

    /** Announce the transition before propagating it down. */
    method BeginTransition(mode: Mode)
      requires main.Idle?
      modifies this`internalMode, this`targetMode, this`externalMode, this`main, this`past
      ensures State() == old(State()).(control := WithExternal(old(ControlState()).(internalMode := Some(mode), targetMode := Some(mode)), Busy),
                                       past := old(past).(enteredBy := env.user), main := Storing(mode))
    {
      internalMode := Some(mode);
      SetTargetMode(mode);
      SetExternalMode(Busy);
      main, past := Storing(mode), past.(enteredBy := env.user);
    }

    method SetUsbMode(mode: Mode)
      requires main.Idle?
      modifies this
      ensures State() == Handed(SetMode(old(State()), mode))
    {
      userForMode := env.user;
      past := past.(wanted := Some(mode));
      if internalMode == Some(mode) {
        return;
      }
      BeginTransition(mode);
      assert State() == SetMode(old(State()), mode);
      PropagateDown(mode);
    }

    /** config_get_mode_setting, resetting an unusable setting on disk as it goes. */
    method GetModeSetting(uid: int) returns (mode: Mode)
      modifies this`env
      ensures mode == ModeSetting(old(env).settings, uid)
      ensures env == old(env).(settings := SettingsAfterLookup(old(env).settings, uid))
    {
      var st := env.settings;
      var stored := UserKeys.UserSetting(st.view, Config.MODE_SETTING_ENTRY, Config.MODE_SETTING_KEY, uid);
      if stored.None? {
        return Charging;
      }
      mode := ModeFromName(stored.value);
      if !mode.Ask? && (!ValidMode(st, mode) || !Permitted(st, mode, uid)) {
        mode := Ask;
        if Permitted(st, Ask, uid) && st.writable {
          var key := UserKeys.KeyFor(Config.MODE_SETTING_KEY, uid);
          env := env.(settings := st.(view := st.view[(Config.MODE_SETTING_ENTRY, key) := Config.MODE_ASK]));
        }
      }
    }

    /** What the client selected, else what is configured. */
    method PreferredMode() returns (mode: Mode)
      modifies this`env
      ensures mode == Preferred(ControlState(), old(env))
      ensures env == EnvAfterLookup(ControlState(), old(env))
    {
      var modeToUse := selectedMode;
      if modeToUse.Some? {
        if !ValidMode(env.settings, modeToUse.value) {
          modeToUse := None;
        } else if !Permitted(env.settings, modeToUse.value, env.user) {
          modeToUse := None;
        }
      }
      if modeToUse.None? {
        mode := GetModeSetting(if env.user == UID_UNKNOWN then 0 else env.user);
      } else {
        mode := modeToUse.value;
      }
    }

    method PromptedMode(chosen: Mode) returns (mode: Mode)
      requires !env.diag
      ensures mode == Prompted(chosen, env)
    {
      mode := chosen;
      if mode.Ask? {
        if env.user == UID_UNKNOWN {
          mode := ChargingFallback;
        } else {
          var available := GetModeList(env, env.user, AvailableList);
          SingleChoiceIsCharging(env.settings, env.user);
          if available != "" && ',' !in available {
            mode := ModeFromName(available);
          }
        }
      }
    }

    method FilteredMode(chosen: Mode) returns (mode: Mode)
      ensures mode == LockChecked(OwnerChecked(Allowed(chosen, env), ControlState(), env), ControlState(), env)
    {
      mode := chosen;
      if mode.ChargingFallback? {
      } else if !Permitted(env.settings, mode, env.user) {
        mode := ChargingFallback;
      }
      if userForMode != env.user {
        if internalMode == Some(mode) {
          if !IsStatic(mode) {
            mode := ChargingFallback;
          }
        }
      }
      if pendingUserChange || !CanExport(env) {
        if mode.Ask? {
          mode := ChargingFallback;
        } else if internalMode != Some(mode) {
          if !IsStatic(mode) {
            mode := ChargingFallback;
          }
        }
      }
    }

    /** The decision itself; None when the current mode is to be left alone. */
    method DecideMode() returns (modeToUse: Option<Mode>)
      modifies this`selectedMode, this`inRescueMode, this`env
      ensures modeToUse == if Retains(old(ControlState()), old(env)) then None else Some(Wanted(old(ControlState()), old(env)))
      ensures ControlState() == ControlAfter(old(ControlState()), old(env))
      ensures env == EnvAfter(old(ControlState()), old(env))
    {
      modeToUse := None;
      if !isEnabled {
        return;
      }
      if !cableState.PcConnected? {
        selectedMode := None;
        inRescueMode := false;
        return Some(if cableState.ChargerConnected? then DedicatedCharger else Undefined);
      }
      if env.rescue || inRescueMode {
        if selectedMode.None? {
          inRescueMode := true;
          return Some(Developer);
        }
      }
      inRescueMode := false;
      if env.diag {
        return Some(if |env.settings.modelist| == 0 then ChargingFallback else env.settings.modelist[0]);
      }
      if !env.initDone {
        return Some(ChargingFallback);
      }
      if env.shutdown {
        return;
      }
      ghost var c := ControlState();
      ghost var e := env;
      var mode := PreferredMode();
      mode := PromptedMode(mode);
      mode := FilteredMode(mode);
      FilterIgnoresRescue(old(ControlState()), c, e);
      modeToUse := Some(mode);
    }

    /** control_rethink_usb_mode. */
    method RethinkUsbMode()
      requires main.Idle?
      modifies this
      ensures State() == Handed(Rethink(old(State())))
    {
      ghost var s0 := State();
      var modeToUse := DecideMode();
      if modeToUse.None? {
        return;
      }
      ghost var s1 := State();
      assert s1 == s0.(control := ControlAfter(s0.control, s0.env), env := EnvAfter(s0.control, s0.env));
      SetUsbMode(modeToUse.value);
      ghost var s2 := State();
      if selectedMode != modeToUse {
        selectedMode := None;
      }
      assert State() == ForgetSelection(s2, modeToUse.value);
      HandOverKeepsSelection(SetMode(s1, modeToUse.value), modeToUse.value);
    }

    // ---- main loop events ---------------------------------------------------------------------------

    method SelectMode(mode: Mode) returns (accepted: bool)
      requires main.Idle?
      modifies this
      ensures State() == Handed(Handle(old(State()), ModeSelected(mode)))
      ensures accepted <==> internalMode == Some(mode)
    {
      selectedMode := Some(mode);
      RethinkUsbMode();
      accepted := internalMode == Some(mode);
    }

    method UserChanged(uid: int)
      requires main.Idle? && uid != env.user
      modifies this
      ensures State() == Handed(Handle(old(State()), Event.UserChanged(uid)))
    {
      env := env.(user := uid);
      if env.initDone {
        if !pendingUserChange {
          pendingUserChange := true;
        }
      } else {
        pendingUserChange := false;
      }
      selectedMode := None;
      RethinkUsbMode();
    }

    method PendingUserChangeCb()
      requires main.Idle?
      modifies this
      ensures State() == if old(pendingUserChange) then Handed(Handle(old(State()), UserChangeTimeout)) else old(State())
    {
      if pendingUserChange {
        pendingUserChange := false;
        RethinkUsbMode();
      }
    }

    method DeviceLockChanged(unlocked: bool)
      requires main.Idle?
      modifies this
      ensures State() == Handed(Handle(old(State()), LockChanged(unlocked)))
    {
      env := env.(unlocked := unlocked);
      pendingUserChange := false;
      RethinkUsbMode();
    }

    method DeviceStateChanged(usermode: bool, shutdown: bool)
      requires main.Idle?
      modifies this
      ensures State() == Handed(Handle(old(State()), Event.DeviceStateChanged(usermode, shutdown)))
    {
      env := env.(usermode := usermode, shutdown := shutdown);
      RethinkUsbMode();
    }

    method SettingsChanged(settings: Settings)
      requires main.Idle?
      modifies this
      ensures State() == Handed(Handle(old(State()), Event.SettingsChanged(settings)))
    {
      env := env.(settings := settings);
      RethinkUsbMode();
    }

    method SetInitDone(reached: bool)
      requires main.Idle?
      modifies this
      ensures State() == Handed(Handle(old(State()), InitDoneChanged(reached)))
    {
      if env.initDone != reached {
        env := env.(initDone := reached);
        if reached {
          env := env.(rescue := false);
        }
        RethinkUsbMode();
      }
    }

    method SetRescueOff()
      requires main.Idle?
      modifies this`env
      ensures State() == Handed(Handle(old(State()), RescueOff))
    {
      env := env.(rescue := false);
    }

    method SetEnabled()
      requires main.Idle?
      modifies this
      ensures State() == Handed(Handle(old(State()), Enabled))
    {
      if !isEnabled {
        isEnabled := true;
        RethinkUsbMode();
      }
    }

    method SetCableState(cable: CableState)
      requires main.Idle?
      modifies this
      ensures State() == Handed(Handle(old(State()), CableChanged(cable)))
    {
      var prev := cableState;
      cableState := cable;
      if cableState != prev {
        RethinkUsbMode();
      }
    }

    // ---- worker thread ------------------------------------------------------------------------------

    method Notify()
      requires worker.Notifying?
      modifies this`replies, this`worker
      ensures State() == WorkerNext(old(State()), true)
    {
      replies := replies + 1;
      worker := Waiting;
    }

    method Complete(mode: Mode, h: Hardware) returns (entered: bool)
      requires worker == Completing(mode)
      modifies this`worker
      ensures worker == if entered then Committing(mode, None) else Failing(mode)
      ensures Iterated(State(), h) == Iterated(old(State()), h)
    {
      entered := h.completes;
      worker := if h.completes then Committing(mode, None) else Failing(mode);
      assert State() == WorkerNext(old(State()), h.completes);
    }

    predicate IsBailingOut()
      reads this
    {
      bailoutRequested && !bailoutHandled
    }

    /** common_wait: false on running out of time and on bailing out. */
    method AwaitReady(mode: Mode, h: Hardware) returns (ready: bool)
      requires worker == Awaiting(mode, WAIT_NAPS)
      modifies this`worker
      ensures worker == if ready then Completing(mode) else Failing(mode)
      ensures Iterated(State(), h) == Iterated(old(State()), h)
    {
      var naps: Naps := WAIT_NAPS;
      while true
        invariant worker == Awaiting(mode, naps)
        invariant Iterated(State(), h) == Iterated(old(State()), h)
        decreases naps
      {
        ghost var s := State();
        if WAIT_NAPS - naps >= h.readyAfter {
          worker := Completing(mode);
          assert State() == WorkerNext(s, true);
          return true;
        }
        if naps == 0 || IsBailingOut() {
          worker := Failing(mode);
          assert State() == WorkerNext(s, false);
          return false;
        }
        naps := naps - 1;
        worker := Awaiting(mode, naps);
        assert State() == WorkerNext(s, false);
      }
    }

    /** The calls that set up the mode: those before a wait, the wait, and those after it. */
    method SetUp(mode: Mode, h: Hardware) returns (entered: bool)
      requires worker == Entering(mode)
      modifies this`worker
      ensures worker == if entered then Committing(mode, None) else Failing(mode)
      ensures Iterated(State(), h) == Iterated(old(State()), h)
    {
      ghost var s0 := State();
      entered := false;
      if !h.accepts {
        worker := Failing(mode);
        assert State() == WorkerNext(s0, false);
        return;
      }
      worker := Awaiting(mode, WAIT_NAPS);
      assert State() == WorkerNext(s0, true);
      var ready := AwaitReady(mode, h);
      if ready {
        entered := Complete(mode, h);
      }
    }

    /** Policy check, mode data and hardware setup of a dynamic mode. */
    method EnterMode(mode: Mode, h: Hardware) returns (entered: bool)
      requires worker == CheckingPolicy(mode)
      modifies this
      ensures worker == if entered then Committing(mode, None) else Failing(mode)
      ensures Iterated(State(), h) == Iterated(old(State()), h)
    {
      ghost var s0 := State();
      entered := false;
      if !CanExport(env) {
        worker := Failing(mode);
        assert State() == WorkerNext(s0, h.charges);
        return;
      }
      worker := LookingUp(mode);
      ghost var s1 := State();
      assert s1 == WorkerNext(s0, h.charges);
      if mode !in env.settings.modelist {
        worker := Failing(mode);
        assert State() == WorkerNext(s1, h.charges);
        return;
      }
      modeData := Some(mode);
      past := past.(hardware := past.hardware + [DataSet(mode)]);
      worker := Entering(mode);
      ghost var s2 := State();
      assert s2 == WorkerNext(s1, h.charges);
      entered := SetUp(mode, h);
      assert Iterated(s1, h) == Iterated(s2, h);
    }

    method SwitchToCharging(mode: Mode, chosen: Option<Mode>, h: Hardware) returns (override: Option<Mode>)
      requires worker == GoingToCharging(mode, chosen)
      modifies this`worker
      ensures worker == Committing(mode, override)
      ensures Iterated(State(), h) == Iterated(old(State()), h)
    {
      override := chosen;
      if !h.charges {
        override := Some(Undefined);
      }
      worker := Committing(mode, override);
      assert State() == WorkerNext(old(State()), h.charges);
    }

    method LeaveModeData()
      modifies this`modeData, this`past
      ensures State() == LeaveDynamicMode(old(State()))
    {
      if modeData.Some? {
        past := past.(hardware := past.hardware + [Left(modeData.value)]);
        modeData := None;
      }
    }

    /** Undo what a failed switch did, and pick the mode to fall back to. */
    method CleanUpFailure(mode: Mode, h: Hardware) returns (override: Option<Mode>)
      requires worker == Failing(mode)
      modifies this
      ensures worker == GoingToCharging(mode, override) && override.Some?
      ensures Iterated(State(), h) == Iterated(old(State()), h)
    {
      bailoutHandled := true;
      worker := CleaningUp(mode);
      ghost var s1 := State();
      assert s1 == WorkerNext(old(State()), h.charges);
      LeaveModeData();
      worker := Deciding(mode);
      ghost var s2 := State();
      assert s2 == WorkerNext(s1, h.charges);
      var requested := requestedMode.GetOr(Undefined);
      override := Some(if requested.Undefined? then Undefined else Charging);
      worker := GoingToCharging(mode, override);
      assert State() == WorkerNext(s2, h.charges);
      assert Iterated(s1, h) == Iterated(s2, h) == Iterated(State(), h);
    }

    /** Record the outcome of a switch and report it. */
    method Commit(mode: Mode, override: Option<Mode>, h: Hardware)
      requires worker == Committing(mode, override)
      modifies this
      ensures State() == Iterated(old(State()), h)
    {
      if override.Some? {
        requestedMode := override;
        var hardware := MapModeToHardware(override.value);
        activatedMode := Some(hardware);
        past := past.(overridden := true);
      } else {
        activatedMode := Some(mode);
      }
      worker := Notifying;
      ghost var s1 := State();
      assert s1 == WorkerNext(old(State()), h.charges);
      Notify();
      assert State() == WorkerNext(s1, h.charges);
      assert Iterated(s1, h) == Iterated(State(), h);
    }

    /** worker_switch_to_mode. */
    method SwitchToMode(mode: Mode, h: Hardware)
      requires worker == Leaving(mode)
      modifies this
      ensures State() == Iterated(old(State()), h)
    {
      var override: Option<Mode> := None;
      var charge := false;
      ghost var s0 := State();
      LeaveModeData();
      past := past.(hardware := past.hardware + [ListsSwitched]);
      worker := if IsChargingRequest(mode) then GoingToCharging(mode, None) else CheckingPolicy(mode);
      ghost var s1 := State();
      assert s1 == WorkerNext(s0, h.charges);
      assert Iterated(s0, h) == Iterated(s1, h);
      if mode.Charging? || mode.ChargingFallback? || mode.DedicatedCharger? || mode.Undefined? || mode.Ask? {
        charge := true;
      } else {
        var entered := EnterMode(mode, h);
        if !entered {
          override := CleanUpFailure(mode, h);
          charge := true;
        }
      }
      if charge {
        override := SwitchToCharging(mode, override, h);
      }
      Commit(mode, override, h);
    }

    method Execute(h: Hardware)
      requires worker.Snapshotting?
      modifies this
      ensures State() == Iterated(old(State()), h)
    {
      var activated := activatedMode.GetOr(Undefined);
      var requested := requestedMode.GetOr(Undefined);
      var activate := MapModeToHardware(requested);
      var changed := activated != activate;
      past := past.(snapshot := past.stores);
      worker := if changed then Leaving(activate) else Notifying;
      assert State() == WorkerNext(old(State()), h.charges);
      ghost var s1 := State();
      assert Iterated(old(State()), h) == Iterated(s1, h);
      if changed {
        SwitchToMode(activate, h);
      } else {
        Notify();
        assert Iterated(s1, h) == Iterated(State(), h);
      }
    }

    /** One round of worker_thread_cb. */
    method ThreadRound(h: Hardware)
      requires worker.Waiting? && wakeups > 0
      modifies this
      ensures State() == Iterated(WorkerNext(old(State()), true), h)
    {
      ghost var s0 := WorkerNext(State(), true);
      wakeups := 0;
      worker := ClearingRequested;
      assert State() == s0;
      bailoutRequested := false;
      worker, past := ClearingHandled, past.(cleared := past.flags);
      ghost var s1 := State();
      assert s1 == WorkerNext(s0, h.charges);
      bailoutHandled := false;
      worker := Snapshotting;
      assert State() == WorkerNext(s1, h.charges);
      assert Iterated(State(), h) == Iterated(s1, h) == Iterated(s0, h);
      Execute(h);
    }

  }
}
