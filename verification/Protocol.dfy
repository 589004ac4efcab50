/** The control/worker mode switch protocol as a step system.

    The main thread and the worker thread interleave at every point where they touch something the other
    one can see: the mutex protected requested and activated modes, the two eventfd counters and the
    bailout flags. Hardware calls succeed or fail freely.
    (src/usb_moded-control.c, src/usb_moded-worker.c) */
module Protocol {
  import opened Basics
  import opened Modes
  import opened Policy

  /** Where the main thread is. Flagging and Waking hold the worker mutex. */
  datatype MainPc =
    | Idle
    | Storing(mode: Mode)   // in control_set_usb_mode, about to enter worker_request_hardware_mode
    | Flagging(mode: Mode)  // requested mode stored, bailout flag not yet raised
    | Waking(mode: Mode)    // bailout flag raised, eventfd not yet written
    | Replying              // reply counter read, requested mode not yet copied

  /** The longest a switch waits for a daemon to get ready: 120 s, in naps of 200 ms. */
  const WAIT_NAPS := 600

  type Naps = n: int | 0 <= n <= WAIT_NAPS

  /** Where the worker thread is. Entering and Completing: the calls made before and after
      waiting for a daemon to get ready, which is Awaiting. */
  datatype WorkerPc =
    | Waiting
    | ClearingRequested | ClearingHandled | Snapshotting
    | Leaving(mode: Mode)
    | CheckingPolicy(mode: Mode)
    | LookingUp(mode: Mode)
    | Entering(mode: Mode)
    | Awaiting(mode: Mode, naps: Naps)
    | Completing(mode: Mode)
    | Failing(mode: Mode)
    | CleaningUp(mode: Mode)
    | Deciding(mode: Mode)
    | GoingToCharging(mode: Mode, override: Option<Mode>)
    | Committing(mode: Mode, override: Option<Mode>)
    | Notifying

  datatype Shared = Shared(requested: Option<Mode>, activated: Option<Mode>, wakeups: nat, replies: nat,
                           bailoutRequested: bool, bailoutHandled: bool, modeData: Option<Mode>)

  /** Mode data being put in use, modesetting_leave_dynamic_mode run for it, and a freshly loaded
      application list taken in use. */
  datatype HwEvent = DataSet(mode: Mode) | Left(mode: Mode) | ListsSwitched

  /** History kept to state properties; no step depends on it.
      stores/flags: requests stored / flagged so far; cleared: value of flags when the worker last cleared
      the bailout flag; snapshot: value of stores when it last copied the requested mode. */
  datatype History = History(wanted: Option<Mode>, overridden: bool, enteredBy: int,
                             stores: nat, flags: nat, cleared: nat, snapshot: nat, hardware: seq<HwEvent>)

  datatype State = State(control: Control, env: Env, main: MainPc, worker: WorkerPc, shared: Shared, past: History)

  /** Main loop events other than worker replies. */
  datatype Event =
    | UserChanged(uid: int)
    | LockChanged(unlockedNow: bool)
    | DeviceStateChanged(inUsermode: bool, inShutdown: bool)
    | InitDoneChanged(reached: bool)
    | SettingsChanged(changed: Settings)   // control_settings_changed
    | SettingsEdited(edited: Settings)     // configuration changes that do not re-evaluate the mode
    | CableChanged(cableNow: CableState)
    | ModeSelected(selected: Mode)
    | Enabled
    | UserChangeTimeout
    | RescueOff                            // D-Bus request; the mode is not re-evaluated

  datatype Step =
    | Happen(event: Event)
    | Reply                 // main loop dispatches worker_notify_cb
    | MainStep
    | WorkerStep(ok: bool)  // ok: outcome of the hardware call or readiness check made in this step, if any

  const INITIAL_CONTROL := Control(None, None, None, None, UID_UNKNOWN, Unknown, false, false, false)
  const INITIAL_SHARED := Shared(None, None, 0, 0, false, false, None)
  const INITIAL_HISTORY := History(None, false, UID_UNKNOWN, 0, 0, 0, 0, [])

  function Initial(e: Env): State {
    State(INITIAL_CONTROL, e, Idle, Waiting, INITIAL_SHARED, INITIAL_HISTORY)
  }

  // ---- main thread -------------------------------------------------------------------------------

  predicate Possible(s: State, ev: Event) {
    match ev
    case UserChanged(uid) => uid != s.env.user
    case UserChangeTimeout => s.control.pendingUserChange
    case _ => true
  }

  /** Does the event re-evaluate the mode? */
  predicate Rethinks(s: State, ev: Event) {
    match ev
    case SettingsEdited(_) => false
    case RescueOff => false
    case InitDoneChanged(reached) => reached != s.env.initDone
    case CableChanged(c) => c != s.control.cable
    case Enabled => !s.control.enabled
    case _ => true
  }

  function EnvOf(e: Env, ev: Event): Env {
    match ev
    case UserChanged(uid) => e.(user := uid)
    case LockChanged(u) => e.(unlocked := u)
    case DeviceStateChanged(u, d) => e.(usermode := u, shutdown := d)
    case InitDoneChanged(reached) => e.(initDone := reached, rescue := e.rescue && !(reached && !e.initDone))
    case SettingsChanged(st) => e.(settings := st)
    case SettingsEdited(st) => e.(settings := st)
    case RescueOff => e.(rescue := false)
    case _ => e
  }

  function ControlOf(c: Control, e: Env, ev: Event): Control {
    match ev
    case UserChanged(_) => c.(pendingUserChange := e.initDone, selectedMode := None)
    case LockChanged(_) => c.(pendingUserChange := false)
    case CableChanged(cable) => c.(cable := cable)
    case ModeSelected(m) => c.(selectedMode := Some(m))
    case Enabled => c.(enabled := true)
    case UserChangeTimeout => c.(pendingUserChange := false)
    case _ => c
  }

  /** control_set_external_mode, with the target mode kept in step outside transitions. */
  function WithExternal(c: Control, m: Mode): Control {
    if c.externalMode == Some(m) then c
    else c.(externalMode := Some(m), targetMode := if m.Busy? then c.targetMode else Some(m))
  }

  /** control_set_usb_mode up to the call into the worker. */
  function SetMode(s: State, m: Mode): State {
    var c := s.control.(userForMode := s.env.user);
    var p := s.past.(wanted := Some(m));
    if c.internalMode == Some(m) then s.(control := c, past := p)
    else s.(control := WithExternal(c.(internalMode := Some(m), targetMode := Some(m)), Busy),
            past := p.(enteredBy := s.env.user),
            main := Storing(m))
  }

  function ForgetSelection(s: State, m: Mode): State {
    s.(control := s.control.(selectedMode := if s.control.selectedMode == Some(m) then Some(m) else None))
  }

  /** control_rethink_usb_mode. */
  function Rethink(s: State): State {
    var c, e := ControlAfter(s.control, s.env), EnvAfter(s.control, s.env);
    if Retains(s.control, s.env) then s.(control := c)
    else
      var m := Wanted(s.control, s.env);
      ForgetSelection(SetMode(s.(control := c, env := e), m), m)
  }

  function Handle(s: State, ev: Event): State {
    var s1 := s.(env := EnvOf(s.env, ev), control := ControlOf(s.control, s.env, ev));
    if Rethinks(s, ev) then Rethink(s1) else s1
  }

  /** control_mode_switched. */
  function ModeSwitched(c: Control, m: Mode): Control {
    WithExternal(c.(internalMode := Some(m)), ExternalMode(m))
  }

  function MainNext(s: State): State
    requires !s.main.Idle?
  {
    match s.main
    case Storing(m) =>
      if s.shared.requested == Some(m)
      then s.(control := WithExternal(s.control, ExternalMode(s.control.internalMode.GetOr(m))), main := Idle)
      else s.(shared := s.shared.(requested := Some(m)), main := Flagging(m),
              past := s.past.(stores := s.past.stores + 1, overridden := false))
    case Flagging(m) =>
      s.(shared := s.shared.(bailoutRequested := true), main := Waking(m), past := s.past.(flags := s.past.flags + 1))
    case Waking(_) =>
      s.(shared := s.shared.(wakeups := s.shared.wakeups + 1), main := Idle)
    case Replying =>
      s.(control := ModeSwitched(s.control, s.shared.requested.GetOr(Undefined)), main := Idle)
  }

  // ---- worker thread -----------------------------------------------------------------------------

  predicate MainHoldsLock(s: State) {
    s.main.Flagging? || s.main.Waking?
  }

  /** Worker steps that enter a critical section. */
  predicate NeedsLock(s: State) {
    match s.worker
    case Snapshotting => true
    case Leaving(_) => s.shared.modeData.Some?
    case LookingUp(m) => m in s.env.settings.modelist
    case CleaningUp(_) => s.shared.modeData.Some?
    case Deciding(_) => true
    case Committing(_, _) => true
    case _ => false
  }

  predicate WorkerEnabled(s: State) {
    (s.worker.Waiting? ==> s.shared.wakeups > 0) && (NeedsLock(s) ==> !MainHoldsLock(s))
  }

  /** Modes worker_switch_to_mode serves with the charging configuration. */
  predicate IsChargingRequest(m: Mode) {
    IsStatic(m) || m.Ask?
  }

  function LeaveDynamicMode(s: State): State {
    match s.shared.modeData
    case None => s
    case Some(m) => s.(shared := s.shared.(modeData := None), past := s.past.(hardware := s.past.hardware + [Left(m)]))
  }

  /** worker_bailing_out, as the worker thread would see it now. */
  predicate BailingOut(s: State) {
    s.shared.bailoutRequested && !s.shared.bailoutHandled
  }

  function SwitchLists(s: State): State {
    s.(past := s.past.(hardware := s.past.hardware + [ListsSwitched]))
  }

  /** Bound on the steps the worker takes before it waits again. */
  function WorkerWork(w: WorkerPc): nat {
    match w
    case Waiting => 0
    case ClearingRequested => 17 + WAIT_NAPS
    case ClearingHandled => 16 + WAIT_NAPS
    case Snapshotting => 15 + WAIT_NAPS
    case Leaving(_) => 14 + WAIT_NAPS
    case CheckingPolicy(_) => 13 + WAIT_NAPS
    case LookingUp(_) => 12 + WAIT_NAPS
    case Entering(_) => 11 + WAIT_NAPS
    case Awaiting(_, naps) => 10 + naps
    case Completing(_) => 9
    case Failing(_) => 8
    case CleaningUp(_) => 7
    case Deciding(_) => 6
    case GoingToCharging(_, _) => 5
    case Committing(_, _) => 4
    case Notifying => 3
  }

  function WorkerNext(s: State, ok: bool): State {
    match s.worker
    case Waiting => s.(shared := s.shared.(wakeups := 0), worker := ClearingRequested)
    case ClearingRequested =>
      s.(shared := s.shared.(bailoutRequested := false), worker := ClearingHandled, past := s.past.(cleared := s.past.flags))
    case ClearingHandled => s.(shared := s.shared.(bailoutHandled := false), worker := Snapshotting)
    case Snapshotting =>
      var activate := HardwareMode(s.shared.requested.GetOr(Undefined));
      s.(worker := if s.shared.activated.GetOr(Undefined) != activate then Leaving(activate) else Notifying,
         past := s.past.(snapshot := s.past.stores))
    case Leaving(m) =>
      SwitchLists(LeaveDynamicMode(s)).(worker := if IsChargingRequest(m) then GoingToCharging(m, None) else CheckingPolicy(m))
    case CheckingPolicy(m) => s.(worker := if CanExport(s.env) then LookingUp(m) else Failing(m))
    case LookingUp(m) =>
      if m in s.env.settings.modelist
      then s.(shared := s.shared.(modeData := Some(m)), worker := Entering(m),
              past := s.past.(hardware := s.past.hardware + [DataSet(m)]))
      else s.(worker := Failing(m))
    case Entering(m) => s.(worker := if ok then Awaiting(m, WAIT_NAPS) else Failing(m))
    case Awaiting(m, naps) =>
      s.(worker := if ok then Completing(m) else if naps == 0 || BailingOut(s) then Failing(m) else Awaiting(m, naps - 1))
    case Completing(m) => s.(worker := if ok then Committing(m, None) else Failing(m))
    case Failing(m) => s.(shared := s.shared.(bailoutHandled := true), worker := CleaningUp(m))
    case CleaningUp(m) => LeaveDynamicMode(s).(worker := Deciding(m))
    case Deciding(m) =>
      s.(worker := GoingToCharging(m, Some(if s.shared.requested.GetOr(Undefined).Undefined? then Undefined else Charging)))
    case GoingToCharging(m, override) => s.(worker := Committing(m, if ok then override else Some(Undefined)))
    case Committing(m, override) =>
      (match override
       case Some(o) => s.(shared := s.shared.(requested := Some(o), activated := Some(HardwareMode(o))),
                          worker := Notifying, past := s.past.(overridden := true))
       case None => s.(shared := s.shared.(activated := Some(m)), worker := Notifying))
    case Notifying => s.(shared := s.shared.(replies := s.shared.replies + 1), worker := Waiting)
  }

  // ---- runs --------------------------------------------------------------------------------------

  predicate CanTake(s: State, step: Step) {
    match step
    case Happen(ev) => s.main.Idle? && Possible(s, ev)
    case Reply => s.main.Idle? && s.shared.replies > 0
    case MainStep => !s.main.Idle?
    case WorkerStep(_) => WorkerEnabled(s)
  }

  function Take(s: State, step: Step): State
    requires CanTake(s, step)
  {
    match step
    case Happen(ev) => Handle(s, ev)
    case Reply => s.(shared := s.shared.(replies := 0), main := Replying)
    case MainStep => MainNext(s)
    case WorkerStep(ok) => WorkerNext(s, ok)
  }

  predicate IsRun(s: State, steps: seq<Step>)
    decreases steps
  {
    |steps| == 0 || (CanTake(s, steps[0]) && IsRun(Take(s, steps[0]), steps[1..]))
  }

  function After(s: State, steps: seq<Step>): State
    requires IsRun(s, steps)
    decreases steps
  {
    if |steps| == 0 then s else After(Take(s, steps[0]), steps[1..])
  }

  lemma {:induction false} RunsCompose(s: State, a: seq<Step>, b: seq<Step>)
    requires IsRun(s, a) && IsRun(After(s, a), b)
    ensures IsRun(s, a + b) && After(s, a + b) == After(After(s, a), b)
    decreases a
  {
    if |a| == 0 {
      assert a + b == b;
    } else {
      RunsCompose(Take(s, a[0]), a[1..], b);
      assert (a + b)[1..] == a[1..] + b;
    }
  }

  /** Nothing is left to do. */
  predicate Quiescent(s: State) {
    s.main.Idle? && s.worker.Waiting? && s.shared.wakeups == 0 && s.shared.replies == 0
  }
}
