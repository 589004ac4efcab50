/** What comes of events and of failing switches: from what happens at the main loop to what is announced and
    active once everything has settled. */
module ProtocolOutcomes {
  import opened Basics
  import opened Modes
  import opened Policy
  import opened PolicyLaws
  import opened Protocol
  import opened ProtocolInvariant
  import opened ProtocolLaws
  import Daemon

  // ---- the fallback of a failing switch ------------------------------------------------------------

  /** The run leaves the worker alone. */
  predicate NoWorkerStep(steps: seq<Step>) {
    forall i :: 0 <= i < |steps| ==> !steps[i].WorkerStep?
  }

  lemma {:induction false} WorkerIsLeftAlone(s: State, steps: seq<Step>)
    requires IsRun(s, steps) && NoWorkerStep(steps)
    ensures After(s, steps).worker == s.worker
    decreases steps
  {
    if |steps| > 0 {
      if steps[0].Happen? {
        HandleStartsAtMost(s, steps[0].event);
      }
      WorkerIsLeftAlone(Take(s, steps[0]), steps[1..]);
    }
  }

  /** A failing switch falls back to charging if and only if the request it sees when it chooses is not
      "undefined" and charging can then be activated; else to "undefined". Whatever main does in between. */
  lemma FallbackExactly(s: State, ok: bool, between: seq<Step>, charged: bool)
    requires s.worker.Deciding? && CanTake(s, WorkerStep(ok))
    requires IsRun(WorkerNext(s, ok), between) && NoWorkerStep(between)
    ensures var r := After(WorkerNext(s, ok), between);
            CanTake(r, WorkerStep(charged)) &&
            Take(r, WorkerStep(charged)).worker ==
            Committing(s.worker.mode, Some(if s.shared.requested.Some? && s.shared.requested != Some(Undefined) && charged
                                           then Charging else Undefined))
  {
    WorkerIsLeftAlone(WorkerNext(s, ok), between);
  }

  /** Without a failure nothing overrides the request, as long as charging can be activated. */
  lemma NoFallback(s: State, ok: bool)
    requires s.worker.GoingToCharging? && s.worker.override.None?
    ensures WorkerNext(s, ok).worker == Committing(s.worker.mode, if ok then None else Some(Undefined))
  {
  }

  /** In the run no request is stored. */
  predicate StoresNothing(s: State, steps: seq<Step>)
    requires IsRun(s, steps)
    decreases steps
  {
    |steps| > 0 ==>
      && !(steps[0].MainStep? && s.main.Storing? && s.shared.requested != Some(s.main.mode))
      && StoresNothing(Take(s, steps[0]), steps[1..])
  }

  /** A failing switch has chosen charging already. */
  predicate ChargingChosen(w: WorkerPc) {
    (w.GoingToCharging? || w.Committing?) && w.override.Some? && w.override != Some(Undefined)
  }

  lemma {:induction false} UndefinedStays(s: State, steps: seq<Step>)
    requires s.shared.requested == Some(Undefined) && !ChargingChosen(s.worker)
    requires IsRun(s, steps) && StoresNothing(s, steps)
    ensures After(s, steps).shared.requested == Some(Undefined) && !ChargingChosen(After(s, steps).worker)
    decreases steps
  {
    if |steps| > 0 {
      if steps[0].Happen? {
        HandleStartsAtMost(s, steps[0].event);
      }
      UndefinedStays(Take(s, steps[0]), steps[1..]);
    }
  }

  /** "Undefined", once stored before a failing switch has chosen charging, is what the daemon settles on, however
      many calls fail, unless something newer is stored. */
  lemma UndefinedIsAnnounced(s: State, steps: seq<Step>)
    requires Reachable(s) && s.shared.requested == Some(Undefined) && !ChargingChosen(s.worker)
    requires IsRun(s, steps) && StoresNothing(s, steps) && Quiescent(After(s, steps))
    ensures var r := After(s, steps); r.control.externalMode == Some(Undefined) && r.shared.activated == Some(Charging)
  {
    ReachableKeepsInv(s);
    RunKeepsInv(s, steps);
    UndefinedStays(s, steps);
  }

  /** What is about to be committed is charging, or no fallback. */
  predicate CommitsCharging(w: WorkerPc) {
    w.GoingToCharging? || w.Committing? ==> w.override.None? || w.override == Some(Charging)
  }

  /** In the run charging can be activated whenever that is attempted. */
  predicate ChargingWorks(s: State, steps: seq<Step>)
    requires IsRun(s, steps)
    decreases steps
  {
    |steps| > 0 ==>
      && (s.worker.GoingToCharging? && steps[0].WorkerStep? ==> steps[0].ok)
      && ChargingWorks(Take(s, steps[0]), steps[1..])
  }

  /** A fallback to charging is about to be committed, or has been. */
  predicate ChargingPrevails(s: State) {
    || (s.worker.Committing? && s.worker.override == Some(Charging))
    || (s.shared.requested == Some(Charging) && CommitsCharging(s.worker))
  }

  lemma ChargingStep(s: State, step: Step)
    requires ChargingPrevails(s) && CanTake(s, step)
    requires !(step.MainStep? && s.main.Storing? && s.shared.requested != Some(s.main.mode))
    requires s.worker.GoingToCharging? && step.WorkerStep? ==> step.ok
    ensures ChargingPrevails(Take(s, step))
  {
    match step
    case Happen(ev) => HandleStartsAtMost(s, ev);
    case Reply =>
    case MainStep =>
    case WorkerStep(_) =>
  }

  lemma {:induction false} ChargingStays(s: State, steps: seq<Step>)
    requires ChargingPrevails(s) && IsRun(s, steps) && StoresNothing(s, steps) && ChargingWorks(s, steps)
    ensures ChargingPrevails(After(s, steps))
    decreases steps
  {
    if |steps| > 0 {
      ChargingStep(s, steps[0]);
      ChargingStays(Take(s, steps[0]), steps[1..]);
    }
  }

  /** Stored later than that choice, it is lost: as long as charging works the daemon settles on charging. */
  lemma UndefinedIsLost(s: State, steps: seq<Step>)
    requires Reachable(s) && s.worker.Committing? && s.worker.override == Some(Charging)
    requires IsRun(s, steps) && StoresNothing(s, steps) && ChargingWorks(s, steps) && Quiescent(After(s, steps))
    ensures var r := After(s, steps); r.control.externalMode == r.shared.activated == Some(Charging)
  {
    ReachableKeepsInv(s);
    RunKeepsInv(s, steps);
    ChargingStays(s, steps);
  }

  // ---- mode data -----------------------------------------------------------------------------------

  /** Exactly when mode data is put in use: for a configured mode, whose policy check has been passed. */
  lemma DataSetExactly(s: State, ok: bool)
    ensures var r := WorkerNext(s, ok);
            && (r.worker.LookingUp? <==> s.worker.CheckingPolicy? && ((s.env.usermode && s.env.unlocked) || s.env.rescue))
            && (|r.past.hardware| > |s.past.hardware| && r.past.hardware[|r.past.hardware| - 1].DataSet?
                <==> s.worker.LookingUp? && s.worker.mode in s.env.settings.modelist)
            && (r.worker.Entering? ==> r.shared.modeData == Some(s.worker.mode))
  {
  }

  /** Every switch first leaves the mode in use, if there is one, and then takes the latest application lists in use. */
  lemma LeavingExactly(s: State, ok: bool)
    requires s.worker.Leaving?
    ensures var r := WorkerNext(s, ok);
            && r.shared.modeData.None?
            && r.past.hardware == s.past.hardware + (if s.shared.modeData.Some? then [Left(s.shared.modeData.value)] else []) + [ListsSwitched]
  {
  }

  /** Mode data is only ever put in use right after application lists have been switched, and is going to be if the
      worker is on its way there. */
  predicate ListsAreFresh(s: State) {
    var h := s.past.hardware;
    && (forall i :: 0 <= i < |h| && h[i].DataSet? ==> i > 0 && h[i - 1].ListsSwitched?)
    && (s.worker.CheckingPolicy? || s.worker.LookingUp? ==> |h| > 0 && h[|h| - 1].ListsSwitched?)
  }

  /** Over all runs every dynamic mode is entered with the lists loaded last. */
  lemma {:induction false} EnteredWithFreshLists(s: State, steps: seq<Step>)
    requires ListsAreFresh(s) && IsRun(s, steps)
    ensures ListsAreFresh(After(s, steps))
    decreases steps
  {
    if |steps| > 0 {
      if steps[0].Happen? {
        HandleStartsAtMost(s, steps[0].event);
      }
      EnteredWithFreshLists(Take(s, steps[0]), steps[1..]);
    }
  }

  /** At rest mode data is in use for the announced mode, unless that is one of those served by charging. */
  lemma DataAtRest(s: State)
    requires Reachable(s) && Quiescent(s) && s.shared.requested.Some?
    ensures var m := s.shared.requested.value;
            && s.control.externalMode == Some(m)
            && s.shared.modeData == (if m in {Undefined, Ask, Charging, ChargingFallback, DedicatedCharger} then None else Some(m))
            && s.shared.activated == Some(if m in {Undefined, Ask, Charging, ChargingFallback, DedicatedCharger} then Charging else m)
  {
    ReachableKeepsInv(s);
  }

  // ---- a round of the worker on its own --------------------------------------------------------------

  /** The wait of a switch that is not told to bail out succeeds exactly if the daemon is ready within 600 naps. */
  lemma {:induction false} WaitExactly(s: State, h: Daemon.Hardware)
    requires s.worker.Awaiting? && !BailingOut(s)
    ensures var m := s.worker.mode;
            Daemon.Iterated(s, h) ==
            Daemon.Iterated(s.(worker := if h.readyAfter <= 600 then Completing(m) else Failing(m)), h)
    decreases WorkerWork(s.worker)
  {
    var t := WorkerNext(s, Daemon.OkAt(s.worker, h));
    if t.worker.Awaiting? {
      WaitExactly(t, h);
    }
  }

  lemma ChargingRound(s: State, h: Daemon.Hardware)
    requires s.worker.GoingToCharging? && s.shared.requested.Some? && s.shared.modeData.None?
    requires s.worker.override == Some(Charging) || (s.worker.override.None? && s.worker.mode == Charging)
    ensures var r := Daemon.Iterated(s, h).shared;
            && r.requested == (if !h.charges then Some(Undefined) else if s.worker.override.Some? then Some(Charging) else s.shared.requested)
            && r.activated == Some(Charging) && r.modeData.None?
  {
    var s1 := WorkerNext(s, Daemon.OkAt(s.worker, h));
    var s2 := WorkerNext(s1, Daemon.OkAt(s1.worker, h));
    assert Daemon.Iterated(s1, h) == Daemon.Iterated(s2, h);
    assert Daemon.Iterated(s2, h) == WorkerNext(s2, true);
  }

  lemma FailureExactly(s: State, h: Daemon.Hardware)
    requires s.worker.Failing? && s.shared.requested.Some? && s.shared.requested != Some(Undefined)
    ensures var r := Daemon.Iterated(s, h).shared;
            && r.requested == Some(if h.charges then Charging else Undefined)
            && r.activated == Some(Charging) && r.modeData.None?
  {
    var s1 := WorkerNext(s, Daemon.OkAt(s.worker, h));
    var s2 := WorkerNext(s1, Daemon.OkAt(s1.worker, h));
    var s3 := WorkerNext(s2, Daemon.OkAt(s2.worker, h));
    assert Daemon.Iterated(s, h) == Daemon.Iterated(s1, h) == Daemon.Iterated(s2, h) == Daemon.Iterated(s3, h);
    ChargingRound(s3, h);
  }

  lemma SetUpExactly(s: State, h: Daemon.Hardware)
    requires s.worker.Entering? && s.shared.requested == Some(s.worker.mode) && s.shared.modeData == Some(s.worker.mode)
    requires !BailingOut(s) && s.worker.mode != Undefined
    ensures var m := s.worker.mode; var r := Daemon.Iterated(s, h).shared;
            if h.accepts && h.readyAfter <= 600 && h.completes
            then r.requested == r.activated == r.modeData == Some(m)
            else r.requested == Some(if h.charges then Charging else Undefined) && r.activated == Some(Charging) && r.modeData.None?
  {
    var s1 := WorkerNext(s, h.accepts);
    if h.accepts {
      WaitExactly(s1, h);
      var s2 := s1.(worker := if h.readyAfter <= 600 then Completing(s.worker.mode) else Failing(s.worker.mode));
      if h.readyAfter <= 600 {
        var s3 := WorkerNext(s2, h.completes);
        if h.completes {
          var s4 := WorkerNext(s3, true);
          assert Daemon.Iterated(s4, h) == WorkerNext(s4, true);
        } else {
          FailureExactly(s3, h);
        }
      } else {
        FailureExactly(s2, h);
      }
    } else {
      FailureExactly(s1, h);
    }
  }

  lemma SwitchExactly(s: State, h: Daemon.Hardware)
    requires s.worker.CheckingPolicy? && s.shared.requested == Some(s.worker.mode) && s.shared.modeData.None?
    requires !BailingOut(s) && s.worker.mode != Undefined
    ensures var m := s.worker.mode; var r := Daemon.Iterated(s, h).shared;
            if ((s.env.usermode && s.env.unlocked) || s.env.rescue) && m in s.env.settings.modelist
               && h.accepts && h.readyAfter <= 600 && h.completes
            then r.requested == r.activated == r.modeData == Some(m)
            else r.requested == Some(if h.charges then Charging else Undefined) && r.activated == Some(Charging) && r.modeData.None?
  {
    var s1 := WorkerNext(s, Daemon.OkAt(s.worker, h));
    if s1.worker.Failing? {
      FailureExactly(s1, h);
    } else {
      var s2 := WorkerNext(s1, Daemon.OkAt(s1.worker, h));
      if s2.worker.Failing? {
        FailureExactly(s2, h);
      } else {
        SetUpExactly(s2, h);
      }
    }
  }

  /** What a round comes to that nothing interferes with: the requested mode is active already and nothing changes, or
      it becomes active, which for a dynamic mode takes permission to export, a configuration, and hardware that
      accepts it, gets ready in time and completes it; or else charging is active, and requested if it works. */
  lemma RoundExactly(s: State, h: Daemon.Hardware)
    requires Inv(s) && s.main.Idle? && s.worker.Waiting? && s.shared.wakeups > 0
    ensures s.shared.requested.Some?
    ensures var m := s.shared.requested.value; var r := Daemon.Iterated(WorkerNext(s, true), h).shared;
            var plain := m in {Undefined, Ask, Charging, ChargingFallback, DedicatedCharger};
            if s.shared.activated == Some(if plain then Charging else m)
            then r.requested == Some(m) && r.activated == s.shared.activated && r.modeData == s.shared.modeData
            else if plain
            then r.requested == Some(if h.charges then m else Undefined) && r.activated == Some(Charging) && r.modeData.None?
            else if ((s.env.usermode && s.env.unlocked) || s.env.rescue) && m in s.env.settings.modelist
                    && h.accepts && h.readyAfter <= 600 && h.completes
            then r.requested == r.activated == r.modeData == Some(m)
            else r.requested == Some(if h.charges then Charging else Undefined) && r.activated == Some(Charging) && r.modeData.None?
  {
    var s1 := WorkerNext(s, true);
    var s2 := WorkerNext(s1, Daemon.OkAt(s1.worker, h));
    var s3 := WorkerNext(s2, Daemon.OkAt(s2.worker, h));
    var s4 := WorkerNext(s3, Daemon.OkAt(s3.worker, h));
    assert Daemon.Iterated(s1, h) == Daemon.Iterated(s3, h) == Daemon.Iterated(s4, h);
    if s4.worker.Notifying? {
      assert Daemon.Iterated(s4, h) == WorkerNext(s4, true);
    } else {
      var s5 := WorkerNext(s4, Daemon.OkAt(s4.worker, h));
      assert Daemon.Iterated(s4, h) == Daemon.Iterated(s5, h);
      if s5.worker.CheckingPolicy? {
        SwitchExactly(s5, h);
      } else {
        ChargingRound(s5, h);
      }
    }
  }

  // ---- events --------------------------------------------------------------------------------------

  /** The situation an event leaves for the decision to be taken. */
  function Situation(s: State, ev: Event): (Control, Env) {
    var c, e := s.control, s.env;
    match ev
    case UserChanged(uid) => (c.(pendingUserChange := e.initDone, selectedMode := None), e.(user := uid))
    case LockChanged(u) => (c.(pendingUserChange := false), e.(unlocked := u))
    case DeviceStateChanged(u, d) => (c, e.(usermode := u, shutdown := d))
    case InitDoneChanged(r) => (c, if r && !e.initDone then e.(initDone := true, rescue := false) else e.(initDone := r))
    case SettingsChanged(st) => (c, e.(settings := st))
    case SettingsEdited(st) => (c, e.(settings := st))
    case CableChanged(cable) => (c.(cable := cable), e)
    case ModeSelected(m) => (c.(selectedMode := Some(m)), e)
    case Enabled => (c.(enabled := true), e)
    case UserChangeTimeout => (c.(pendingUserChange := false), e)
    case RescueOff => (c, e.(rescue := false))
  }

  /** Nothing is decided for edits that are not reported, for turning rescue mode off, and where nothing changed. */
  predicate Decides(s: State, ev: Event) {
    match ev
    case SettingsEdited(_) => false
    case RescueOff => false
    case InitDoneChanged(r) => r != s.env.initDone
    case CableChanged(cable) => cable != s.control.cable
    case Enabled => !s.control.enabled
    case _ => true
  }

  lemma SituationExactly(s: State, ev: Event)
    ensures var (c, e) := Situation(s, ev);
            (c, e) == (ControlOf(s.control, s.env, ev), EnvOf(s.env, ev))
            && c.internalMode == s.control.internalMode && c.userForMode == s.control.userForMode
    ensures Decides(s, ev) <==> Rethinks(s, ev)
  {
  }

  /** The mode decided on is the internal one, owned by the current user, and requested if it is another one than
      before; a selection is forgotten unless it was obeyed. */
  predicate Decided(c: Control, e: Env, r: State)
    requires !Retains(c, e)
  {
    var m := Wanted(c, e);
    && r.control.internalMode == Some(m) && r.control.userForMode == e.user && r.env == EnvAfter(c, e)
    && r.control.selectedMode == (if c.cable == PcConnected && c.selectedMode == Some(m) then Some(m) else None)
    && r.main == (if c.internalMode == Some(m) then Idle else Storing(m))
  }

  predicate Undecided(c: Control, e: Env, r: State) {
    && r.control.internalMode == c.internalMode && r.control.userForMode == c.userForMode && r.env == e
    && r.control.selectedMode == c.selectedMode && r.main == Idle
  }

  predicate LeavesAlone(c: Control, r: Control) {
    r.pendingUserChange == c.pendingUserChange && r.cable == c.cable && r.enabled == c.enabled
  }

  lemma RethinkExactly(s: State)
    requires s.main.Idle?
    ensures LeavesAlone(s.control, Rethink(s).control)
    ensures if Retains(s.control, s.env) then Undecided(s.control, s.env, Rethink(s)) else Decided(s.control, s.env, Rethink(s))
  {
    Bookkeeping(s.control, s.env);
  }

  /** What every main loop event comes to: a decision for the new situation, or none. */
  lemma EventExactly(s: State, ev: Event)
    requires s.main.Idle?
    ensures var (c, e) := Situation(s, ev);
            && LeavesAlone(c, Handle(s, ev).control)
            && (if Decides(s, ev) && !Retains(c, e) then Decided(c, e, Handle(s, ev)) else Undecided(c, e, Handle(s, ev)))
  {
    SituationExactly(s, ev);
    if Decides(s, ev) {
      var (c, e) := Situation(s, ev);
      RethinkExactly(s.(control := c, env := e));
    }
  }

  // ---- from an event to rest -----------------------------------------------------------------------

  /** The last decision is on its way: about to be stored, or stored, and nothing overrides it. */
  predicate OnItsWay(s: State, m: Mode) {
    && !s.worker.CleaningUp? && !s.worker.Deciding?
    && (s.worker.GoingToCharging? || s.worker.Committing? ==> s.worker.override.None?)
    && (if s.main.Storing? then s.main.mode == m else s.shared.requested == Some(m))
  }

  lemma OnItsWayStep(s: State, step: Step, m: Mode)
    requires OnItsWay(s, m) && CanTake(s, step) && !step.Happen?
    requires step.WorkerStep? ==> !s.worker.Failing? && (s.worker.GoingToCharging? ==> step.ok)
    ensures OnItsWay(Take(s, step), m)
  {
    match step
    case Reply =>
    case MainStep =>
    case WorkerStep(_) =>
  }

  lemma {:induction false} StaysOnItsWay(s: State, steps: seq<Step>, m: Mode)
    requires OnItsWay(s, m) && IsRun(s, steps) && AllQuiet(steps) && FailureFree(s, steps)
    ensures OnItsWay(After(s, steps), m)
    decreases steps
  {
    if |steps| > 0 {
      OnItsWayStep(s, steps[0], m);
      StaysOnItsWay(Take(s, steps[0]), steps[1..], m);
    }
  }

  /** A daemon at rest takes every decision to the hardware: if nothing fails, what it settles on next is what the
      event called for. */
  lemma DecisionIsReached(s: State, ev: Event, steps: seq<Step>)
    requires Reachable(s) && Quiescent(s) && s.shared.requested.Some? && Possible(s, ev)
    requires var (c, e) := Situation(s, ev); Decides(s, ev) && !Retains(c, e)
    requires IsRun(Handle(s, ev), steps) && AllQuiet(steps) && FailureFree(Handle(s, ev), steps)
    requires Quiescent(After(Handle(s, ev), steps))
    ensures var (c, e) := Situation(s, ev); var r := After(Handle(s, ev), steps); var m := Wanted(c, e);
            && r.control.internalMode == r.control.targetMode == r.control.externalMode == Some(m)
            && r.shared.activated == Some(if m in {Undefined, Ask, Charging, ChargingFallback, DedicatedCharger} then Charging else m)
  {
    var (c, e) := Situation(s, ev);
    ReachableKeepsInv(s);
    EventExactly(s, ev);
    HandleStartsAtMost(s, ev);
    StepKeepsInv(s, Happen(ev));
    RunKeepsInv(Handle(s, ev), steps);
    StaysOnItsWay(Handle(s, ev), steps, Wanted(c, e));
  }

  lemma {:induction false} SelectionStays(s: State, steps: seq<Step>)
    requires IsRun(s, steps) && AllQuiet(steps)
    ensures After(s, steps).control.selectedMode == s.control.selectedMode
    decreases steps
  {
    if |steps| > 0 {
      SelectionStays(Take(s, steps[0]), steps[1..]);
    }
  }

  /** A client's selection, on an unlocked device connected to a pc, ends up announced and active. */
  lemma SelectionIsReached(s: State, m: Mode, steps: seq<Step>)
    requires Reachable(s) && Quiescent(s) && s.shared.requested.Some?
    requires UsersDecide(s.control.(selectedMode := Some(m)), s.env) && Unlocked(s.control, s.env)
    requires Exists(s.env.settings, m) && MayUse(s.env.settings, m, s.env.user)
    requires m !in {Undefined, DedicatedCharger, ChargingFallback, Charging, Ask}
    requires s.control.internalMode == Some(m) ==> s.control.userForMode == s.env.user
    requires IsRun(Handle(s, ModeSelected(m)), steps) && AllQuiet(steps) && FailureFree(Handle(s, ModeSelected(m)), steps)
    requires Quiescent(After(Handle(s, ModeSelected(m)), steps))
    ensures var r := After(Handle(s, ModeSelected(m)), steps);
            r.control.externalMode == r.shared.activated == Some(m) && r.control.selectedMode.Some?
  {
    var c := s.control.(selectedMode := Some(m));
    SelectionIsObeyed(c, s.env, m);
    UnlockedDecision(c, s.env);
    DecisionIsReached(s, ModeSelected(m), steps);
    EventExactly(s, ModeSelected(m));
    SelectionStays(Handle(s, ModeSelected(m)), steps);
  }

  /** When the device is unlocked, the user's default mode takes over. */
  lemma UnlockingEntersDefault(s: State, steps: seq<Step>)
    requires Reachable(s) && Quiescent(s) && s.shared.requested.Some?
    requires UsersDecide(s.control, s.env) && s.env.usermode && s.control.selectedMode.None?
    requires var m := DefaultMode(s.env.settings, DefaultUser(s.env));
             && m !in {Undefined, DedicatedCharger, ChargingFallback, Charging, Ask} && MayUse(s.env.settings, m, s.env.user)
             && (s.control.internalMode == Some(m) ==> s.control.userForMode == s.env.user)
    requires IsRun(Handle(s, LockChanged(true)), steps) && AllQuiet(steps) && FailureFree(Handle(s, LockChanged(true)), steps)
    requires Quiescent(After(Handle(s, LockChanged(true)), steps))
    ensures var r := After(Handle(s, LockChanged(true)), steps);
            r.control.externalMode == r.shared.activated == Some(DefaultMode(s.env.settings, DefaultUser(s.env)))
  {
    UnlockedDecision(s.control.(pendingUserChange := false), s.env.(unlocked := true));
    DecisionIsReached(s, LockChanged(true), steps);
  }

  /** "Undefined" is stored, or about to be before the worker wakes up, and no failing switch has chosen charging. */
  predicate UndefinedComing(s: State) {
    && !ChargingChosen(s.worker)
    && (if s.main.Storing? then s.main.mode == Undefined && s.worker.Waiting? && s.shared.wakeups == 0
        else s.shared.requested == Some(Undefined))
  }

  lemma {:induction false} UndefinedComes(s: State, steps: seq<Step>)
    requires UndefinedComing(s) && IsRun(s, steps) && AllQuiet(steps)
    ensures UndefinedComing(After(s, steps))
    decreases steps
  {
    if |steps| > 0 {
      UndefinedComes(Take(s, steps[0]), steps[1..]);
    }
  }

  /** Unplugging a daemon at rest: whatever fails, it settles on "undefined". */
  lemma UnpluggingIsAnnounced(s: State, steps: seq<Step>)
    requires Reachable(s) && Quiescent(s) && s.shared.requested.Some? && s.control.enabled && s.control.cable != Disconnected
    requires IsRun(Handle(s, CableChanged(Disconnected)), steps) && AllQuiet(steps)
    requires Quiescent(After(Handle(s, CableChanged(Disconnected)), steps))
    ensures var r := After(Handle(s, CableChanged(Disconnected)), steps);
            r.control.externalMode == Some(Undefined) && r.shared.activated == Some(Charging) && r.control.selectedMode.None?
  {
    var t := Handle(s, CableChanged(Disconnected));
    ReachableKeepsInv(s);
    EventExactly(s, CableChanged(Disconnected));
    HandleStartsAtMost(s, CableChanged(Disconnected));
    StepKeepsInv(s, Happen(CableChanged(Disconnected)));
    RunKeepsInv(t, steps);
    UndefinedComes(t, steps);
    SelectionStays(t, steps);
  }

}
