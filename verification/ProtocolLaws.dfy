/** What the mode switch protocol guarantees over whole runs, and exactly where its guarantees end. */
module ProtocolLaws {
  import opened Basics
  import opened Modes
  import opened Policy
  import opened Protocol
  import opened ProtocolInvariant

  ghost predicate Reachable(s: State) {
    exists e, steps :: IsRun(Initial(e), steps) && After(Initial(e), steps) == s
  }

  lemma ReachableKeepsInv(s: State)
    requires Reachable(s)
    ensures Inv(s)
  {
    var e, steps :| IsRun(Initial(e), steps) && After(Initial(e), steps) == s;
    InitialInv(e);
    RunKeepsInv(Initial(e), steps);
  }

  // ---- agreement --------------------------------------------------------------------------------

  /** Whatever the interleaving and whichever switches failed: once nothing is outstanding, control, D-Bus,
      the worker's slot and the hardware all agree, and "busy" is announced only for a mode of that name. */
  lemma QuiescentAgreement(s: State)
    requires Reachable(s) && Quiescent(s) && s.shared.requested.Some?
    ensures var m := s.shared.requested.value;
            && s.control.internalMode == s.control.targetMode == Some(m)
            && s.control.externalMode == Some(ExternalMode(m))
            && s.shared.activated == Some(HardwareMode(m))
            && s.shared.modeData == DataFor(s.shared.activated)
            && (s.control.externalMode == Some(Busy) <==> m == Busy)
  {
    ReachableKeepsInv(s);
  }

  /** A request the worker has not copied will be: it is signalled, being signalled, or about to be copied.
      Announcing anything but the current mode means that work or a reply is still outstanding. */
  lemma NoLostWakeup(s: State)
    requires Reachable(s)
    ensures Stale(s) ==> s.shared.wakeups > 0 || MainHoldsLock(s) || AboutToSnapshot(s.worker)
    ensures s.control.externalMode != s.control.internalMode ==> !Quiescent(s)
    ensures s.main.Idle? && s.control.internalMode != s.shared.requested ==> s.shared.replies > 0 || s.worker.Notifying?
  {
    ReachableKeepsInv(s);
  }

  predicate ListsNoBusyMode(s: State, steps: seq<Step>)
    requires IsRun(s, steps)
    decreases steps
  {
    Busy !in s.env.settings.modelist && (|steps| > 0 ==> ListsNoBusyMode(Take(s, steps[0]), steps[1..]))
  }

  predicate NoBusy(s: State) {
    && s.control.internalMode != Some(Busy) && s.shared.requested != Some(Busy)
    && (s.main.Storing? ==> s.main.mode != Busy)
  }

  lemma StepKeepsNoBusy(s: State, step: Step)
    requires Inv(s) && NoBusy(s) && CanTake(s, step)
    requires Busy !in s.env.settings.modelist && Busy !in Take(s, step).env.settings.modelist
    ensures NoBusy(Take(s, step))
  {
    match step
    case Happen(ev) =>
      HandleStartsAtMost(s, ev);
      var c, e := ControlOf(s.control, s.env, ev), EnvOf(s.env, ev);
      if !Retains(c, e) {
        WantedIsKnown(c, e);
      }
    case _ =>
  }

  /** As long as no configured mode is called "busy", a settled daemon never announces it. */
  lemma {:induction false} NeverBusyAtRest(s: State, steps: seq<Step>)
    requires Inv(s) && NoBusy(s) && IsRun(s, steps) && ListsNoBusyMode(s, steps)
    ensures NoBusy(After(s, steps))
    ensures Quiescent(After(s, steps)) ==> After(s, steps).control.externalMode != Some(Busy)
    decreases steps
  {
    if |steps| > 0 {
      StepKeepsNoBusy(s, steps[0]);
      StepKeepsInv(s, steps[0]);
      NeverBusyAtRest(Take(s, steps[0]), steps[1..]);
    }
  }

  // ---- bailing out --------------------------------------------------------------------------------

  /** Carrying out a snapshot that has been superseded, before any cleanup. */
  predicate BeforeCleanup(w: WorkerPc) {
    w.Leaving? || w.CheckingPolicy? || w.LookingUp? || w.Entering? || w.Awaiting? || w.Completing? || w.Failing?
  }

  /** A superseded switch always sees the bailout request, although the flags are reset outside the lock;
      and the flag means exactly: superseded, or flagged between the reset and the snapshot (the request then
      was stored in between, too, or just before the reset). */
  lemma BailoutMeaning(s: State)
    requires Reachable(s) && Switching(s.worker).Some? && !s.main.Flagging?
    ensures s.shared.bailoutRequested <==> Stale(s) || s.past.cleared < s.past.snapshot
    ensures BeforeCleanup(s.worker) ==> (BailingOut(s) <==> Stale(s) || s.past.cleared < s.past.snapshot)
  {
    ReachableKeepsInv(s);
  }

  /** A superseded switch does not wait any longer: what is not ready by then fails at once. */
  lemma SupersededWaitEnds(s: State, ok: bool)
    requires Reachable(s) && s.worker.Awaiting? && Stale(s) && !s.main.Flagging?
    ensures WorkerNext(s, ok).worker == if ok then Completing(s.worker.mode) else Failing(s.worker.mode)
  {
    BailoutMeaning(s);
  }

  /** A wait fails only when its time is up or the worker is told to bail out. */
  lemma WaitFailsOnlyIf(s: State, ok: bool)
    requires Reachable(s) && s.worker.Awaiting? && !s.main.Flagging? && WorkerNext(s, ok).worker.Failing?
    ensures !ok && (s.worker.naps == 0 || Stale(s) || s.past.cleared < s.past.snapshot)
  {
    BailoutMeaning(s);
  }

  predicate StaysInIteration(s: State, steps: seq<Step>)
    requires IsRun(s, steps)
    decreases steps
  {
    !s.worker.ClearingHandled? && (|steps| > 0 ==> StaysInIteration(Take(s, steps[0]), steps[1..]))
  }

  /** Once failure cleanup has started, nothing the main thread does makes the worker bail out of it. */
  lemma {:induction false} CleanupIsNotInterrupted(s: State, steps: seq<Step>)
    requires Inv(s) && (s.worker.CleaningUp? || s.shared.bailoutHandled)
    requires IsRun(s, steps) && StaysInIteration(s, steps)
    ensures After(s, steps).shared.bailoutHandled && !BailingOut(After(s, steps))
    decreases steps
  {
    if |steps| > 0 {
      StepKeepsInv(s, steps[0]);
      if steps[0].Happen? {
        HandleStartsAtMost(s, steps[0].event);
      }
      CleanupIsNotInterrupted(Take(s, steps[0]), steps[1..]);
    }
  }

  // ---- enter and leave ----------------------------------------------------------------------------

  /** Mode data put in use is left exactly once before the next is put in use, on every path; between
      switches it is there exactly when a dynamic mode is active, and then it is that mode's. */
  lemma EnterLeavePairing(s: State)
    requires Reachable(s)
    ensures Pairing(s.past.hardware) == Some(s.shared.modeData)
    ensures Switching(s.worker).None? ==> s.shared.modeData == DataFor(s.shared.activated)
  {
    ReachableKeepsInv(s);
  }

  // ---- convergence --------------------------------------------------------------------------------

  function MainWork(m: MainPc): nat {
    match m
    case Idle => 0
    case Storing(_) => 21 + WAIT_NAPS
    case Flagging(_) => 20 + WAIT_NAPS
    case Waking(_) => 19 + WAIT_NAPS
    case Replying => 1
  }

  /** The current switch, at most one more wakeup, and the replies; the counter values do not matter. */
  function Work(s: State): nat {
    WorkerWork(s.worker) + MainWork(s.main) + (if s.shared.wakeups > 0 then 18 + WAIT_NAPS else 0) + (if s.shared.replies > 0 then 2 else 0)
  }

  predicate AllQuiet(steps: seq<Step>) {
    forall i :: 0 <= i < |steps| ==> !steps[i].Happen?
  }

  lemma WorkerComesCloser(s: State, ok: bool)
    ensures s.worker.Waiting? || WorkerWork(WorkerNext(s, ok).worker) < WorkerWork(s.worker)
  {
  }

  lemma WorkerLeavesMainAlone(s: State, ok: bool)
    ensures var r := WorkerNext(s, ok);
            && r.main == s.main && r.shared.wakeups == (if s.worker.Waiting? then 0 else s.shared.wakeups)
            && r.shared.replies == s.shared.replies + if s.worker.Notifying? then 1 else 0
  {
  }

  lemma WorkerStepWorks(s: State, ok: bool)
    requires WorkerEnabled(s)
    ensures Work(WorkerNext(s, ok)) < Work(s)
  {
    WorkerComesCloser(s, ok);
    WorkerLeavesMainAlone(s, ok);
  }

  lemma QuietStepWorks(s: State, step: Step)
    requires CanTake(s, step) && !step.Happen?
    ensures Work(Take(s, step)) < Work(s)
  {
    if step.WorkerStep? {
      WorkerStepWorks(s, step.ok);
    }
  }

  /** Without further events the protocol makes at most Work(s) steps. */
  lemma {:induction false} QuietRunsEnd(s: State, steps: seq<Step>)
    requires IsRun(s, steps) && AllQuiet(steps)
    ensures |steps| + Work(After(s, steps)) <= Work(s)
    decreases steps
  {
    if |steps| > 0 {
      QuietStepWorks(s, steps[0]);
      QuietRunsEnd(Take(s, steps[0]), steps[1..]);
    }
  }

  /** ...and it never stops before everything is settled: neither thread waits for the other in vain. */
  lemma Progress(s: State, ok: bool)
    requires !Quiescent(s)
    ensures CanTake(s, Reply) || CanTake(s, MainStep) || CanTake(s, WorkerStep(ok))
  {
  }

  /** Left alone, every reachable state settles, within 37 steps if the main loop is idle, naps not counted. */
  lemma {:induction false} Converges(s: State) returns (steps: seq<Step>)
    ensures IsRun(s, steps) && AllQuiet(steps) && Quiescent(After(s, steps))
    ensures |steps| <= Work(s) && (s.main.Idle? ==> |steps| <= 37 + 2 * WAIT_NAPS)
    decreases Work(s)
  {
    if Quiescent(s) {
      steps := [];
    } else {
      Progress(s, true);
      var step := if CanTake(s, Reply) then Reply else if CanTake(s, MainStep) then MainStep else WorkerStep(true);
      QuietStepWorks(s, step);
      var rest := Converges(Take(s, step));
      steps := [step] + rest;
      assert steps[1..] == rest;
      QuietRunsEnd(s, steps);
    }
  }

  /** No thread can move unless something new happens. */
  predicate NothingToDo(s: State) {
    !CanTake(s, Reply) && !CanTake(s, MainStep) && !CanTake(s, WorkerStep(true)) && !CanTake(s, WorkerStep(false))
  }

  lemma {:induction false} Requested(s: State, steps: seq<Step>)
    requires IsRun(s, steps) && AllQuiet(steps) && s.shared.requested.Some?
    ensures After(s, steps).shared.requested.Some?
    decreases steps
  {
    if |steps| > 0 {
      Requested(Take(s, steps[0]), steps[1..]);
    }
  }

  /** Every way of leaving a reachable state alone until nothing more happens ends in agreement, soon. */
  lemma SettlesInAgreement(s: State, steps: seq<Step>)
    requires Reachable(s) && s.shared.requested.Some? && IsRun(s, steps) && AllQuiet(steps)
    requires NothingToDo(After(s, steps))
    ensures |steps| <= 58 + 3 * WAIT_NAPS
    ensures var r := After(s, steps);
            && Quiescent(r) && r.shared.requested.Some?
            && r.control.internalMode == r.control.targetMode == r.shared.requested
            && r.control.externalMode == Some(ExternalMode(r.shared.requested.value))
            && r.shared.activated == Some(HardwareMode(r.shared.requested.value))
  {
    var r := After(s, steps);
    ReachableKeepsInv(s);
    RunKeepsInv(s, steps);
    QuietRunsEnd(s, steps);
    Requested(s, steps);
    if !Quiescent(r) {
      Progress(r, true);
    }
  }

  // ---- which request wins -------------------------------------------------------------------------

  /** The mode this step decides on, if it does. */
  function Decision(s: State, step: Step): Option<Mode>
    requires CanTake(s, step)
  {
    match step
    case Happen(ev) =>
      var c, e := ControlOf(s.control, s.env, ev), EnvOf(s.env, ev);
      if Rethinks(s, ev) && !Retains(c, e) then Some(Wanted(c, e)) else None
    case _ => None
  }

  function LastDecision(s: State, steps: seq<Step>): Option<Mode>
    requires IsRun(s, steps)
    decreases steps
  {
    if |steps| == 0 then None
    else
      var later := LastDecision(Take(s, steps[0]), steps[1..]);
      if later.Some? then later else Decision(s, steps[0])
  }

  lemma {:induction false} WantedIsLastDecision(s: State, steps: seq<Step>)
    requires IsRun(s, steps)
    ensures var d := LastDecision(s, steps);
            After(s, steps).past.wanted == if d.Some? then d else s.past.wanted
    decreases steps
  {
    if |steps| > 0 {
      WantedIsLastDecision(Take(s, steps[0]), steps[1..]);
    }
  }

  /** No switch takes the failure path, and charging can always be activated. */
  predicate FailureFree(s: State, steps: seq<Step>)
    requires IsRun(s, steps)
    decreases steps
  {
    |steps| > 0 ==>
      && (steps[0].WorkerStep? ==> !s.worker.Failing? && (s.worker.GoingToCharging? ==> steps[0].ok))
      && FailureFree(Take(s, steps[0]), steps[1..])
  }

  predicate NotFailing(s: State) {
    && !s.past.overridden && !s.worker.CleaningUp? && !s.worker.Deciding?
    && (s.worker.GoingToCharging? || s.worker.Committing? ==> s.worker.override.None?)
  }

  lemma {:induction false} FailureFreeRunsNeverOverride(s: State, steps: seq<Step>)
    requires NotFailing(s) && IsRun(s, steps) && FailureFree(s, steps)
    ensures NotFailing(After(s, steps))
    decreases steps
  {
    if |steps| > 0 {
      if steps[0].Happen? {
        HandleStartsAtMost(s, steps[0].event);
      }
      FailureFreeRunsNeverOverride(Take(s, steps[0]), steps[1..]);
    }
  }

  /** However requests coalesce, a failure-free run that settles announces the last mode decided on. */
  lemma LastRequestWins(e: Env, steps: seq<Step>)
    requires IsRun(Initial(e), steps) && FailureFree(Initial(e), steps) && Quiescent(After(Initial(e), steps))
    requires LastDecision(Initial(e), steps).Some?
    ensures var s, m := After(Initial(e), steps), LastDecision(Initial(e), steps).value;
            s.control.externalMode == Some(ExternalMode(m)) && s.shared.activated == Some(HardwareMode(m))
  {
    InitialInv(e);
    RunKeepsInv(Initial(e), steps);
    FailureFreeRunsNeverOverride(Initial(e), steps);
    WantedIsLastDecision(Initial(e), steps);
  }

  /** The fallback mode committed since a request was last stored, given that before this step it was f. */
  function FallbackAfter(s: State, step: Step, f: Option<Mode>): Option<Mode> {
    if step.MainStep? && s.main.Storing? && s.shared.requested != Some(s.main.mode) then None
    else if step.WorkerStep? && s.worker.Committing? && s.worker.override.Some? then s.worker.override
    else f
  }

  function Fallback(s: State, steps: seq<Step>, f: Option<Mode>): Option<Mode>
    requires IsRun(s, steps)
    decreases steps
  {
    if |steps| == 0 then f else Fallback(Take(s, steps[0]), steps[1..], FallbackAfter(s, steps[0], f))
  }

  /** f is what became of the last stored request. */
  predicate FallenBackTo(s: State, f: Option<Mode>) {
    (s.past.overridden <==> f.Some?) && (f.Some? ==> s.shared.requested == f)
  }

  lemma FallbackStep(s: State, step: Step, f: Option<Mode>)
    requires CanTake(s, step) && FallenBackTo(s, f)
    ensures FallenBackTo(Take(s, step), FallbackAfter(s, step, f))
  {
    if step.Happen? {
      HandleStartsAtMost(s, step.event);
    }
  }

  lemma {:induction false} FallbackIsRequested(s: State, steps: seq<Step>, f: Option<Mode>)
    requires IsRun(s, steps) && FallenBackTo(s, f)
    ensures FallenBackTo(After(s, steps), Fallback(s, steps, f))
    decreases steps
  {
    if |steps| > 0 {
      FallbackStep(s, steps[0], f);
      FallbackIsRequested(Take(s, steps[0]), steps[1..], FallbackAfter(s, steps[0], f));
    }
  }

  /** In general: in a run that settles, the last mode decided on is what is announced if and only if no
      failing switch committed a fallback after the last request was stored, or the last such fallback is
      that very mode. A fallback that was committed is announced; it is charging or undefined. */
  lemma WhichRequestWins(e: Env, steps: seq<Step>)
    requires IsRun(Initial(e), steps) && Quiescent(After(Initial(e), steps))
    requires LastDecision(Initial(e), steps).Some?
    ensures var s, last, f := After(Initial(e), steps), LastDecision(Initial(e), steps), Fallback(Initial(e), steps, None);
            && (s.control.externalMode == last <==> f.None? || f == last)
            && (f.Some? ==> s.control.externalMode == f && (f == Some(Charging) || f == Some(Undefined)))
  {
    InitialInv(e);
    RunKeepsInv(Initial(e), steps);
    FallbackIsRequested(Initial(e), steps, None);
    WantedIsLastDecision(Initial(e), steps);
  }

  /** What re-evaluating the mode does to the control state. */
  lemma RethinkEffect(s: State)
    requires s.main.Idle?
    ensures var r := Rethink(s); var c := s.control;
            && r.env == s.env.(settings := r.env.settings)
            && r.control.enabled == c.enabled
            && r.control.inRescue == (if c.enabled then c.cable.PcConnected? && InRescue(c, s.env) else c.inRescue)
            && (if Retains(c, s.env)
                then r.control.internalMode == c.internalMode && r.control.userForMode == c.userForMode && r.past == s.past
                else r.control.internalMode == Some(Wanted(c, s.env)) && r.control.userForMode == s.env.user &&
                     r.past.enteredBy == if c.internalMode == r.control.internalMode then s.past.enteredBy else s.env.user)
  {
  }

  // ---- device lock --------------------------------------------------------------------------------

  predicate NonStatic(m: Option<Mode>) {
    m.Some? && !IsStatic(m.value)
  }

  /** No data may be exported, and neither diagnostic nor rescue mode is active. */
  predicate Locked(s: State) {
    !CanExport(s.env) && !s.env.diag && !s.control.inRescue
  }

  predicate LockedThroughout(s: State, steps: seq<Step>)
    requires IsRun(s, steps)
    decreases steps
  {
    !CanExport(s.env) && !s.env.diag && (|steps| > 0 ==> LockedThroughout(Take(s, steps[0]), steps[1..]))
  }

  /** No step of the run makes a mode that is not static the current one. */
  predicate NeverEnters(s: State, steps: seq<Step>)
    requires IsRun(s, steps)
    decreases steps
  {
    |steps| > 0 ==>
      var r := Take(s, steps[0]);
      && (NonStatic(r.control.internalMode) ==> r.control.internalMode == s.control.internalMode)
      && NeverEnters(r, steps[1..])
  }

  lemma LockedRethink(s: State)
    requires s.main.Idle? && Locked(s)
    ensures !Retains(s.control, s.env) ==>
              IsStatic(Wanted(s.control, s.env)) || s.control.internalMode == Some(Wanted(s.control, s.env))
  {
    if ReadsSettings(s.control, s.env) {
      LockedDecision(s.control, s.env);
    }
  }

  lemma LockedEvent(s: State, ev: Event)
    requires s.main.Idle? && Locked(s)
    requires !CanExport(Handle(s, ev).env) && !Handle(s, ev).env.diag
    ensures Locked(Handle(s, ev))
    ensures var m := Handle(s, ev).control.internalMode; NonStatic(m) ==> m == s.control.internalMode
  {
    var s1 := s.(env := EnvOf(s.env, ev), control := ControlOf(s.control, s.env, ev));
    if Rethinks(s, ev) {
      RethinkEffect(s1);
      LockedRethink(s1);
    }
  }

  lemma LockedStep(s: State, step: Step)
    requires Inv(s) && CanTake(s, step) && Locked(s)
    requires !CanExport(Take(s, step).env) && !Take(s, step).env.diag
    ensures Locked(Take(s, step))
    ensures var m := Take(s, step).control.internalMode; NonStatic(m) ==> m == s.control.internalMode
  {
    match step
    case Happen(ev) => LockedEvent(s, ev);
    case _ =>
  }

  /** Lock safety: while exporting stays forbidden, no interleaving of cable, user, settings, selection,
      timer and worker activity enters a mode that could expose data; at most the current one is kept. */
  lemma {:induction false} LockSafety(s: State, steps: seq<Step>)
    requires Inv(s) && Locked(s) && IsRun(s, steps) && LockedThroughout(s, steps)
    ensures NeverEnters(s, steps)
    ensures var m := After(s, steps).control.internalMode; NonStatic(m) ==> m == s.control.internalMode
    decreases steps
  {
    if |steps| > 0 {
      LockedStep(s, steps[0]);
      StepKeepsInv(s, steps[0]);
      LockSafety(Take(s, steps[0]), steps[1..]);
    }
  }

  predicate NoExportThroughout(s: State, steps: seq<Step>)
    requires IsRun(s, steps)
    decreases steps
  {
    !CanExport(s.env) && (|steps| > 0 ==> NoExportThroughout(Take(s, steps[0]), steps[1..]))
  }

  predicate SetsNoData(added: seq<HwEvent>) {
    forall i :: 0 <= i < |added| ==> !added[i].DataSet?
  }

  lemma LockedHardwareStep(s: State, step: Step) returns (added: seq<HwEvent>)
    requires CanTake(s, step) && !CanExport(s.env) && !s.worker.LookingUp?
    ensures !Take(s, step).worker.LookingUp?
    ensures Take(s, step).past.hardware == s.past.hardware + added && SetsNoData(added)
    ensures var data := Take(s, step).shared.modeData; data.None? || data == s.shared.modeData
  {
    added := [];
    match step
    case Happen(ev) => HandleStartsAtMost(s, ev);
    case WorkerStep(_) =>
      if s.worker.Leaving? || s.worker.CleaningUp? {
        added := if s.shared.modeData.Some? then [Left(s.shared.modeData.value)] else [];
        added := if s.worker.Leaving? then added + [ListsSwitched] else added;
      }
    case _ =>
  }

  /** The hardware side: while exporting stays forbidden, diagnosis included, a worker that has not just
      passed its policy check puts no mode data in use; what is in use is what was, or nothing. */
  lemma {:induction false} LockedHardware(s: State, steps: seq<Step>) returns (added: seq<HwEvent>)
    requires IsRun(s, steps) && NoExportThroughout(s, steps) && !s.worker.LookingUp?
    ensures After(s, steps).past.hardware == s.past.hardware + added && SetsNoData(added)
    ensures var data := After(s, steps).shared.modeData; data.None? || data == s.shared.modeData
    decreases steps
  {
    added := [];
    if |steps| > 0 {
      var first := LockedHardwareStep(s, steps[0]);
      var rest := LockedHardware(Take(s, steps[0]), steps[1..]);
      added := first + rest;
    }
  }

  // ---- users --------------------------------------------------------------------------------------

  predicate Ordinary(e: Env) {
    !e.shutdown && !e.diag && !e.rescue
  }

  predicate OrdinaryThroughout(s: State, steps: seq<Step>)
    requires IsRun(s, steps)
    decreases steps
  {
    Ordinary(s.env) && (|steps| > 0 ==> OrdinaryThroughout(Take(s, steps[0]), steps[1..]))
  }

  predicate Owned(s: State) {
    && !s.control.inRescue
    && (!s.control.enabled ==> s.control.internalMode.None?)
    && (NonStatic(s.control.internalMode) ==> s.past.enteredBy == s.env.user && s.control.userForMode == s.env.user)
  }

  lemma NotHandedOver(c: Control, e: Env)
    requires ReadsSettings(c, e) && c.pendingUserChange && c.userForMode != e.user
    ensures c.internalMode == Some(Wanted(c, e)) ==> IsStatic(Wanted(c, e))
  {
    var e1 := EnvAfterLookup(c, e);
    var m := Allowed(Prompted(Preferred(c, e), e1), e1);
    assert Wanted(c, e) == LockChecked(OwnerChecked(m, c, e1), c, e1);
  }

  /** Right after a change of user only a static mode can be chosen. */
  lemma NewUserStartsStatic(s: State)
    requires Ordinary(s.env) && !s.control.inRescue && s.control.selectedMode.None?
    requires s.control.pendingUserChange == s.env.initDone
    requires NonStatic(s.control.internalMode) ==> s.control.userForMode != s.env.user
    ensures !Retains(s.control, s.env) ==> IsStatic(Wanted(s.control, s.env))
  {
    var c, e := s.control, s.env;
    if ReadsSettings(c, e) {
      LockedDecision(c, e);
      if c.internalMode == Some(Wanted(c, e)) && !IsStatic(Wanted(c, e)) {
        NotHandedOver(c, e);
      }
    }
  }

  lemma OwnedAfterUserChange(s: State, ev: Event)
    requires Inv(s) && Owned(s) && s.main.Idle? && Possible(s, ev) && ev.UserChanged? && Ordinary(s.env)
    ensures Owned(Handle(s, ev)) && !NonStatic(Handle(s, ev).control.internalMode)
  {
    var s1 := s.(env := EnvOf(s.env, ev), control := ControlOf(s.control, s.env, ev));
    RethinkEffect(s1);
    NewUserStartsStatic(s1);
  }

  lemma OwnedAfterEvent(s: State, ev: Event)
    requires Inv(s) && Owned(s) && s.main.Idle? && Possible(s, ev) && !ev.UserChanged?
    requires Ordinary(s.env) && Ordinary(Handle(s, ev).env)
    ensures Owned(Handle(s, ev))
  {
    RethinkEffect(s.(env := EnvOf(s.env, ev), control := ControlOf(s.control, s.env, ev)));
  }

  lemma OwnedStep(s: State, step: Step)
    requires Inv(s) && Owned(s) && CanTake(s, step) && Ordinary(s.env) && Ordinary(Take(s, step).env)
    ensures Owned(Take(s, step))
    ensures step.Happen? && step.event.UserChanged? ==> !NonStatic(Take(s, step).control.internalMode)
  {
    match step
    case Happen(ev) =>
      if ev.UserChanged? {
        OwnedAfterUserChange(s, ev);
      } else {
        OwnedAfterEvent(s, ev);
      }
    case _ =>
  }

  /** Outside shutdown, diagnostic and rescue modes, a mode that is not static was entered by the user who
      is current now: it never outlives a change of user. */
  lemma {:induction false} UserOwnership(s: State, steps: seq<Step>)
    requires Inv(s) && Owned(s) && IsRun(s, steps) && OrdinaryThroughout(s, steps)
    ensures Owned(After(s, steps))
    decreases steps
  {
    if |steps| > 0 {
      OwnedStep(s, steps[0]);
      StepKeepsInv(s, steps[0]);
      UserOwnership(Take(s, steps[0]), steps[1..]);
    }
  }

  lemma OwnershipFromStart(e: Env, steps: seq<Step>)
    requires IsRun(Initial(e), steps) && OrdinaryThroughout(Initial(e), steps)
    ensures var s := After(Initial(e), steps);
            NonStatic(s.control.internalMode) ==> s.past.enteredBy == s.control.userForMode == s.env.user
  {
    InitialInv(e);
    UserOwnership(Initial(e), steps);
  }

  /** The exceptions, exactly: which current modes survive a change of user. */
  lemma SurvivesUserChange(s: State, uid: int, m: Mode)
    requires s.main.Idle? && s.control.enabled && uid != s.env.user
    requires s.control.internalMode == Some(m) && !IsStatic(m) && s.control.userForMode == s.env.user
    ensures Handle(s, UserChanged(uid)).control.internalMode == Some(m) <==>
            && s.control.cable.PcConnected?
            && if s.env.rescue || s.control.inRescue then m.Developer?
               else if s.env.diag then s.env.settings.modelist != [] && s.env.settings.modelist[0] == m
               else s.env.initDone && s.env.shutdown
  {
  }
}
