/** The inductive invariant of the mode switch protocol, kept by every step of either thread. */
module ProtocolInvariant {
  import opened Basics
  import opened Modes
  import opened Policy
  import opened Protocol

  /** Main has stored a request the worker has not copied yet. */
  predicate Stale(s: State) {
    s.past.stores > s.past.snapshot
  }

  /** The mode the worker is switching to. */
  function Switching(w: WorkerPc): Option<Mode> {
    match w
    case Leaving(m) => Some(m)
    case CheckingPolicy(m) => Some(m)
    case LookingUp(m) => Some(m)
    case Entering(m) => Some(m)
    case Awaiting(m, _) => Some(m)
    case Completing(m) => Some(m)
    case Failing(m) => Some(m)
    case CleaningUp(m) => Some(m)
    case Deciding(m) => Some(m)
    case GoingToCharging(m, _) => Some(m)
    case Committing(m, _) => Some(m)
    case _ => None
  }

  predicate AboutToSnapshot(w: WorkerPc) {
    w.ClearingRequested? || w.ClearingHandled? || w.Snapshotting?
  }

  predicate ReplyComing(s: State) {
    s.shared.replies > 0 || s.worker.Notifying? || s.main.Replying?
  }

  predicate Outstanding(s: State) {
    !Quiescent(s)
  }

  /** Every stored request is flagged and signalled; the bailout flag says exactly whether a request was
      flagged after the worker last cleared the flag. */
  predicate Counted(s: State) {
    && s.past.stores == s.past.flags + (if s.main.Flagging? then 1 else 0)
    && s.past.cleared <= s.past.flags
    && (s.shared.bailoutRequested <==> s.past.flags > s.past.cleared)
    && s.past.snapshot <= s.past.stores
    && (Switching(s.worker).Some? ==> s.past.cleared <= s.past.snapshot)
    && (s.past.stores > 0 <==> s.shared.requested.Some?)
    && (s.shared.wakeups > 0 || !s.worker.Waiting? || s.shared.replies > 0 || s.main.Replying? || MainHoldsLock(s)
        ==> s.past.stores > 0)
  }

  predicate Woken(s: State) {
    Stale(s) ==> s.shared.wakeups > 0 || MainHoldsLock(s) || AboutToSnapshot(s.worker)
  }

  /** A request that is not stale is being carried out, or has been. */
  predicate CarriedOut(s: State) {
    !Stale(s) && s.shared.requested.Some? ==>
      var hw := HardwareMode(s.shared.requested.value);
      if Switching(s.worker).Some? then Switching(s.worker) == Some(hw) else s.shared.activated == Some(hw)
  }

  predicate BailoutPhase(s: State) {
    match s.worker
    case Snapshotting => !s.shared.bailoutHandled
    case Leaving(_) => !s.shared.bailoutHandled
    case CheckingPolicy(_) => !s.shared.bailoutHandled
    case LookingUp(_) => !s.shared.bailoutHandled
    case Entering(_) => !s.shared.bailoutHandled
    case Awaiting(_, _) => !s.shared.bailoutHandled
    case Completing(_) => !s.shared.bailoutHandled
    case Failing(_) => !s.shared.bailoutHandled
    case CleaningUp(_) => s.shared.bailoutHandled
    case Deciding(_) => s.shared.bailoutHandled
    case GoingToCharging(_, override) => override.Some? ==> s.shared.bailoutHandled
    case _ => true
  }

  function Paired(so: Option<Option<Mode>>, e: HwEvent): Option<Option<Mode>> {
    match so
    case None => None
    case Some(open) =>
      match e
      case DataSet(m) => if open.None? then Some(Some(m)) else None
      case Left(m) => if open == Some(m) then Some(None) else None
      case ListsSwitched => if open.None? then Some(None) else None
  }

  /** Some(open): properly alternating, with mode data open in use at the end; application lists are
      switched only while none is. */
  function Pairing(h: seq<HwEvent>): Option<Option<Mode>> {
    if |h| == 0 then Some(None) else Paired(Pairing(h[..|h| - 1]), h[|h| - 1])
  }

  function DataFor(activated: Option<Mode>): Option<Mode> {
    if activated.Some? && !IsChargingRequest(activated.value) then activated else None
  }

  predicate DataInPhase(s: State) {
    match s.worker
    case CheckingPolicy(m) => s.shared.modeData.None? && !IsChargingRequest(m)
    case LookingUp(m) => s.shared.modeData.None? && !IsChargingRequest(m)
    case Entering(m) => s.shared.modeData == Some(m) && !IsChargingRequest(m)
    case Awaiting(m, _) => s.shared.modeData == Some(m) && !IsChargingRequest(m)
    case Completing(m) => s.shared.modeData == Some(m) && !IsChargingRequest(m)
    case Failing(m) => s.shared.modeData.None? || s.shared.modeData == Some(m)
    case CleaningUp(m) => s.shared.modeData.None? || s.shared.modeData == Some(m)
    case Deciding(_) => s.shared.modeData.None?
    case GoingToCharging(m, override) => s.shared.modeData.None? && (override.None? ==> IsChargingRequest(m))
    case Committing(m, override) =>
      s.shared.modeData == if override.Some? then None else DataFor(Some(m))
    case _ => s.shared.modeData == DataFor(s.shared.activated)
  }

  predicate OverrideKnown(w: WorkerPc) {
    match w
    case GoingToCharging(_, Some(o)) => o.Charging? || o.Undefined?
    case Committing(_, Some(o)) => o.Charging? || o.Undefined?
    case _ => true
  }

  /** What main believes about the worker's slot. */
  predicate Agrees(s: State) {
    var c := s.control;
    && (s.main.Storing? ==> c.internalMode == Some(s.main.mode) && c.externalMode == Some(Busy))
    && (MainHoldsLock(s) ==> c.internalMode == s.shared.requested == Some(s.main.mode))
    && (!s.main.Storing? ==> c.internalMode == s.shared.requested || (s.past.overridden && ReplyComing(s)))
    && (!s.main.Storing? ==> (c.internalMode.Some? <==> s.shared.requested.Some?))
    && (s.shared.requested.Some? ==> c.internalMode.Some?)
    && (s.past.overridden ==> s.shared.requested == Some(Charging) || s.shared.requested == Some(Undefined))
  }

  predicate Remembers(s: State) {
    && (s.control.internalMode.Some? <==> s.past.wanted.Some?)
    && (s.main.Storing? || MainHoldsLock(s) ==> s.past.wanted == Some(s.main.mode))
    && (MainHoldsLock(s) ==> !s.past.overridden)
    && (!s.main.Storing? && !s.past.overridden ==> s.shared.requested == s.past.wanted)
  }

  /** What is announced over D-Bus. */
  predicate Announces(s: State) {
    var c := s.control;
    && c.targetMode == c.internalMode
    && (c.externalMode.Some? <==> c.internalMode.Some?)
    && (c.externalMode == Some(Busy) || c.externalMode == c.internalMode || c.internalMode.None?)
    && (c.externalMode != c.internalMode ==> Outstanding(s))
  }

  predicate Inv(s: State) {
    && Counted(s) && Woken(s) && CarriedOut(s)
    && BailoutPhase(s) && OverrideKnown(s.worker)
    && Pairing(s.past.hardware) == Some(s.shared.modeData) && DataInPhase(s)
    && Agrees(s) && Remembers(s) && Announces(s)
  }

  // ---- what a main loop event can do to the shared picture ------------------------------------------

  /** A main loop event either leaves modes and announcements alone, or starts a new request. */
  predicate StartsAtMost(s: State, r: State) {
    && r.shared == s.shared && r.worker == s.worker
    && r.past == s.past.(wanted := r.past.wanted, enteredBy := r.past.enteredBy)
    && (match r.main
        case Idle =>
          && r.control.internalMode == s.control.internalMode
          && r.control.externalMode == s.control.externalMode
          && r.control.targetMode == s.control.targetMode
          && r.past.enteredBy == s.past.enteredBy
          && (r.past.wanted == s.past.wanted || (r.past.wanted.Some? && r.past.wanted == s.control.internalMode))
        case Storing(m) =>
          && s.control.internalMode != Some(m)
          && r.control.internalMode == r.control.targetMode == r.past.wanted == Some(m)
          && r.control.externalMode == Some(Busy)
        case _ => false)
  }

  lemma RethinkStartsAtMost(s: State)
    requires s.main.Idle?
    ensures StartsAtMost(s, Rethink(s))
  {
  }

  lemma HandleStartsAtMost(s: State, ev: Event)
    requires s.main.Idle?
    ensures StartsAtMost(s, Handle(s, ev))
  {
    RethinkStartsAtMost(s.(env := EnvOf(s.env, ev), control := ControlOf(s.control, s.env, ev)));
  }

  lemma StartKeepsInv(s: State, r: State)
    requires Inv(s) && s.main.Idle? && StartsAtMost(s, r)
    ensures Inv(r)
  {
  }

  lemma MainKeepsCounts(s: State)
    requires Counted(s) && Woken(s) && CarriedOut(s) && Agrees(s) && !s.main.Idle?
    ensures var r := MainNext(s); Counted(r) && Woken(r) && CarriedOut(r)
  {
  }

  lemma MainKeepsAgreement(s: State)
    requires Counted(s) && Agrees(s) && Remembers(s) && Announces(s) && !s.main.Idle?
    ensures var r := MainNext(s); Agrees(r) && Remembers(r) && Announces(r)
  {
  }

  lemma MainKeepsInv(s: State)
    requires Inv(s) && !s.main.Idle?
    ensures Inv(MainNext(s))
  {
    MainKeepsCounts(s);
    MainKeepsAgreement(s);
  }

  lemma PairingGrows(h: seq<HwEvent>, e: HwEvent)
    ensures Pairing(h + [e]) == Paired(Pairing(h), e)
  {
    assert (h + [e])[..|h|] == h;
  }

  lemma LeaveKeepsPairing(s: State)
    requires Pairing(s.past.hardware) == Some(s.shared.modeData)
    ensures var r := LeaveDynamicMode(s); Pairing(r.past.hardware) == Some(None) && r.shared.modeData.None?
  {
    if s.shared.modeData.Some? {
      PairingGrows(s.past.hardware, Left(s.shared.modeData.value));
    }
  }

  lemma WorkerKeepsCounts(s: State, ok: bool)
    requires Counted(s) && Woken(s) && BailoutPhase(s) && OverrideKnown(s.worker) && WorkerEnabled(s)
    ensures var r := WorkerNext(s, ok); Counted(r) && Woken(r) && BailoutPhase(r) && OverrideKnown(r.worker)
  {
  }

  lemma WorkerKeepsPairing(s: State, ok: bool)
    requires Pairing(s.past.hardware) == Some(s.shared.modeData) && DataInPhase(s) && WorkerEnabled(s)
    ensures var r := WorkerNext(s, ok); Pairing(r.past.hardware) == Some(r.shared.modeData)
  {
    match s.worker
    case Leaving(_) =>
      LeaveKeepsPairing(s);
      PairingGrows(LeaveDynamicMode(s).past.hardware, ListsSwitched);
    case CleaningUp(_) => LeaveKeepsPairing(s);
    case LookingUp(m) => PairingGrows(s.past.hardware, DataSet(m));
    case _ =>
  }

  lemma WorkerKeepsData(s: State, ok: bool)
    requires DataInPhase(s) && Counted(s) && CarriedOut(s) && OverrideKnown(s.worker) && WorkerEnabled(s)
    ensures var r := WorkerNext(s, ok); DataInPhase(r) && CarriedOut(r)
  {
  }

  lemma WorkerKeepsAgreement(s: State, ok: bool)
    requires Counted(s) && OverrideKnown(s.worker) && Agrees(s) && Remembers(s) && Announces(s) && WorkerEnabled(s)
    ensures var r := WorkerNext(s, ok); Agrees(r) && Remembers(r) && Announces(r)
  {
  }

  lemma WorkerKeepsInv(s: State, ok: bool)
    requires Inv(s) && WorkerEnabled(s)
    ensures Inv(WorkerNext(s, ok))
  {
    WorkerKeepsCounts(s, ok);
    WorkerKeepsPairing(s, ok);
    WorkerKeepsData(s, ok);
    WorkerKeepsAgreement(s, ok);
  }

  lemma StepKeepsInv(s: State, step: Step)
    requires Inv(s) && CanTake(s, step)
    ensures Inv(Take(s, step))
  {
    match step
    case Happen(ev) =>
      HandleStartsAtMost(s, ev);
      StartKeepsInv(s, Handle(s, ev));
    case Reply =>
    case MainStep => MainKeepsInv(s);
    case WorkerStep(ok) => WorkerKeepsInv(s, ok);
  }

  lemma InitialInv(e: Env)
    ensures Inv(Initial(e))
  {
  }

  lemma {:induction false} RunKeepsInv(s: State, steps: seq<Step>)
    requires Inv(s) && IsRun(s, steps)
    ensures Inv(After(s, steps))
    decreases steps
  {
    if |steps| > 0 {
      StepKeepsInv(s, steps[0]);
      RunKeepsInv(Take(s, steps[0]), steps[1..]);
    }
  }
}
