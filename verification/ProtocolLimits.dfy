/** Where the protocol's guarantees end, shown by families of runs of the protocol itself. */
module ProtocolLimits {
  import opened Basics
  import opened Modes
  import opened Policy
  import opened Protocol
  import opened ProtocolInvariant
  import opened ProtocolLaws

  lemma Extend(s: State, steps: seq<Step>, step: Step) returns (longer: seq<Step>, r: State)
    requires IsRun(s, steps) && CanTake(After(s, steps), step)
    ensures longer == steps + [step]
    ensures IsRun(s, longer) && After(s, longer) == r == Take(After(s, steps), step)
  {
    longer := steps + [step];
    r := Take(After(s, steps), step);
    RunsCompose(s, steps, [step]);
  }

  /** Main hands its request over without the worker getting in between. */
  lemma Store(s: State, steps: seq<Step>) returns (longer: seq<Step>, r: State)
    requires IsRun(s, steps) && After(s, steps).main.Storing?
    requires After(s, steps).shared.requested != Some(After(s, steps).main.mode)
    ensures longer == steps + [MainStep, MainStep, MainStep]
    ensures IsRun(s, longer) && After(s, longer) == r
    ensures var t := After(s, steps);
            r == t.(main := Idle,
                    shared := t.shared.(requested := Some(t.main.mode), bailoutRequested := true, wakeups := t.shared.wakeups + 1),
                    past := t.past.(stores := t.past.stores + 1, overridden := false, flags := t.past.flags + 1))
  {
    longer, r := Extend(s, steps, MainStep);
    longer, r := Extend(s, longer, MainStep);
    longer, r := Extend(s, longer, MainStep);
  }

  /** Main has just stored its request, and raises the bailout flag and signals. */
  lemma Flag(s: State, steps: seq<Step>) returns (longer: seq<Step>, r: State)
    requires IsRun(s, steps) && After(s, steps).main.Flagging?
    ensures longer == steps + [MainStep, MainStep]
    ensures IsRun(s, longer) && After(s, longer) == r
    ensures var t := After(s, steps);
            r == t.(main := Idle, shared := t.shared.(bailoutRequested := true, wakeups := t.shared.wakeups + 1),
                    past := t.past.(flags := t.past.flags + 1))
  {
    longer, r := Extend(s, steps, MainStep);
    longer, r := Extend(s, longer, MainStep);
  }

  /** Main is about to flag its request for dynamic mode m, stored already or not yet, just after the worker,
      woken for an earlier request, has cleared the bailout flag and before it copies the requested mode.
      Another dynamic mode may be in use. */
  predicate InResetWindow(s: State, m: Mode) {
    && s.worker.ClearingHandled? && !IsChargingRequest(m)
    && ((s.main == Storing(m) && s.shared.requested != Some(m)) || (s.main == Flagging(m) && s.shared.requested == Some(m)))
    && s.shared.activated != Some(m)
    && s.control.internalMode == s.past.wanted == Some(m)
    && CanExport(s.env) && m in s.env.settings.modelist
    && s.past.stores >= s.past.snapshot
  }

  /** No call fails, and whatever is checked for readiness is ready. */
  predicate NothingFails(steps: seq<Step>) {
    forall i :: 0 <= i < |steps| && steps[i].WorkerStep? ==> steps[i].ok
  }

  /** What the steps between copying a request and its hardware call leave alone. */
  predicate SameRequest(t: State, r: State) {
    && r.control == t.control && r.env == t.env && r.main == t.main
    && r.shared.requested == t.shared.requested && r.shared.wakeups == t.shared.wakeups
    && r.shared.bailoutRequested == t.shared.bailoutRequested
    && r.past.wanted == t.past.wanted && r.past.stores == t.past.stores
  }

  lemma LeaveAndEnter(s: State, before: seq<Step>, m: Mode) returns (steps: seq<Step>, r: State)
    requires IsRun(s, before) && AllQuiet(before) && !IsChargingRequest(m)
    requires var t := After(s, before);
             && t.worker == Leaving(m) && t.main.Idle? && t.past.snapshot == t.past.stores
             && CanExport(t.env) && m in t.env.settings.modelist
    ensures IsRun(s, steps) && AllQuiet(steps) && (NothingFails(before) ==> NothingFails(steps)) && r == After(s, steps)
    ensures r.worker == Entering(m) && SameRequest(After(s, before), r)
    ensures r.shared.modeData == Some(m) && !Stale(r) && r.shared.bailoutHandled == After(s, before).shared.bailoutHandled
  {
    steps, r := Extend(s, before, WorkerStep(true));
    steps, r := Extend(s, steps, WorkerStep(true));
    steps, r := Extend(s, steps, WorkerStep(true));
  }

  /** A request for a dynamic mode, from being copied to its hardware call. */
  lemma CopyAndEnter(s: State, before: seq<Step>, m: Mode) returns (steps: seq<Step>, r: State)
    requires IsRun(s, before) && AllQuiet(before) && !IsChargingRequest(m)
    requires var t := After(s, before);
             && t.worker.Snapshotting? && t.main.Idle? && t.shared.requested == Some(m) && t.shared.activated != Some(m)
             && CanExport(t.env) && m in t.env.settings.modelist
    ensures IsRun(s, steps) && AllQuiet(steps) && (NothingFails(before) ==> NothingFails(steps)) && r == After(s, steps)
    ensures r.worker == Entering(m) && SameRequest(After(s, before), r)
    ensures r.shared.modeData == Some(m) && !Stale(r) && r.shared.bailoutHandled == After(s, before).shared.bailoutHandled
  {
    steps, r := Extend(s, before, WorkerStep(true));
    assert SameRequest(After(s, before), r);
    steps, r := LeaveAndEnter(s, steps, m);
  }

  /** A request landing in that window is copied, yet its own switch is told to bail out. */
  lemma FreshRequestBailsOut(s: State, m: Mode) returns (steps: seq<Step>, r: State)
    requires InResetWindow(s, m)
    ensures IsRun(s, steps) && AllQuiet(steps) && NothingFails(steps) && r == After(s, steps)
    ensures r.worker == Entering(m) && r.shared.requested == Some(m) && !Stale(r) && BailingOut(r)
    ensures r.main.Idle? && r.shared.wakeups > 0 && r.past.wanted == Some(m) && r.shared.modeData == Some(m)
    ensures r.control == s.control
  {
    if s.main.Storing? {
      steps, r := Store(s, []);
    } else {
      steps, r := Flag(s, []);
    }
    steps, r := Extend(s, steps, WorkerStep(true));
    steps, r := CopyAndEnter(s, steps, m);
  }

  /** A failed switch, up to the commit of the fallback mode. */
  lemma FailToCommit(s: State, before: seq<Step>) returns (steps: seq<Step>, r: State)
    requires IsRun(s, before) && AllQuiet(before)
    requires var t := After(s, before);
             t.worker.Failing? && t.main.Idle? && t.shared.requested.Some? && !t.shared.requested.value.Undefined?
    ensures IsRun(s, steps) && AllQuiet(steps) && r == After(s, steps)
    ensures steps == before + [WorkerStep(true), WorkerStep(true), WorkerStep(true), WorkerStep(true)]
    ensures r.worker == Committing(After(s, before).worker.mode, Some(Charging)) && SameRequest(After(s, before), r)
  {
    steps, r := Extend(s, before, WorkerStep(true));
    steps, r := Extend(s, steps, WorkerStep(true));
    steps, r := Extend(s, steps, WorkerStep(true));
    assert r.worker.GoingToCharging?;
    steps, r := Extend(s, steps, WorkerStep(true));
  }

  /** The hardware accepts the mode, but a daemon is not ready at once. */
  lemma NotReadyAtOnce(s: State, before: seq<Step>) returns (steps: seq<Step>, r: State)
    requires IsRun(s, before) && AllQuiet(before) && After(s, before).worker.Entering?
    ensures steps == before + [WorkerStep(true), WorkerStep(false)]
    ensures IsRun(s, steps) && AllQuiet(steps) && r == After(s, steps)
    ensures var t := After(s, before);
            r == t.(worker := if BailingOut(t) then Failing(t.worker.mode) else Awaiting(t.worker.mode, WAIT_NAPS - 1))
  {
    steps, r := Extend(s, before, WorkerStep(true));
    steps, r := Extend(s, steps, WorkerStep(false));
  }

  /** Elsewhere a daemon that gets ready while the worker naps is all it takes. */
  lemma WaitIsRewarded(s: State, before: seq<Step>) returns (steps: seq<Step>, r: State)
    requires IsRun(s, before) && AllQuiet(before) && After(s, before).worker.Entering? && !BailingOut(After(s, before))
    ensures steps == before + [WorkerStep(true), WorkerStep(false), WorkerStep(true), WorkerStep(true)]
    ensures IsRun(s, steps) && r == After(s, steps)
    ensures r == After(s, before).(worker := Committing(After(s, before).worker.mode, None))
  {
    steps, r := NotReadyAtOnce(s, before);
    steps, r := Extend(s, steps, WorkerStep(true));
    steps, r := Extend(s, steps, WorkerStep(true));
  }

  lemma Report(s: State, before: seq<Step>, m: Mode) returns (steps: seq<Step>, r: State)
    requires IsRun(s, before) && AllQuiet(before)
    requires var t := After(s, before);
             t.worker.Notifying? && t.main.Idle? && t.shared.wakeups == 0 && t.shared.requested == Some(m)
    ensures before <= steps && NothingFails(steps[|before|..])
    ensures IsRun(s, steps) && AllQuiet(steps) && r == After(s, steps)
    ensures Quiescent(r) && r.past.wanted == After(s, before).past.wanted && r.control.externalMode == Some(m)
    ensures r.env == After(s, before).env && r.control.cable == After(s, before).control.cable
  {
    steps, r := Extend(s, before, WorkerStep(true));
    steps, r := Extend(s, steps, Reply);
    steps, r := Extend(s, steps, MainStep);
  }

  /** A wakeup for a mode that is active already. */
  lemma NothingMoreToDo(s: State, before: seq<Step>, m: Mode) returns (steps: seq<Step>, r: State)
    requires IsRun(s, before) && AllQuiet(before) && IsStatic(m)
    requires var t := After(s, before);
             && t.worker.Waiting? && t.main.Idle? && t.shared.wakeups > 0
             && t.shared.requested == Some(m) && t.shared.activated == Some(Charging)
    ensures before <= steps && NothingFails(steps[|before|..])
    ensures IsRun(s, steps) && AllQuiet(steps) && r == After(s, steps)
    ensures Quiescent(r) && r.past.wanted == After(s, before).past.wanted && r.control.externalMode == Some(m)
    ensures r.env == After(s, before).env && r.control.cable == After(s, before).control.cable
  {
    steps, r := Extend(s, before, WorkerStep(true));
    steps, r := Extend(s, steps, WorkerStep(true));
    steps, r := Extend(s, steps, WorkerStep(true));
    steps, r := Extend(s, steps, WorkerStep(true));
    steps, r := Report(s, steps, m);
  }

  /** From the commit of a fallback mode to rest, when one more wakeup is pending. */
  lemma SettleAfterOverride(s: State, before: seq<Step>, fallback: Mode) returns (steps: seq<Step>, r: State)
    requires IsRun(s, before) && AllQuiet(before) && IsStatic(fallback)
    requires var t := After(s, before);
             t.worker.Committing? && t.worker.override == Some(fallback) && t.main.Idle? && t.shared.wakeups > 0
    ensures before <= steps && NothingFails(steps[|before|..])
    ensures IsRun(s, steps) && AllQuiet(steps) && r == After(s, steps)
    ensures Quiescent(r) && r.past.wanted == After(s, before).past.wanted && r.control.externalMode == Some(fallback)
    ensures r.env == After(s, before).env && r.control.cable == After(s, before).control.cable
  {
    steps, r := Extend(s, before, WorkerStep(true));   // commit
    steps, r := Extend(s, steps, WorkerStep(true));    // notify
    steps, r := NothingMoreToDo(s, steps, fallback);
  }

  /** A request landing in the window is lost, although nothing newer was ever requested and no call fails: it
      is enough that a daemon is not ready at the first check. */
  lemma FreshRequestIsLost(s: State, m: Mode) returns (enter: seq<Step>, steps: seq<Step>, r: State)
    requires InResetWindow(s, m)
    ensures IsRun(s, enter) && NothingFails(enter) && After(s, enter).worker == Entering(m)
    ensures IsRun(s, steps) && AllQuiet(steps) && r == After(s, steps)
    ensures enter + [WorkerStep(true), WorkerStep(false)] <= steps && NothingFails(steps[|enter| + 2..])
    ensures Quiescent(r) && r.past.wanted == Some(m) && r.control.externalMode == Some(Charging)
  {
    enter, r := FreshRequestBailsOut(s, m);
    steps, r := NotReadyAtOnce(s, enter);
    steps, r := FailToCommit(s, steps);
    steps, r := SettleAfterOverride(s, steps, Charging);
  }

  /** The cable is pulled between the moment a failing switch picks its fallback mode and the moment it
      commits it: the daemon settles on charging although the last decision was "undefined". */
  lemma DisconnectIsOverwritten(s: State) returns (steps: seq<Step>, r: State)
    requires s.worker.Committing? && s.worker.override == Some(Charging)
    requires s.main.Idle? && s.control.enabled && !s.control.cable.Disconnected?
    requires s.control.internalMode != Some(Undefined) && s.shared.requested != Some(Undefined)
    ensures IsRun(s, steps) && r == After(s, steps) && |steps| > 0
    ensures steps[0] == Happen(CableChanged(Disconnected)) && AllQuiet(steps[1..])
    ensures Quiescent(r) && r.control.cable.Disconnected?
    ensures r.past.wanted == Some(Undefined) && r.control.externalMode == Some(Charging)
  {
    var pull := Happen(CableChanged(Disconnected));
    assert IsRun(s, []) && After(s, []) == s;
    steps, r := Extend(s, [], pull);
    var t := r;
    assert t.main == Storing(Undefined);
    var rest;
    rest, r := Store(t, []);
    rest, r := SettleAfterOverride(t, rest, Charging);
    RunsCompose(s, [pull], rest);
    steps := [pull] + rest;
  }

  /** A daemon booting in rescue mode, with developer mode configured. */
  const RESCUE_BOOT: Env :=
    Env(0, false, false, false, false, true, false, Settings([Developer], {}, imap[], true))

  /** The worker takes a wakeup and clears the bailout flag. */
  lemma WakeUp(s: State, before: seq<Step>) returns (steps: seq<Step>, r: State)
    requires IsRun(s, before)
    requires var t := After(s, before); t.worker.Waiting? && t.shared.wakeups > 0
    ensures IsRun(s, steps) && (AllQuiet(before) ==> AllQuiet(steps)) && r == After(s, steps)
    ensures var t := After(s, before);
            r == t.(worker := ClearingHandled, shared := t.shared.(wakeups := 0, bailoutRequested := false),
                    past := t.past.(cleared := t.past.flags))
  {
    steps, r := Extend(s, before, WorkerStep(true));
    steps, r := Extend(s, steps, WorkerStep(true));
  }

  /** Both windows are reachable: here the first, on the first cable connection. */
  lemma ResetWindowIsReachable() returns (s: State)
    ensures Reachable(s) && InResetWindow(s, Developer)
  {
    var start := Initial(RESCUE_BOOT);
    var steps;
    steps, s := Extend(start, [], Happen(Enabled));
    assert s.main == Storing(Undefined);
    steps, s := Store(start, steps);
    steps, s := WakeUp(start, steps);
    var before := s;
    steps, s := Extend(start, steps, Happen(CableChanged(PcConnected)));
    assert Wanted(before.control.(cable := PcConnected), RESCUE_BOOT) == Developer;
  }

  /** ...and here the second, when the first switch to a dynamic mode fails. */
  lemma CommitWindowIsReachable() returns (s: State)
    ensures Reachable(s) && s.worker.Committing? && s.worker.override == Some(Charging)
    ensures s.main.Idle? && s.control.enabled && s.control.cable.PcConnected? && s.control.internalMode == Some(Developer)
    ensures s.shared.requested == Some(Developer)
  {
    var start := Initial(RESCUE_BOOT);
    var first, steps;
    first, s := Extend(start, [], Happen(CableChanged(PcConnected)));
    first, s := Extend(start, first, Happen(Enabled));
    assert s.main == Storing(Developer);
    var connected := s;
    steps, s := Store(connected, []);
    steps, s := WakeUp(connected, steps);
    steps, s := Extend(connected, steps, WorkerStep(true));
    steps, s := CopyAndEnter(connected, steps, Developer);
    steps, s := Extend(connected, steps, WorkerStep(false));
    steps, s := FailToCommit(connected, steps);
    RunsCompose(start, first, steps);
    assert IsRun(Initial(RESCUE_BOOT), first + steps);
  }
}
