/** Cable state tracking: what udev reports, what the daemon acts on, and the suspend blocking that has to
    outlive the delay between the two (src/usb_moded-udev.c, src/usb_moded.c).

    Times are in milliseconds. Timers fire when they are due; a pending timer's deadline is never passed. */
module Cable {
  import opened Basics

  const CABLE_CONNECTION_DELAY_MAXIMUM := 4000
  const SUSPEND_DELAY_DEFAULT_MS := 5000
  const SUSPEND_DELAY_MAXIMUM_MS := SUSPEND_DELAY_DEFAULT_MS * 2
  const MINIMUM_DELAY := 100

  datatype Timer = Timer(deadline: int, delay: int)

  datatype Signal = SigUsbConnected | SigUsbDisconnected | SigChargerConnected | SigChargerDisconnected

  /** Properties cached from the power supply, extcon and android_usb devices. */
  datatype Props = Props(online: Option<string>, kind: Option<string>, extcon: Option<string>, android: Option<string>)

  /** suspendUntil: when the daemon will end its suspend block; wakelock: when the kernel would end it.
      divergedAt is history: when the reported and the active state last parted. */
  datatype State = State(current: CableState, active: CableState, previous: CableState, timer: Option<Timer>,
                         connectionDelay: int, suspendUntil: Option<int>, wakelock: Option<int>, controlCable: CableState,
                         signals: seq<Signal>, now: int, divergedAt: int)

  /** usbmoded_set_cable_connection_delay. */
  function Clamped(delay: int): (r: int)
    ensures 0 <= r <= 4000 && (0 <= delay <= 4000 ==> r == delay) && (delay > 4000 ==> r == 4000) && (delay < 0 ==> r == 0)
  {
    if delay > CABLE_CONNECTION_DELAY_MAXIMUM then CABLE_CONNECTION_DELAY_MAXIMUM else if delay < 0 then 0 else delay
  }

  function Initial(delay: int): State {
    State(Unknown, Unknown, Unknown, None, Clamped(delay), None, None, Unknown, [], 0, 0)
  }

  // ---- the delay between reported and active state -------------------------------------------------

  function WithTimer(s: State, delay: int): State {
    if s.timer.Some? && s.timer.value.delay == delay then s else s.(timer := Some(Timer(s.now + delay, delay)))
  }

  function DisconnectSignal(c: CableState): seq<Signal> {
    match c
    case ChargerConnected => [SigChargerDisconnected]
    case PcConnected => [SigUsbDisconnected]
    case _ => []
  }

  function ConnectSignal(c: CableState): seq<Signal> {
    match c
    case ChargerConnected => [SigChargerConnected]
    case PcConnected => [SigUsbConnected]
    case _ => []
  }

  /** umudev_cable_state_set. */
  function Activated(s: State, c: CableState): State {
    if s.active == c then s.(timer := None)
    else s.(timer := None, previous := s.active, active := c, controlCable := c,
            signals := s.signals + DisconnectSignal(s.active) + ConnectSignal(c))
  }

  function DelayFor(s: State, c: CableState): int {
    if c.PcConnected? && !s.current.Unknown? && s.connectionDelay > MINIMUM_DELAY then s.connectionDelay else MINIMUM_DELAY
  }

  /** umudev_cable_state_from_udev. */
  function Reported(s: State, c: CableState): State {
    if s.current == c then s
    else
      var s1 := s.(current := c, divergedAt := if s.current == s.active then s.now else s.divergedAt);
      if c.Disconnected? then Activated(s1, c) else WithTimer(s1, DelayFor(s, c))
  }

  // ---- evaluating udev properties ------------------------------------------------------------------

  function OverrideKind(p: Props): Option<string> {
    match p.android
    case Some(a) => Some(if a == "DISCONNECTED" then "USB_DCP" else "USB")
    case None =>
      match p.extcon
      case None => None
      case Some(x) => if x == "USB=1" then Some("USB") else if x == "USB=0" then Some("USB_DCP") else None
  }

  function OverrideOnline(p: Props): Option<string> {
    if (p.android.Some? && p.android.value != "DISCONNECTED") || p.extcon == Some("USB=1") then Some("1") else None
  }

  predicate Online(p: Props) {
    (if OverrideOnline(p).Some? then OverrideOnline(p) else p.online) == Some("1")
  }

  function Kind(p: Props): Option<string> {
    if OverrideKind(p).Some? then OverrideKind(p) else p.kind
  }

  /** What the properties mean; None: nothing new is concluded. */
  function Meaning(p: Props, current: CableState): (r: Option<CableState>)
    ensures r.Some? ==> !r.value.Unknown?
    ensures !Online(p) ==> r == Some(Disconnected)
  {
    if !Online(p) then Some(Disconnected)
    else match Kind(p)
      case None => Some(PcConnected)
      case Some(k) =>
        if k == "USB" || k == "USB_CDP" then Some(PcConnected)
        else if k == "USB_DCP" || k == "USB_HVDCP" || k == "USB_HVDCP_3" then Some(ChargerConnected)
        else if k == "USB_PD" then if current.ChargerConnected? then None else Some(PcConnected)
        else if k == "USB_FLOAT" then Some(ChargerConnected)
        else Some(Disconnected)
  }

  /** usbmoded_delay_suspend, when the properties disagree with what the control code was told. */
  function SuspendDelayed(s: State, p: Props): State {
    if Online(p) != IsConnected(s.controlCable)
    then s.(suspendUntil := Some(s.now + SUSPEND_DELAY_DEFAULT_MS), wakelock := Some(s.now + SUSPEND_DELAY_MAXIMUM_MS))
    else s
  }

  /** umudev_evaluate_state. */
  function Evaluated(s: State, p: Props): State {
    var s1 := SuspendDelayed(s, p);
    match Meaning(p, s1.current)
    case Some(c) => Reported(s1, c)
    case None => s1
  }

  // ---- runs ----------------------------------------------------------------------------------------

  datatype Step = Evaluate(props: Props) | TimerFires | SuspendTimerFires | Pass(ms: nat)

  predicate CanTake(s: State, step: Step) {
    match step
    case Evaluate(_) => true
    case TimerFires => s.timer.Some? && s.now >= s.timer.value.deadline
    case SuspendTimerFires => s.suspendUntil.Some? && s.now >= s.suspendUntil.value
    case Pass(ms) =>
      && (s.timer.Some? ==> s.now + ms <= s.timer.value.deadline)
      && (s.suspendUntil.Some? ==> s.now + ms <= s.suspendUntil.value)
  }

  function Take(s: State, step: Step): State
    requires CanTake(s, step)
  {
    match step
    case Evaluate(p) => Evaluated(s, p)
    case TimerFires => Activated(s.(timer := None), s.current)
    case SuspendTimerFires => s.(suspendUntil := None, wakelock := None)
    case Pass(ms) => s.(now := s.now + ms)
  }

  predicate IsRun(s: State, steps: seq<Step>)
    decreases steps
  {
    |steps| == 0 || (CanTake(s, steps[0]) && IsRun(Take(s, steps[0]), steps[1..]))
  }

  function After(s: State, steps: seq<Step>): State
    requires IsRun(s, steps)
    decreases steps
  {
    if |steps| == 0 then s else After(Take(s, steps[0]), steps[1..])
  }

  // ---- invariant -----------------------------------------------------------------------------------

  /** Which connection a sequence of signals has announced and not withdrawn; None: connects and disconnects
      do not alternate properly. */
  function Announced(signals: seq<Signal>): Option<CableState> {
    if |signals| == 0 then Some(Disconnected)
    else match Announced(signals[..|signals| - 1])
      case None => None
      case Some(c) =>
        match signals[|signals| - 1]
        case SigUsbConnected => if c.Disconnected? then Some(PcConnected) else None
        case SigChargerConnected => if c.Disconnected? then Some(ChargerConnected) else None
        case SigUsbDisconnected => if c.PcConnected? then Some(Disconnected) else None
        case SigChargerDisconnected => if c.ChargerConnected? then Some(Disconnected) else None
  }

  function Link(c: CableState): CableState {
    if IsConnected(c) then c else Disconnected
  }

  /** A reported state that is not yet active has a timer running for it. */
  predicate Pending(s: State) {
    && (s.current != s.active ==> s.timer.Some?)
    && (s.timer.Some? ==> IsConnected(s.current) && s.now <= s.timer.value.deadline <= s.now + s.timer.value.delay)
    && (s.timer.Some? ==> s.timer.value.delay == MINIMUM_DELAY || MINIMUM_DELAY < s.timer.value.delay == s.connectionDelay)
    && (s.active.Unknown? || !s.current.Unknown?)
    && 0 <= s.connectionDelay <= CABLE_CONNECTION_DELAY_MAXIMUM
  }

  /** While a connection is waiting to become active, suspend is blocked for longer than the wait. */
  predicate Covered(s: State) {
    s.timer.Some? && !IsConnected(s.active) ==> s.suspendUntil.Some? && s.suspendUntil.value > s.timer.value.deadline
  }

  /** The kernel's wakelock is held as long as the daemon means to block suspend, with time to spare. */
  predicate Locked(s: State) {
    match s.suspendUntil
    case None => s.wakelock.None?
    case Some(until) => s.now <= until && s.wakelock.Some? && s.wakelock.value > until
  }

  /** With a configured delay of at most 100 ms the wait is bounded from the first disagreement on. */
  predicate Prompt(s: State) {
    s.connectionDelay <= MINIMUM_DELAY && s.current != s.active ==>
      s.timer.Some? && s.timer.value.deadline <= s.divergedAt + MINIMUM_DELAY
  }

  predicate Inv(s: State) {
    && Pending(s) && Covered(s) && Locked(s) && Prompt(s)
    && s.controlCable == s.active
    && Announced(s.signals) == Some(Link(s.active))
  }

  lemma AnnouncedGrows(signals: seq<Signal>, e: Signal)
    ensures (signals + [e])[..|signals|] == signals
  {
  }

  lemma ActivationAnnounced(signals: seq<Signal>, was: CableState, c: CableState)
    requires Announced(signals) == Some(Link(was)) && was != c
    ensures Announced(signals + DisconnectSignal(was) + ConnectSignal(c)) == Some(Link(c))
  {
    var s1 := signals + DisconnectSignal(was);
    if IsConnected(was) {
      AnnouncedGrows(signals, DisconnectSignal(was)[0]);
    } else {
      assert s1 == signals;
    }
    if IsConnected(c) {
      AnnouncedGrows(s1, ConnectSignal(c)[0]);
    } else {
      assert s1 + ConnectSignal(c) == s1;
    }
  }

  lemma ActivationKeepsInv(s: State, c: CableState)
    requires Announced(s.signals) == Some(Link(s.active)) && s.controlCable == s.active && s.current == c && !c.Unknown?
    requires 0 <= s.connectionDelay <= CABLE_CONNECTION_DELAY_MAXIMUM
    ensures Pending(Activated(s, c)) && Covered(Activated(s, c)) && Prompt(Activated(s, c))
    ensures Activated(s, c).controlCable == c && Announced(Activated(s, c).signals) == Some(Link(c))
    ensures Locked(s) ==> Inv(Activated(s, c))
  {
    if s.active != c {
      ActivationAnnounced(s.signals, s.active, c);
    }
  }

  lemma ReportKeepsInv(s: State, c: CableState)
    requires Inv(s) && !c.Unknown?
    requires IsConnected(c) && !IsConnected(s.active) ==> s.suspendUntil == Some(s.now + SUSPEND_DELAY_DEFAULT_MS)
    ensures Inv(Reported(s, c))
  {
    var s1 := s.(current := c, divergedAt := if s.current == s.active then s.now else s.divergedAt);
    if c.Disconnected? {
      ActivationKeepsInv(s1, c);
    }
  }

  lemma StepKeepsInv(s: State, step: Step)
    requires Inv(s) && CanTake(s, step)
    ensures Inv(Take(s, step))
  {
    match step
    case Evaluate(p) =>
      var s1 := SuspendDelayed(s, p);
      var m := Meaning(p, s1.current);
      assert Inv(s1);
      if m.Some? {
        ReportKeepsInv(s1, m.value);
      }
    case TimerFires => ActivationKeepsInv(s.(timer := None), s.current);
    case SuspendTimerFires =>
    case Pass(_) =>
  }

  lemma {:induction false} RunKeepsInv(s: State, steps: seq<Step>)
    requires Inv(s) && IsRun(s, steps)
    ensures Inv(After(s, steps))
    decreases steps
  {
    if |steps| > 0 {
      StepKeepsInv(s, steps[0]);
      RunKeepsInv(Take(s, steps[0]), steps[1..]);
    }
  }

  ghost predicate Reachable(s: State) {
    exists delay, steps :: IsRun(Initial(delay), steps) && After(Initial(delay), steps) == s
  }

  lemma ReachableKeepsInv(s: State)
    requires Reachable(s)
    ensures Inv(s)
  {
    var delay, steps :| IsRun(Initial(delay), steps) && After(Initial(delay), steps) == s;
    RunKeepsInv(Initial(delay), steps);
  }

  // ---- what it means -------------------------------------------------------------------------------

  /** Reported and active state differ only while a timer runs; a disconnect is acted on at once, and stays
      acted on; a due timer ends the difference. */
  lemma Debounced(s: State)
    requires Reachable(s)
    ensures s.current != s.active ==> s.timer.Some?
    ensures s.current.Disconnected? ==> s.active.Disconnected? && s.timer.None?
    ensures CanTake(s, TimerFires) ==> Take(s, TimerFires).active == s.current && Take(s, TimerFires).timer.None?
    ensures s.controlCable == s.active
  {
    ReachableKeepsInv(s);
  }

  /** In every run without --fallback, suspend stays blocked until a detected connection has been acted on:
      neither the daemon's own timer nor the expiry of the kernel's wakelock ends the block before. */
  lemma SuspendCoversDelay(s: State)
    requires Reachable(s) && s.timer.Some? && !IsConnected(s.active)
    ensures s.suspendUntil.Some? && s.suspendUntil.value > s.timer.value.deadline
    ensures !CanTake(s, SuspendTimerFires)
    ensures s.wakelock.Some? && s.wakelock.value > s.timer.value.deadline >= s.now
  {
    ReachableKeepsInv(s);
  }

  function Count(signals: seq<Signal>, e: Signal): nat {
    if |signals| == 0 then 0 else Count(signals[..|signals| - 1], e) + if signals[|signals| - 1] == e then 1 else 0
  }

  lemma {:induction false} AnnouncedCounts(signals: seq<Signal>)
    requires Announced(signals).Some?
    ensures var c := Announced(signals).value;
            && Count(signals, SigUsbConnected) - Count(signals, SigUsbDisconnected) == (if c.PcConnected? then 1 else 0)
            && Count(signals, SigChargerConnected) - Count(signals, SigChargerDisconnected) == (if c.ChargerConnected? then 1 else 0)
  {
    if |signals| > 0 {
      AnnouncedCounts(signals[..|signals| - 1]);
    }
  }

  /** Connect and disconnect signals are paired, per kind and between kinds, and tell the active state. */
  lemma SignalsArePaired(s: State)
    requires Reachable(s)
    ensures Announced(s.signals) == Some(Link(s.active))
    ensures Count(s.signals, SigUsbConnected) == Count(s.signals, SigUsbDisconnected) + (if s.active.PcConnected? then 1 else 0)
    ensures Count(s.signals, SigChargerConnected) == Count(s.signals, SigChargerDisconnected) + (if s.active.ChargerConnected? then 1 else 0)
  {
    ReachableKeepsInv(s);
    AnnouncedCounts(s.signals);
  }

  const PC_PROPS := Props(Some("1"), Some("USB"), None, None)
  const CHARGER_PROPS := Props(Some("1"), Some("USB_DCP"), None, None)

  lemma PropsMean(current: CableState)
    ensures Online(PC_PROPS) && Online(CHARGER_PROPS)
    ensures Meaning(PC_PROPS, current) == Some(PcConnected) && Meaning(CHARGER_PROPS, current) == Some(ChargerConnected)
  {
    assert "USB_DCP" != "USB" && "USB_DCP" != "USB_CDP";
  }

  predicate IsRound(s: State, r: State) {
    CanTake(s, Pass(50)) &&
    (var s1 := Take(s, Pass(50));
     CanTake(s1, Evaluate(PC_PROPS)) &&
     (var s2 := Take(s1, Evaluate(PC_PROPS));
      CanTake(s2, Pass(50)) &&
      (var s3 := Take(s2, Pass(50));
       CanTake(s3, Evaluate(CHARGER_PROPS)) && r == Take(s3, Evaluate(CHARGER_PROPS)))))
  }

  /** The charger turns into a pc and back into a charger, each after 50 ms. */
  lemma ChangeKinds(s: State) returns (r: State)
    requires Inv(s) && s.connectionDelay > MINIMUM_DELAY
    requires s.active.Disconnected? && s.current.ChargerConnected? && s.timer == Some(Timer(s.now + MINIMUM_DELAY, MINIMUM_DELAY))
    ensures IsRound(s, r) && Inv(r)
    ensures r.connectionDelay == s.connectionDelay && r.active.Disconnected? && r.current.ChargerConnected?
    ensures r.timer == Some(Timer(r.now + MINIMUM_DELAY, MINIMUM_DELAY)) && r.divergedAt == s.divergedAt && r.now == s.now + 100
  {
    PropsMean(s.current);
    PropsMean(PcConnected);
    var s1 := Take(s, Pass(50));
    var s2 := Take(s1, Evaluate(PC_PROPS));
    assert s2.timer == Some(Timer(s.now + 50 + s.connectionDelay, s.connectionDelay)) && s2.suspendUntil == Some(s.now + 5050);
    var s3 := Take(s2, Pass(50));
    r := Take(s3, Evaluate(CHARGER_PROPS));
    StepKeepsInv(s, Pass(50));
    StepKeepsInv(s1, Evaluate(PC_PROPS));
    StepKeepsInv(s2, Pass(50));
    StepKeepsInv(s3, Evaluate(CHARGER_PROPS));
  }

  lemma Prepended(s: State, step: Step, rest: seq<Step>)
    requires CanTake(s, step) && IsRun(Take(s, step), rest)
    ensures IsRun(s, [step] + rest) && After(s, [step] + rest) == After(Take(s, step), rest)
  {
    assert ([step] + rest)[1..] == rest;
  }

  lemma ChangeKindsFirst(s: State, r: State, rest: seq<Step>) returns (steps: seq<Step>)
    requires IsRound(s, r) && IsRun(r, rest)
    ensures IsRun(s, steps) && After(s, steps) == After(r, rest)
  {
    var s1 := Take(s, Pass(50));
    var s2 := Take(s1, Evaluate(PC_PROPS));
    var s3 := Take(s2, Pass(50));
    steps := [Evaluate(CHARGER_PROPS)] + rest;
    Prepended(s3, Evaluate(CHARGER_PROPS), rest);
    Prepended(s2, Pass(50), steps);
    steps := [Pass(50)] + steps;
    Prepended(s1, Evaluate(PC_PROPS), steps);
    steps := [Evaluate(PC_PROPS)] + steps;
    Prepended(s, Pass(50), steps);
    steps := [Pass(50)] + steps;
  }

  /** With a longer delay a connection whose kind keeps changing is never acted on: each change of kind
      restarts the timer with the other delay. */
  lemma {:induction false} DivergenceIsUnbounded(s: State, rounds: nat) returns (steps: seq<Step>)
    requires Inv(s) && s.connectionDelay > MINIMUM_DELAY
    requires s.active.Disconnected? && s.current.ChargerConnected? && s.timer == Some(Timer(s.now + MINIMUM_DELAY, MINIMUM_DELAY))
    ensures IsRun(s, steps)
    ensures var r := After(s, steps); r.active.Disconnected? && r.current.ChargerConnected? && r.divergedAt == s.divergedAt
                                      && r.now == s.now + rounds * 100
    decreases rounds
  {
    if rounds == 0 {
      steps := [];
    } else {
      var s4 := ChangeKinds(s);
      var rest := DivergenceIsUnbounded(s4, rounds - 1);
      steps := ChangeKindsFirst(s, s4, rest);
    }
  }

  predicate NotOlderThan(s: State, bound: int) {
    s.current != s.active ==> s.now - s.divergedAt <= bound
  }

  /** No run of a daemon configured with this delay shows a disagreement older than bound. */
  ghost predicate DivergesAtMost(delay: int, bound: int) {
    forall steps :: IsRun(Initial(delay), steps) ==> NotOlderThan(After(Initial(delay), steps), bound)
  }

  lemma {:induction false} DelayIsFixed(s: State, steps: seq<Step>)
    requires IsRun(s, steps)
    ensures After(s, steps).connectionDelay == s.connectionDelay
    decreases steps
  {
    if |steps| > 0 {
      DelayIsFixed(Take(s, steps[0]), steps[1..]);
    }
  }

  lemma LongDelaysDiverge(delay: int, bound: int)
    requires Clamped(delay) > MINIMUM_DELAY
    ensures !DivergesAtMost(delay, bound)
  {
    var offline, charger := Evaluate(Props(None, None, None, None)), Evaluate(CHARGER_PROPS);
    PropsMean(Disconnected);
    var s0 := Initial(delay);
    var s1 := Take(s0, offline);
    var s2 := Take(s1, charger);
    StepKeepsInv(s0, offline);
    StepKeepsInv(s1, charger);
    var rest := DivergenceIsUnbounded(s2, if bound < 0 then 0 else bound + 1);
    Prepended(s1, charger, rest);
    Prepended(s0, offline, [charger] + rest);
    assert !NotOlderThan(After(s0, [offline] + ([charger] + rest)), bound);
  }

  /** How long the daemon may act on something else than what is reported: at most 100 ms when the configured
      delay is at most that, and without any bound for every longer delay. */
  lemma DivergenceIsBoundedExactly(delay: int, bound: int)
    ensures Clamped(delay) <= MINIMUM_DELAY ==> DivergesAtMost(delay, MINIMUM_DELAY)
    ensures Clamped(delay) > MINIMUM_DELAY ==> !DivergesAtMost(delay, bound)
  {
    if Clamped(delay) <= MINIMUM_DELAY {
      forall steps | IsRun(Initial(delay), steps) ensures NotOlderThan(After(Initial(delay), steps), MINIMUM_DELAY) {
        RunKeepsInv(Initial(delay), steps);
        DelayIsFixed(Initial(delay), steps);
      }
    } else {
      LongDelaysDiverge(delay, bound);
    }
  }

  // ---- the code ------------------------------------------------------------------------------------

  class Listener {
    var cableStateCurrent: CableState
    var cableStateActive: CableState
    var cableStatePrevious: CableState
    var timerId: bool        // timer pending
    var timerDelay: int
    var timerDeadline: int
    var connectionDelay: int
    var blockingSuspend: bool
    var suspendTimer: int
    var wakelockHeld: bool
    var wakelockExpiry: int
    var controlCableState: CableState
    var signals: seq<Signal>
    var now: int
    ghost var divergedAt: int

    ghost predicate Valid()
      reads this
    {
      (timerId <==> timerDelay != -1) && (timerId ==> timerDelay >= 0) && (wakelockHeld <==> blockingSuspend)
    }

    ghost function View(): State
      reads this
    {
      State(cableStateCurrent, cableStateActive, cableStatePrevious,
                  if timerId then Some(Timer(timerDeadline, timerDelay)) else None,
                  connectionDelay, if blockingSuspend then Some(suspendTimer) else None,
                  if wakelockHeld then Some(wakelockExpiry) else None,
                  controlCableState, signals, now, divergedAt)
    }

    method SetCableConnectionDelay(delayMs: int)
      modifies this`connectionDelay
      ensures connectionDelay == Clamped(delayMs)
    {
      var delay := delayMs;
      if delay > CABLE_CONNECTION_DELAY_MAXIMUM {
        delay := CABLE_CONNECTION_DELAY_MAXIMUM;
      }
      if delay < 0 {
        delay := 0;
      }
      if connectionDelay != delay {
        connectionDelay := delay;
      }
    }

    constructor (delay: int)
      ensures Valid() && View() == Initial(delay)
    {
      cableStateCurrent, cableStateActive, cableStatePrevious := Unknown, Unknown, Unknown;
      timerId, timerDelay, timerDeadline := false, -1, 0;
      blockingSuspend, suspendTimer, controlCableState := false, 0, Unknown;
      wakelockHeld, wakelockExpiry := false, 0;
      signals, now, divergedAt := [], 0, 0;
      connectionDelay := 0;
      new;
      SetCableConnectionDelay(delay);
    }

    method StopTimer()
      requires Valid()
      modifies this`timerId, this`timerDelay
      ensures Valid() && View() == old(View()).(timer := None)
    {
      if timerId {
        timerId := false;
        timerDelay := -1;
      }
    }

    method StartTimer(delay: int)
      requires Valid() && delay >= 0
      modifies this`timerId, this`timerDelay, this`timerDeadline
      ensures Valid() && View() == WithTimer(old(View()), delay)
    {
      if timerDelay != delay {
        StopTimer();
      }
      if !timerId {
        timerId := true;
        timerDeadline := now + delay;
        timerDelay := delay;
      }
    }

    method Changed()
      requires cableStatePrevious != cableStateActive
      modifies this`signals, this`controlCableState
      ensures controlCableState == cableStateActive
      ensures signals == old(signals) + DisconnectSignal(cableStatePrevious) + ConnectSignal(cableStateActive)
    {
      match cableStatePrevious {
        case ChargerConnected => signals := signals + [SigChargerDisconnected];
        case PcConnected => signals := signals + [SigUsbDisconnected];
        case _ =>
      }
      match cableStateActive {
        case ChargerConnected => signals := signals + [SigChargerConnected];
        case PcConnected => signals := signals + [SigUsbConnected];
        case _ =>
      }
      controlCableState := cableStateActive;
    }

    method Set(state: CableState)
      requires Valid()
      modifies this
      ensures Valid() && View() == Activated(old(View()), state)
    {
      StopTimer();
      if cableStateActive == state {
        return;
      }
      cableStatePrevious := cableStateActive;
      cableStateActive := state;
      Changed();
    }

    method TimerCb()
      requires Valid() && CanTake(View(), TimerFires)
      modifies this
      ensures Valid() && View() == Take(old(View()), TimerFires)
    {
      timerId := false;
      timerDelay := -1;
      Set(cableStateCurrent);
    }

    method FromUdev(curr: CableState)
      requires Valid() && 0 <= connectionDelay
      modifies this
      ensures Valid() && View() == Reported(old(View()), curr)
    {
      var prev := cableStateCurrent;
      cableStateCurrent := curr;
      if prev == curr {
        return;
      }
      if prev == cableStateActive {
        divergedAt := now;
      }
      if curr.Disconnected? {
        Set(curr);
      } else {
        var delay := MINIMUM_DELAY;
        if curr.PcConnected? && !prev.Unknown? {
          if delay < connectionDelay {
            delay := connectionDelay;
          }
        }
        StartTimer(delay);
      }
    }

    method AcquireWakelock()
      modifies this`wakelockHeld, this`wakelockExpiry
      ensures View() == old(View()).(wakelock := Some(now + SUSPEND_DELAY_MAXIMUM_MS))
    {
      wakelockHeld := true;
      wakelockExpiry := now + SUSPEND_DELAY_MAXIMUM_MS;
    }

    method DelaySuspend()
      requires Valid()
      modifies this`blockingSuspend, this`suspendTimer, this`wakelockHeld, this`wakelockExpiry
      ensures Valid() && View() == old(View()).(suspendUntil := Some(now + SUSPEND_DELAY_DEFAULT_MS),
                                     wakelock := Some(now + SUSPEND_DELAY_MAXIMUM_MS))
    {
      AcquireWakelock();
      blockingSuspend := true;
      suspendTimer := now + SUSPEND_DELAY_DEFAULT_MS;
    }

    method AllowSuspend()
      requires Valid()
      modifies this`blockingSuspend, this`wakelockHeld
      ensures Valid() && View() == old(View()).(suspendUntil := None, wakelock := None)
    {
      if blockingSuspend {
        blockingSuspend := false;
        wakelockHeld := false;
      }
    }

    method OverriddenProps(p: Props) returns (online: Option<string>, kind: Option<string>)
      ensures (online == Some("1") <==> Online(p)) && kind == Kind(p)
    {
      online, kind := p.online, p.kind;
      var overrideOnline: Option<string>, overrideKind: Option<string> := None, None;
      if p.extcon.Some? {
        if p.extcon.value == "USB=1" {
          overrideOnline, overrideKind := Some("1"), Some("USB");
        } else if p.extcon.value == "USB=0" {
          overrideKind := Some("USB_DCP");
        }
      }
      if p.android.Some? {
        if p.android.value == "DISCONNECTED" {
          overrideKind := Some("USB_DCP");
        } else {
          overrideOnline, overrideKind := Some("1"), Some("USB");
        }
      }
      if overrideKind.Some? && overrideKind != kind {
        kind := overrideKind;
      }
      if overrideOnline.Some? && overrideOnline != online {
        online := overrideOnline;
      }
    }

    /** The heuristics of umudev_evaluate_state, as successive overrides of the charger properties. */
    method EvaluateState(p: Props)
      requires Valid() && 0 <= connectionDelay
      modifies this
      ensures Valid() && View() == Evaluated(old(View()), p)
    {
      var online, kind := OverriddenProps(p);
      var connected := online == Some("1");
      if connected != IsConnected(controlCableState) {
        DelaySuspend();
      }
      assert View() == SuspendDelayed(old(View()), p);
      if !connected {
        FromUdev(Disconnected);
      } else if kind.None? {
        FromUdev(PcConnected);
      } else if kind.value == "USB" || kind.value == "USB_CDP" {
        FromUdev(PcConnected);
      } else if kind.value == "USB_DCP" || kind.value == "USB_HVDCP" || kind.value == "USB_HVDCP_3" {
        FromUdev(ChargerConnected);
      } else if kind.value == "USB_PD" {
        if !cableStateCurrent.ChargerConnected? {
          FromUdev(PcConnected);
        }
      } else if kind.value == "USB_FLOAT" {
        FromUdev(ChargerConnected);
      } else {
        FromUdev(Disconnected);
      }
    }

  }
}
