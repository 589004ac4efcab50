/** The mode switch protocol and the bookkeeping of what a mode takes, put together: the worker's mode data
    and list switches in a run of the protocol are those of a run of the bookkeeping. */
module EndToEnd {
  import opened Basics
  import opened Modes
  import opened Appsync
  import opened ModeSetting
  import opened AppsyncLaws
  import P = Protocol
  import PI = ProtocolInvariant
  import PL = ProtocolLaws

  function MarkOfEvent(event: P.HwEvent): Mark {
    match event
    case DataSet(_) => Began
    case Left(_) => Ended
    case ListsSwitched => Switched
  }

  function MarksOf(history: seq<P.HwEvent>): (r: seq<Mark>)
    ensures |r| == |history| && forall i :: 0 <= i < |r| ==> r[i] == MarkOfEvent(history[i])
  {
    seq(|history|, i requires 0 <= i < |history| => MarkOfEvent(history[i]))
  }

  /** Is a mode in use after these marks, given whether one was before? */
  predicate InUse(before: bool, marks: seq<Mark>) {
    if |marks| == 0 then before
    else match marks[|marks| - 1]
      case Began => true
      case Ended => false
      case Switched => InUse(before, marks[..|marks| - 1])
  }

  lemma {:induction false} InUseComposes(before: bool, a: seq<Mark>, b: seq<Mark>)
    ensures InUse(before, a + b) == InUse(InUse(before, a), b)
    decreases |b|
  {
    if |b| == 0 {
      assert a + b == a;
    } else {
      assert (a + b)[..|a + b| - 1] == a + b[..|b| - 1];
      InUseComposes(before, a, b[..|b| - 1]);
    }
  }

  lemma {:induction false} StageIsMarked(w: World, ops: seq<Op>)
    requires IsRun(w, ops)
    ensures After(w, ops).stage.Out? <==> !InUse(!w.stage.Out?, Marks(ops))
    decreases ops
  {
    if |ops| > 0 {
      var w1 := Do(w, ops[0]);
      StageIsMarked(w1, ops[1..]);
      InUseComposes(!w.stage.Out?, MarkOf(ops[0]), Marks(ops[1..]));
      assert MarkOf(ops[0]) != [] ==> MarkOf(ops[0])[..0] == [];
      assert !w1.stage.Out? == InUse(!w.stage.Out?, MarkOf(ops[0]));
    }
  }

  lemma {:induction false} DataIsMarked(history: seq<P.HwEvent>)
    requires PI.Pairing(history).Some?
    ensures PI.Pairing(history).value.Some? <==> InUse(false, MarksOf(history))
    decreases |history|
  {
    if |history| > 0 {
      var n := |history| - 1;
      DataIsMarked(history[..n]);
      assert MarksOf(history)[..n] == MarksOf(history[..n]);
    }
  }

  /** Whatever the interleaving of the two threads and the failing hardware calls in a run of the protocol,
      and whatever the worker does between setting mode data and having left it: in a bookkeeping run with
      the same changes of mode data and the same list switches, with configurations loaded between any two
      steps, everything taken has been dropped whenever the worker has no mode data in use, and no
      application of either phase is booked as active. */
  lemma NothingLeftBehind(s: P.State, ops: seq<Op>)
    requires PL.Reachable(s) && s.shared.modeData.None?
    requires IsRun(INITIAL, ops) && Configured(ops) && Marks(ops) == MarksOf(s.past.hardware)
    ensures var w := After(INITIAL, ops);
            && w.stage.Out?
            && AllDropped(w.sync.log)
            && Resting(w.sync.apps)
            && (LoadsInPhases(ops, false) ==> NoUnitActive(w.sync.apps))
            && (LoadsInPhases(ops, true) ==> NoneActive(w.sync.apps))
  {
    PL.EnterLeavePairing(s);
    DataIsMarked(s.past.hardware);
    StageIsMarked(INITIAL, ops);
    Conservation(ops);
  }

  // ---- the code's procedures are such a run --------------------------------------------------------

  /** What surrounds one event of the worker's history. reload: a configuration loaded by the main thread just
      before; data: the mode data looked up; luck: how entering went, None if the mode was given up before
      modesetting_enter_dynamic_mode. */
  datatype Turn = Turn(reload: Option<seq<App>>, data: ModeData, luck: Option<Luck>)

  predicate Proper(turns: seq<Turn>) {
    forall i :: 0 <= i < |turns| && turns[i].reload.Some? ==> Fresh(turns[i].reload.value) && Fits(turns[i].reload.value)
  }

  function Reloaded(w: World, turn: Turn): World {
    if turn.reload.Some? && Fresh(turn.reload.value) then Do(w, Load(turn.reload.value)) else w
  }

  /** Mode data set and the mode entered; the mode left; or the latest lists taken in use. */
  function Turned(before: World, event: P.HwEvent, turn: Turn): World {
    var w := Reloaded(before, turn);
    match event
    case DataSet(_) =>
      if !w.stage.Out? then w
      else
        (match turn.luck
         case None => w.(stage := Entering(turn.data, false))
         case Some(luck) => w.(sync := Entered(w.sync, turn.data, luck).0, stage := Entering(turn.data, UsesApps(turn.data))))
    case Left(_) => if w.stage.Entering? then w.(sync := Left(w.sync, w.stage.data), stage := Out) else w
    case ListsSwitched => if w.stage.Out? then Do(w, Switch) else w
  }

  function Performed(history: seq<P.HwEvent>, turns: seq<Turn>): World
    requires |turns| == |history|
  {
    if |history| == 0 then INITIAL
    else
      var n := |history| - 1;
      Turned(Performed(history[..n], turns[..n]), history[n], turns[n])
  }

  /** The mode data in use and the stage of the bookkeeping say the same. */
  predicate Fitting(open: Option<Mode>, stage: Stage) {
    match open
    case None => stage.Out?
    case Some(_) => stage.Entering?
  }

  lemma Joined(w: World, a: seq<Op>, b: seq<Op>)
    requires IsRun(w, a) && IsRun(After(w, a), b) && Configured(a) && Configured(b)
    ensures IsRun(w, a + b) && After(w, a + b) == After(After(w, a), b) && Configured(a + b)
    ensures Marks(a + b) == Marks(a) + Marks(b)
  {
    RunsCompose(w, a, b);
    MarksCompose(a, b);
  }

  lemma ReloadIsRun(w: World, turn: Turn) returns (ops: seq<Op>)
    requires turn.reload.Some? ==> Fresh(turn.reload.value) && Fits(turn.reload.value)
    ensures IsRun(w, ops) && Configured(ops) && After(w, ops) == Reloaded(w, turn) && Marks(ops) == []
    ensures Reloaded(w, turn).stage == w.stage
  {
    ops := [];
    if turn.reload.Some? {
      Extended(w, [], Load(turn.reload.value));
      ops := [] + [Load(turn.reload.value)];
    }
  }

  lemma EventIsRun(w: World, open: Option<Mode>, event: P.HwEvent, turn: Turn) returns (ops: seq<Op>)
    requires Fitting(open, w.stage)
    requires match event case Left(_) => open.Some? case _ => open.None?
    ensures IsRun(w, ops) && Configured(ops) && After(w, ops) == Turned(w, event, turn.(reload := None))
    ensures Marks(ops) == [MarkOfEvent(event)]
    ensures Fitting(match event case DataSet(m) => Some(m) case _ => None, After(w, ops).stage)
  {
    match event {
      case DataSet(_) =>
        if turn.luck.None? {
          Extended(w, [], Begin(turn.data));
          ops := [] + [Begin(turn.data)];
        } else {
          ops := EnterIsRun(w, turn.data, turn.luck.value);
        }
      case Left(_) =>
        LeaveIsRun(w);
        ops := [Untether, StopPost, Disconnect, StopAll];
      case ListsSwitched =>
        Extended(w, [], Switch);
        ops := [] + [Switch];
    }
  }

  lemma TurnIsRun(w: World, open: Option<Mode>, event: P.HwEvent, turn: Turn) returns (ops: seq<Op>)
    requires turn.reload.Some? ==> Fresh(turn.reload.value) && Fits(turn.reload.value)
    requires Fitting(open, w.stage)
    requires match event case Left(_) => open.Some? case _ => open.None?
    ensures IsRun(w, ops) && Configured(ops) && After(w, ops) == Turned(w, event, turn)
    ensures Marks(ops) == [MarkOfEvent(event)]
    ensures Fitting(match event case DataSet(m) => Some(m) case _ => None, After(w, ops).stage)
  {
    var load := ReloadIsRun(w, turn);
    var rest := EventIsRun(Reloaded(w, turn), open, event, turn);
    Joined(w, load, rest);
    ops := load + rest;
  }

  lemma MarksOfMoreEvents(history: seq<P.HwEvent>)
    requires |history| > 0
    ensures MarksOf(history) == MarksOf(history[..|history| - 1]) + [MarkOfEvent(history[|history| - 1])]
  {
  }

  /** A properly paired history is a run of the bookkeeping with its marks. */
  lemma {:induction false} HistoryIsRun(history: seq<P.HwEvent>, turns: seq<Turn>) returns (ops: seq<Op>)
    requires |turns| == |history| && Proper(turns) && PI.Pairing(history).Some?
    ensures IsRun(INITIAL, ops) && Configured(ops) && After(INITIAL, ops) == Performed(history, turns)
    ensures Marks(ops) == MarksOf(history)
    ensures Fitting(PI.Pairing(history).value, After(INITIAL, ops).stage)
    decreases |history|
  {
    ops := [];
    if |history| > 0 {
      var n := |history| - 1;
      ops := HistoryIsRun(history[..n], turns[..n]);
      var rest := TurnIsRun(After(INITIAL, ops), PI.Pairing(history[..n]).value, history[n], turns[n]);
      Joined(INITIAL, ops, rest);
      MarksOfMoreEvents(history);
      ops := ops + rest;
    }
  }
}
