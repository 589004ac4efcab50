/** What entering a mode takes, leaving it gives back: whatever fails on the way, and whenever the
    configuration is reloaded. */
module AppsyncLaws {
  import opened Basics
  import opened Appsync
  import opened ModeSetting

  // ---- application lists ---------------------------------------------------------------------------

  predicate Fresh(apps: seq<App>) {
    forall i :: 0 <= i < |apps| ==> apps[i].state.DontCare?
  }

  /** Scheduled before or after enumeration: the phases that are stopped again. */
  predicate Scheduled(app: App) {
    app.post == 0 || app.post == 1
  }

  predicate IsFirst(apps: seq<App>, i: nat) {
    i < |apps| && forall k :: 0 <= k < i ==> apps[k].name != apps[i].name
  }

  /** The first entry of each unit's name is a unit of one of the two phases; its other entries may be
      anything. */
  predicate Fits(apps: seq<App>) {
    forall i, j :: 0 <= i <= j < |apps| && apps[i].name == apps[j].name && apps[j].systemd && IsFirst(apps, i)
      ==> apps[i].systemd && Scheduled(apps[i])
  }

  /** Units are scheduled, and same-named entries agree on being units. */
  predicate Agreeing(apps: seq<App>) {
    && (forall i :: 0 <= i < |apps| && apps[i].systemd ==> Scheduled(apps[i]))
    && (forall i, j :: 0 <= i < |apps| && 0 <= j < |apps| && apps[i].name == apps[j].name ==> apps[i].systemd == apps[j].systemd)
  }

  lemma AgreeingFits(apps: seq<App>)
    requires Agreeing(apps)
    ensures Fits(apps)
  {
  }

  predicate SameButState(a: App, b: App) {
    b == a.(state := b.state)
  }

  predicate SameButStates(a: seq<App>, b: seq<App>) {
    |a| == |b| && forall i :: 0 <= i < |a| ==> SameButState(a[i], b[i])
  }

  predicate BooksUnit(app: App, name: string) {
    app.name == name && app.systemd && Scheduled(app) && app.state.Active?
  }

  predicate HasActiveUnit(apps: seq<App>, name: string) {
    exists i :: 0 <= i < |apps| && BooksUnit(apps[i], name)
  }

  /** Every unit taken has an application in the list that will get it stopped. */
  ghost predicate Covers(s: Sync) {
    forall n :: Unit(n) in Held(s.log) ==> HasActiveUnit(s.apps, n)
  }

  /** No application of either phase is active. */
  predicate Resting(apps: seq<App>) {
    forall i :: 0 <= i < |apps| && apps[i].state.Active? ==> !Scheduled(apps[i])
  }

  /** Going from s to t, no resource other than units changed hands. */
  ghost predicate OnlyUnits(s: Sync, t: Sync) {
    forall r: Resource :: !r.Unit? ==> (r in Held(t.log) <==> r in Held(s.log))
  }

  lemma RestingHoldsNone(s: Sync)
    requires Covers(s) && Resting(s.apps)
    ensures forall n :: Unit(n) !in Held(s.log)
  {
    assert forall n :: !HasActiveUnit(s.apps, n);
  }

  // ---- marking -------------------------------------------------------------------------------------

  lemma FirstEntry(apps: seq<App>, j: nat) returns (i: nat)
    requires j < |apps|
    ensures i <= j && IsFirst(apps, i) && apps[i].name == apps[j].name
  {
    i := 0;
    while apps[i].name != apps[j].name
      invariant i <= j && forall k :: 0 <= k < i ==> apps[k].name != apps[j].name
      decreases j - i
    {
      i := i + 1;
    }
  }

  /** Marking makes applications active and changes nothing else; the first one of that name becomes active,
      even where an inactive application cuts the search short. */
  lemma {:induction false} MarkedEffect(apps: seq<App>, name: string, post: int, i: nat, hit: bool, missing: bool)
    ensures var r := Marked(apps, name, post, i, hit, missing);
            && SameButStates(apps, r)
            && (forall k :: 0 <= k < |apps| ==> r[k] == apps[k] || (k >= i && r[k].state.Active? && r[k].name == name))
            && (forall k :: !hit && i <= k && IsFirst(apps, k) && apps[k].name == name ==> r[k].state.Active?)
            && (!hit && (exists k :: i <= k < |apps| && apps[k].name == name)
                ==> exists k :: i <= k < |r| && r[k].name == name && r[k].state.Active?)
    decreases |apps| - i
  {
    if i < |apps| {
      if apps[i].name == name {
        var m := apps[i := apps[i].(state := Active)];
        assert m[i].name == name && m[i].state.Active?;
        if !missing {
          MarkedEffect(m, name, post, i + 1, true, missing);
          var r := Marked(m, name, post, i + 1, true, missing);
          assert r[i] == m[i];
        }
      } else if apps[i].state.Inactive? && apps[i].post == post {
        if !hit {
          MarkedEffect(apps, name, post, i + 1, hit, true);
        }
      } else {
        MarkedEffect(apps, name, post, i + 1, hit, missing);
      }
    }
  }

  lemma ActiveStays(a: seq<App>, b: seq<App>, name: string)
    requires SameButStates(a, b)
    requires forall k :: 0 <= k < |a| ==> b[k] == a[k] || b[k].state.Active?
    requires HasActiveUnit(a, name)
    ensures HasActiveUnit(b, name)
  {
    var i :| 0 <= i < |a| && BooksUnit(a[i], name);
    assert SameButState(a[i], b[i]);
  }

  lemma FitsStays(a: seq<App>, b: seq<App>)
    requires Fits(a) && SameButStates(a, b)
    ensures Fits(b)
  {
    assert forall i :: 0 <= i < |a| ==> SameButState(a[i], b[i]);
    assert forall i: nat :: IsFirst(b, i) ==> IsFirst(a, i);
  }

  lemma StartIsCovered(s: Sync, i: nat, post: int)
    requires Fits(s.apps) && Covers(s) && i < |s.apps| && s.apps[i].systemd
    ensures var t := MarkActive(With(s, Taken(Unit(s.apps[i].name))), s.apps[i].name, post);
            Covers(t) && OnlyUnits(s, t) && SameButStates(s.apps, t.apps)
  {
    var n := s.apps[i].name;
    var t := MarkActive(With(s, Taken(Unit(n))), n, post);
    MarkedEffect(s.apps, n, post, 0, false, false);
    HeldAfter(s.log, Taken(Unit(n)));
    var k := FirstEntry(s.apps, i);
    assert SameButState(s.apps[k], t.apps[k]);
    assert BooksUnit(t.apps[k], n);
    forall m | Unit(m) in Held(t.log) ensures HasActiveUnit(t.apps, m) {
      if m != n {
        ActiveStays(s.apps, t.apps, m);
      }
    }
  }

  lemma MarkIsCovered(s: Sync, name: string, post: int)
    requires Covers(s)
    ensures var t := MarkActive(s, name, post);
            Covers(t) && t.log == s.log && SameButStates(s.apps, t.apps)
  {
    var t := MarkActive(s, name, post);
    MarkedEffect(s.apps, name, post, 0, false, false);
    forall m | Unit(m) in Held(t.log) ensures HasActiveUnit(t.apps, m) {
      ActiveStays(s.apps, t.apps, m);
    }
  }

  // ---- starting and stopping -----------------------------------------------------------------------

  lemma {:induction false} PreLaunchedEffect(s: Sync, mode: string, ok: seq<bool>, i: nat)
    requires Fits(s.apps) && Covers(s)
    ensures var t := PreLaunched(s, mode, ok, i).0;
            Covers(t) && OnlyUnits(s, t) && SameButStates(s.apps, t.apps)
    decreases |s.apps| - i
  {
    if i < |s.apps| {
      var app := s.apps[i];
      if app.mode != mode || app.post != 0 {
        PreLaunchedEffect(s, mode, ok, i + 1);
      } else if app.systemd {
        if Succeeds(ok, i) {
          StartIsCovered(s, i, 0);
          var t := MarkActive(With(s, Taken(Unit(app.name))), app.name, 0);
          FitsStays(s.apps, t.apps);
          PreLaunchedEffect(t, mode, ok, i + 1);
        }
      } else if app.launch {
        MarkIsCovered(s, app.name, 0);
        var t := MarkActive(s, app.name, 0);
        FitsStays(s.apps, t.apps);
        PreLaunchedEffect(t, mode, ok, i + 1);
      } else {
        PreLaunchedEffect(s, mode, ok, i + 1);
      }
    }
  }

  lemma PreActivatedEffect(s: Sync, mode: string, ok: seq<bool>)
    requires Fits(s.apps) && Covers(s) && Resting(s.apps)
    ensures var t := PreActivated(s, mode, ok).0;
            Covers(t) && OnlyUnits(s, t) && SameButStates(s.apps, t.apps)
  {
    RestingHoldsNone(s);
    var s1 := s.(apps := Prepared(s.apps, mode));
    FitsStays(s.apps, s1.apps);
    PreLaunchedEffect(s1, mode, ok, 0);
  }

  lemma {:induction false} PostLaunchedEffect(s: Sync, mode: string, ok: seq<bool>, i: nat)
    requires Fits(s.apps) && Covers(s)
    ensures var t := PostLaunched(s, mode, ok, i).0;
            Covers(t) && OnlyUnits(s, t) && SameButStates(s.apps, t.apps)
    decreases |s.apps| - i
  {
    if i < |s.apps| {
      var app := s.apps[i];
      if app.mode != mode || app.post == 0 || !app.systemd {
        PostLaunchedEffect(s, mode, ok, i + 1);
      } else if Succeeds(ok, i) {
        StartIsCovered(s, i, 1);
        var t := MarkActive(With(s, Taken(Unit(app.name))), app.name, 1);
        FitsStays(s.apps, t.apps);
        PostLaunchedEffect(t, mode, ok, i + 1);
      }
    }
  }

  /** A unit loses its last active application only together with being stopped. */
  lemma {:induction false} StoppedFromEffect(s: Sync, post: int, i: nat)
    requires Covers(s)
    ensures var t := StoppedFrom(s, post, i);
            && Covers(t) && OnlyUnits(s, t) && SameButStates(s.apps, t.apps)
            && (forall k :: 0 <= k < |t.apps| && t.apps[k].state.Active? ==> s.apps[k].state.Active? && (k < i || t.apps[k].post != post))
    decreases |s.apps| - i
  {
    if i < |s.apps| {
      var app := s.apps[i];
      if app.post != post || !app.state.Active? {
        StoppedFromEffect(s, post, i + 1);
      } else {
        var s1 := if app.systemd then With(s, Dropped(Unit(app.name))) else s;
        var s2 := s1.(apps := s.apps[i := app.(state := DontCare)]);
        HeldAfter(s.log, Dropped(Unit(app.name)));
        forall n | Unit(n) in Held(s2.log) ensures HasActiveUnit(s2.apps, n) {
          var k :| 0 <= k < |s.apps| && BooksUnit(s.apps[k], n);
          assert s2.apps[k] == s.apps[k];
        }
        StoppedFromEffect(s2, post, i + 1);
      }
    }
  }

  lemma StoppedAllRests(s: Sync)
    requires Covers(s)
    ensures var t := StoppedAll(s);
            Covers(t) && OnlyUnits(s, t) && SameButStates(s.apps, t.apps) && Resting(t.apps)
  {
    StoppedFromEffect(s, 1, 0);
    var s1 := StoppedFrom(s, 1, 0);
    StoppedFromEffect(s1, 0, 0);
    var t := StoppedFrom(s1, 0, 0);
    forall k | 0 <= k < |t.apps| && t.apps[k].state.Active? ensures !Scheduled(t.apps[k]) {
      assert s1.apps[k].state.Active? && SameButState(s1.apps[k], t.apps[k]);
    }
  }

  // ---- runs ----------------------------------------------------------------------------------------

  /** started: the pre-enumeration phase has been run; done: teardown steps taken. */
  datatype Stage = Out | Entering(data: ModeData, started: bool) | Leaving(data: ModeData, done: nat)

  datatype World = World(sync: Sync, next: seq<App>, updated: bool, stage: Stage)

  /** What the two threads do, cut where the list lock is released. The worker may stop entering a mode
      after any of the steps and go on to leave it. */
  datatype Op =
    | Begin(data: ModeData)
    | StartPre(ok: seq<bool>) | TakeNetwork | ResetNetwork | StartPost(ok: seq<bool>) | TakeTethering
    | Untether | StopPost | Disconnect | StopAll
    | Switch              // appsync_switch_configuration
    | StopEverything      // appsync_deactivate_all(true)
    | Load(apps: seq<App>) // appsync_load_configuration, on the main thread

  const INITIAL := World(Sync([], []), [], false, Out)

  predicate CanDo(w: World, op: Op) {
    match op
    case Begin(_) => w.stage.Out?
    case StartPre(_) => w.stage.Entering? && !w.stage.started && UsesApps(w.stage.data)
    case TakeNetwork => w.stage.Entering? && NetworkOf(w.stage.data).Some?
    case ResetNetwork => w.stage.Entering? && NetworkOf(w.stage.data).Some?
    case StartPost(_) => w.stage.Entering? && w.stage.started
    case TakeTethering => w.stage.Entering? && TetheringOf(w.stage.data).Some?
    case Untether => w.stage.Entering?
    case StopPost => w.stage.Leaving? && w.stage.done == 1
    case Disconnect => w.stage.Leaving? && w.stage.done == 2
    case StopAll => w.stage.Leaving? && w.stage.done == 3
    case Switch => w.stage.Out?
    case StopEverything => w.stage.Out?
    case Load(apps) => Fresh(apps)
  }

  function Do(w: World, op: Op): World
    requires CanDo(w, op)
  {
    match op
    case Begin(d) => w.(stage := Entering(d, false))
    case StartPre(ok) => w.(sync := PreActivated(w.sync, w.stage.data.name, ok).0, stage := w.stage.(started := true))
    case TakeNetwork => w.(sync := With(w.sync, Taken(NetworkOf(w.stage.data).value)))
    case ResetNetwork => w.(sync := Given(w.sync, NetworkOf(w.stage.data)))
    case StartPost(ok) => w.(sync := PostLaunched(w.sync, w.stage.data.name, ok, 0).0)
    case TakeTethering => w.(sync := With(w.sync, Taken(TetheringOf(w.stage.data).value)))
    case Untether => w.(sync := Given(w.sync, TetheringOf(w.stage.data)), stage := Leaving(w.stage.data, 1))
    case StopPost =>
      w.(sync := if UsesApps(w.stage.data) then StoppedFrom(w.sync, 1, 0) else w.sync, stage := Leaving(w.stage.data, 2))
    case Disconnect => w.(sync := Given(w.sync, NetworkOf(w.stage.data)), stage := Leaving(w.stage.data, 3))
    case StopAll => w.(sync := if UsesApps(w.stage.data) then StoppedAll(w.sync) else w.sync, stage := Out)
    case Switch => if w.updated then w.(sync := w.sync.(apps := w.next), next := [], updated := false) else w
    case StopEverything => w.(sync := StoppedAll(w.sync.(apps := AllActive(w.sync.apps))))
    case Load(apps) =>
      if w.sync.apps == [] then w.(sync := w.sync.(apps := apps), next := [], updated := false)
      else w.(next := apps, updated := true)
  }

  predicate IsRun(w: World, ops: seq<Op>)
    decreases ops
  {
    |ops| == 0 || (CanDo(w, ops[0]) && IsRun(Do(w, ops[0]), ops[1..]))
  }

  function After(w: World, ops: seq<Op>): World
    requires IsRun(w, ops)
    decreases ops
  {
    if |ops| == 0 then w else After(Do(w, ops[0]), ops[1..])
  }

  /** What a run does to the mode data, and when it switches lists. */
  datatype Mark = Began | Ended | Switched

  function MarkOf(op: Op): seq<Mark> {
    match op
    case Begin(_) => [Began]
    case StopAll => [Ended]
    case Switch => [Switched]
    case _ => []
  }

  function Marks(ops: seq<Op>): seq<Mark> {
    if |ops| == 0 then [] else MarkOf(ops[0]) + Marks(ops[1..])
  }

  /** Every configuration ever loaded fits. */
  predicate Configured(ops: seq<Op>) {
    forall k :: 0 <= k < |ops| && ops[k].Load? ==> Fits(ops[k].apps)
  }

  /** Teardown of the present stage is still going to give r back. */
  predicate OwedBy(stage: Stage, r: Resource) {
    match stage
    case Out => false
    case Entering(d, _) => NetworkOf(d) == Some(r) || TetheringOf(d) == Some(r)
    case Leaving(d, done) => done < 3 && NetworkOf(d) == Some(r)
  }

  ghost predicate Inv(w: World) {
    && Fits(w.sync.apps) && Fits(w.next) && Fresh(w.next) && Covers(w.sync)
    && (match w.stage
        case Out => Resting(w.sync.apps)
        case Entering(d, started) => if started then UsesApps(d) else Resting(w.sync.apps)
        case Leaving(d, done) => UsesApps(d) || Resting(w.sync.apps))
    && (forall r: Resource :: !r.Unit? && r in Held(w.sync.log) ==> OwedBy(w.stage, r))
  }

  lemma GivenEffect(s: Sync, r: Option<Resource>)
    requires Covers(s) && (r.Some? ==> !r.value.Unit?)
    ensures var t := Given(s, r);
            Covers(t) && t.apps == s.apps && Held(t.log) == (if r.Some? then Held(s.log) - {r.value} else Held(s.log))
  {
    if r.Some? {
      HeldAfter(s.log, Dropped(r.value));
    }
  }

  lemma TakenEffect(s: Sync, r: Resource)
    requires Covers(s) && !r.Unit?
    ensures var t := With(s, Taken(r)); Covers(t) && Held(t.log) == Held(s.log) + {r}
  {
    HeldAfter(s.log, Taken(r));
  }

  lemma NewListKeepsInv(w: World, apps: seq<App>)
    requires Inv(w) && Resting(w.sync.apps) && Fits(apps) && Fresh(apps)
    ensures Inv(w.(sync := w.sync.(apps := apps), next := [], updated := false))
  {
    RestingHoldsNone(w.sync);
  }

  lemma StopEverythingKeepsInv(w: World)
    requires Inv(w) && w.stage.Out?
    ensures Inv(Do(w, StopEverything))
  {
    RestingHoldsNone(w.sync);
    var s := w.sync.(apps := AllActive(w.sync.apps));
    FitsStays(w.sync.apps, s.apps);
    StoppedAllRests(s);
    FitsStays(s.apps, StoppedAll(s).apps);
  }

  lemma StopEverythingKeepsShape(w: World)
    requires Inv(w) && w.stage.Out?
    ensures SameButStates(w.sync.apps, Do(w, StopEverything).sync.apps)
  {
    RestingHoldsNone(w.sync);
    var s := w.sync.(apps := AllActive(w.sync.apps));
    FitsStays(w.sync.apps, s.apps);
    StoppedAllRests(s);
    assert forall i :: 0 <= i < |s.apps| ==> SameButState(s.apps[i], StoppedAll(s).apps[i]);
  }

  lemma AppsKeepInv(w: World, op: Op)
    requires Inv(w) && CanDo(w, op) && (op.StartPre? || op.StartPost? || op.StopPost? || op.StopAll?)
    ensures Inv(Do(w, op))
  {
    match op {
      case StartPre(ok) => PreActivatedEffect(w.sync, w.stage.data.name, ok);
      case StartPost(ok) => PostLaunchedEffect(w.sync, w.stage.data.name, ok, 0);
      case StopPost => StoppedFromEffect(w.sync, 1, 0);
      case StopAll => StoppedAllRests(w.sync);
    }
    FitsStays(w.sync.apps, Do(w, op).sync.apps);
  }

  lemma OpKeepsInv(w: World, op: Op)
    requires Inv(w) && CanDo(w, op) && (op.Load? ==> Fits(op.apps))
    ensures Inv(Do(w, op))
  {
    match op
    case Begin(_) =>
    case TakeNetwork => TakenEffect(w.sync, NetworkOf(w.stage.data).value);
    case TakeTethering => TakenEffect(w.sync, TetheringOf(w.stage.data).value);
    case ResetNetwork => GivenEffect(w.sync, NetworkOf(w.stage.data));
    case Untether => GivenEffect(w.sync, TetheringOf(w.stage.data));
    case Disconnect => GivenEffect(w.sync, NetworkOf(w.stage.data));
    case Switch => NewListKeepsInv(w, w.next);
    case StopEverything => StopEverythingKeepsInv(w);
    case Load(apps) => if w.sync.apps == [] { NewListKeepsInv(w, apps); }
    case _ => AppsKeepInv(w, op);
  }

  lemma {:induction false} RunKeepsInv(w: World, ops: seq<Op>)
    requires Inv(w) && IsRun(w, ops) && Configured(ops)
    ensures Inv(After(w, ops))
    decreases ops
  {
    if |ops| > 0 {
      OpKeepsInv(w, ops[0]);
      forall k | 0 <= k < |ops[1..]| && ops[1..][k].Load? ensures Fits(ops[1..][k].apps) {
        assert ops[1..][k] == ops[k + 1];
      }
      RunKeepsInv(Do(w, ops[0]), ops[1..]);
    }
  }

  // ---- conservation --------------------------------------------------------------------------------

  /** Held(log) is what it is called: a resource taken and not held was dropped since. */
  lemma {:induction false} DroppedSince(log: seq<Event>, i: nat)
    requires i < |log| && log[i].Taken? && log[i].res !in Held(log)
    ensures exists j :: i < j < |log| && log[j] == Dropped(log[i].res)
    decreases |log|
  {
    var last := |log| - 1;
    if log[last] != Dropped(log[i].res) {
      assert i < last;
      DroppedSince(log[..last], i);
      var j :| i < j < last && log[..last][j] == Dropped(log[i].res);
      assert log[j] == Dropped(log[i].res);
    }
  }

  /** Does every loaded list have the entries that matter in one of the two phases? Either only its units
      matter, or all its entries do. */
  predicate InPhases(apps: seq<App>, all: bool) {
    forall i :: 0 <= i < |apps| && (all || apps[i].systemd) ==> Scheduled(apps[i])
  }

  predicate LoadsInPhases(ops: seq<Op>, all: bool) {
    forall k :: 0 <= k < |ops| && ops[k].Load? ==> InPhases(ops[k].apps, all)
  }

  /** The list in use keeps its entries, or is replaced by one that was loaded. */
  lemma OpKeepsPhases(w: World, op: Op, all: bool)
    requires Inv(w) && CanDo(w, op) && InPhases(w.sync.apps, all) && InPhases(w.next, all)
    requires op.Load? ==> InPhases(op.apps, all)
    ensures InPhases(Do(w, op).sync.apps, all) && InPhases(Do(w, op).next, all)
  {
    match op {
      case StartPre(ok) => PreActivatedEffect(w.sync, w.stage.data.name, ok);
      case StartPost(ok) => PostLaunchedEffect(w.sync, w.stage.data.name, ok, 0);
      case StopPost => StoppedFromEffect(w.sync, 1, 0);
      case StopAll => StoppedAllRests(w.sync);
      case StopEverything =>
        StopEverythingKeepsShape(w);
      case _ =>
    }
    if op.StartPre? || op.StartPost? || op.StopPost? || op.StopAll? || op.StopEverything? {
      assert forall i :: 0 <= i < |w.sync.apps| ==> SameButState(w.sync.apps[i], Do(w, op).sync.apps[i]);
    }
  }

  lemma {:induction false} RunKeepsPhases(w: World, ops: seq<Op>, all: bool)
    requires Inv(w) && InPhases(w.sync.apps, all) && InPhases(w.next, all)
    requires IsRun(w, ops) && Configured(ops) && LoadsInPhases(ops, all)
    ensures InPhases(After(w, ops).sync.apps, all) && InPhases(After(w, ops).next, all)
    decreases ops
  {
    if |ops| > 0 {
      OpKeepsInv(w, ops[0]);
      OpKeepsPhases(w, ops[0], all);
      assert forall k :: 0 <= k < |ops[1..]| ==> ops[1..][k] == ops[k + 1];
      RunKeepsPhases(Do(w, ops[0]), ops[1..], all);
    }
  }

  /** Everything taken so far has been dropped since. */
  predicate AllDropped(log: seq<Event>) {
    forall i :: 0 <= i < |log| && log[i].Taken? ==> exists j :: i < j < |log| && log[j] == Dropped(log[i].res)
  }

  predicate NoneActive(apps: seq<App>) {
    forall i :: 0 <= i < |apps| ==> !apps[i].state.Active?
  }

  predicate NoUnitActive(apps: seq<App>) {
    forall i :: 0 <= i < |apps| && apps[i].systemd ==> !apps[i].state.Active?
  }

  /** Once a mode has been left, each unit started and each network or tethering set up on its behalf has
      since been told to stop, and no application of either phase is booked as active, be it a unit or a
      dbus launched one. If all units, or all applications, belong to a phase, none of them is active. */
  lemma Conservation(ops: seq<Op>)
    requires IsRun(INITIAL, ops) && Configured(ops) && After(INITIAL, ops).stage.Out?
    ensures var w := After(INITIAL, ops);
            && AllDropped(w.sync.log)
            && Resting(w.sync.apps)
            && (LoadsInPhases(ops, false) ==> NoUnitActive(w.sync.apps))
            && (LoadsInPhases(ops, true) ==> NoneActive(w.sync.apps))
  {
    var w := After(INITIAL, ops);
    RunKeepsInv(INITIAL, ops);
    RestingHoldsNone(w.sync);
    forall i | 0 <= i < |w.sync.log| && w.sync.log[i].Taken?
      ensures exists j :: i < j < |w.sync.log| && w.sync.log[j] == Dropped(w.sync.log[i].res)
    {
      assert w.sync.log[i].res !in Held(w.sync.log);
      DroppedSince(w.sync.log, i);
    }
    if LoadsInPhases(ops, false) {
      RunKeepsPhases(INITIAL, ops, false);
    }
    if LoadsInPhases(ops, true) {
      RunKeepsPhases(INITIAL, ops, true);
    }
  }

  /** Reloading, at any moment, never makes the daemon forget an application that is to be stopped: a list
      that is replaced while in use has no active application of either phase, and one replaced before it was
      in use has none at all. If all applications belong to a phase, no active one is ever discarded. */
  lemma ReloadForgetsNothing(ops: seq<Op>, op: Op)
    requires IsRun(INITIAL, ops) && Configured(ops)
    requires var w := After(INITIAL, ops); CanDo(w, op) && (op.Switch? || op.Load?)
    ensures var w := After(INITIAL, ops); var r := Do(w, op);
            && (r.sync.apps == w.sync.apps || Resting(w.sync.apps))
            && (LoadsInPhases(ops, false) ==> r.sync.apps == w.sync.apps || NoUnitActive(w.sync.apps))
            && (LoadsInPhases(ops, true) ==> r.sync.apps == w.sync.apps || NoneActive(w.sync.apps))
            && NoneActive(w.next)
            && (forall n :: HasActiveUnit(w.sync.apps, n) ==> HasActiveUnit(r.sync.apps, n))
  {
    RunKeepsInv(INITIAL, ops);
    if LoadsInPhases(ops, false) {
      RunKeepsPhases(INITIAL, ops, false);
    }
    if LoadsInPhases(ops, true) {
      RunKeepsPhases(INITIAL, ops, true);
    }
  }

  // ---- the code's enter and leave are such runs ----------------------------------------------------

  lemma {:induction false} RunsCompose(w: World, a: seq<Op>, b: seq<Op>)
    requires IsRun(w, a) && IsRun(After(w, a), b)
    ensures IsRun(w, a + b) && After(w, a + b) == After(After(w, a), b)
    decreases a
  {
    if |a| == 0 {
      assert a + b == b;
    } else {
      RunsCompose(Do(w, a[0]), a[1..], b);
      assert (a + b)[1..] == a[1..] + b;
    }
  }

  lemma Regroup(x: seq<Mark>, y: seq<Mark>, z: seq<Mark>)
    ensures (x + y) + z == x + (y + z)
  {
  }

  lemma MarksOfMore(op: Op, ops: seq<Op>)
    ensures Marks([op] + ops) == MarkOf(op) + Marks(ops)
  {
    assert ([op] + ops)[1..] == ops;
  }

  lemma {:induction false} MarksCompose(a: seq<Op>, b: seq<Op>)
    ensures Marks(a + b) == Marks(a) + Marks(b)
    decreases a
  {
    if |a| == 0 {
      assert a + b == b;
    } else {
      MarksCompose(a[1..], b);
      MarksOfMore(a[0], a[1..] + b);
      MarksOfMore(a[0], a[1..]);
      Regroup(MarkOf(a[0]), Marks(a[1..]), Marks(b));
      assert a + b == [a[0]] + (a[1..] + b);
      assert a == [a[0]] + a[1..];
    }
  }

  lemma Extended(w: World, ops: seq<Op>, op: Op)
    requires IsRun(w, ops) && CanDo(After(w, ops), op)
    ensures IsRun(w, ops + [op]) && After(w, ops + [op]) == Do(After(w, ops), op)
    ensures Marks(ops + [op]) == Marks(ops) + MarkOf(op)
  {
    var v := After(w, ops);
    var one := [op];
    assert one[0] == op && one[1..] == [];
    assert IsRun(Do(v, op), []) && After(Do(v, op), []) == Do(v, op);
    assert IsRun(v, one);
    assert After(v, one) == After(Do(v, one[0]), one[1..]);
    RunsCompose(w, ops, [op]);
    MarksCompose(ops, one);
    assert Marks(one) == MarkOf(op) + [];
  }

  lemma {:induction false} BroughtUpIsRun(w: World, ops: seq<Op>, luck: Luck, i: nat) returns (all: seq<Op>)
    requires IsRun(w, ops) && i <= 3
    requires var v := After(w, ops); v.stage.Entering? && NetworkOf(v.stage.data).Some?
    ensures IsRun(w, all) && (Configured(ops) ==> Configured(all)) && Marks(all) == Marks(ops)
    ensures var v := After(w, ops);
            After(w, all) == v.(sync := BroughtUp(v.sync, v.stage.data.network.value, luck, i).0)
    decreases 3 - i
  {
    all := ops + [TakeNetwork];
    Extended(w, ops, TakeNetwork);
    if !Succeeds(luck.up, i) && i < 3 && Succeeds(luck.slept, i) {
      all := BroughtUpIsRun(w, all, luck, i + 1);
    }
  }

  lemma StartIsRun(w: World, data: ModeData, ok: seq<bool>) returns (ops: seq<Op>)
    requires w.stage.Out?
    ensures IsRun(w, ops) && Configured(ops) && Marks(ops) == [Began]
    ensures After(w, ops) == w.(sync := if UsesApps(data) then PreActivated(w.sync, data.name, ok).0 else w.sync,
                                stage := Entering(data, UsesApps(data)))
  {
    ops := [Begin(data)];
    Extended(w, [], Begin(data));
    assert [] + [Begin(data)] == ops;
    if UsesApps(data) {
      Extended(w, ops, StartPre(ok));
      ops := ops + [StartPre(ok)];
    }
  }

  lemma ConnectIsRun(w: World, ops: seq<Op>, luck: Luck) returns (all: seq<Op>)
    requires IsRun(w, ops) && Configured(ops)
    requires var v := After(w, ops); v.stage.Entering? && !v.stage.data.massStorage
    ensures IsRun(w, all) && Configured(all) && Marks(all) == Marks(ops)
    ensures var v := After(w, ops); After(w, all) == v.(sync := Networked(v.sync, v.stage.data.network, luck).0)
  {
    all := ops;
    if After(w, ops).stage.data.network.Some? {
      Extended(w, ops, ResetNetwork);
      all := BroughtUpIsRun(w, ops + [ResetNetwork], luck, 0);
    }
  }

  lemma FinishIsRun(w: World, ops: seq<Op>, luck: Luck) returns (all: seq<Op>)
    requires IsRun(w, ops) && Configured(ops)
    requires var v := After(w, ops); v.stage.Entering? && !v.stage.data.massStorage && v.stage.started == UsesApps(v.stage.data)
    ensures IsRun(w, all) && Configured(all) && Marks(all) == Marks(ops)
    ensures var v, d := After(w, ops), After(w, ops).stage.data;
            var s := if d.appsync then PostLaunched(v.sync, d.name, luck.post, 0).0 else v.sync;
            After(w, all) == v.(sync := if d.tethering.None? then s else With(s, Taken(Tethering(d.tethering.value))))
  {
    var d := After(w, ops).stage.data;
    all := ops;
    if d.appsync {
      Extended(w, all, StartPost(luck.post));
      all := all + [StartPost(luck.post)];
    }
    if d.tethering.Some? {
      Extended(w, all, TakeTethering);
      all := all + [TakeTethering];
    }
  }

  /** modesetting_enter_dynamic_mode only does what a run may do, however far it gets. */
  lemma EnterIsRun(w: World, data: ModeData, luck: Luck) returns (ops: seq<Op>)
    requires w.stage.Out?
    ensures IsRun(w, ops) && Configured(ops) && Marks(ops) == [Began]
    ensures After(w, ops) == w.(sync := Entered(w.sync, data, luck).0, stage := Entering(data, UsesApps(data)))
  {
    ops := StartIsRun(w, data, luck.pre);
    var s1 := After(w, ops).sync;
    if data.massStorage || (data.appsync && !PreActivated(w.sync, data.name, luck.pre).1) || !luck.gadget {
      return;
    }
    ops := ConnectIsRun(w, ops, luck);
    if !Networked(s1, data.network, luck).1 || (data.dhcp && !luck.dhcp) {
      return;
    }
    ops := FinishIsRun(w, ops, luck);
  }

  /** modesetting_leave_dynamic_mode likewise, and it completes the teardown. */
  lemma LeaveIsRun(w: World)
    requires w.stage.Entering?
    ensures var ops := [Untether, StopPost, Disconnect, StopAll];
            IsRun(w, ops) && Marks(ops) == [Ended] && After(w, ops) == w.(sync := Left(w.sync, w.stage.data), stage := Out)
  {
    var w1 := Do(w, Untether);
    var w2 := Do(w1, StopPost);
    var w3 := Do(w2, Disconnect);
    var w4 := Do(w3, StopAll);
    Extended(w, [], Untether);
    assert [] + [Untether] == [Untether];
    Extended(w, [Untether], StopPost);
    assert [Untether] + [StopPost] == [Untether, StopPost];
    Extended(w, [Untether, StopPost], Disconnect);
    assert [Untether, StopPost] + [Disconnect] == [Untether, StopPost, Disconnect];
    Extended(w, [Untether, StopPost, Disconnect], StopAll);
    assert [Untether, StopPost, Disconnect] + [StopAll] == [Untether, StopPost, Disconnect, StopAll];
  }
}
