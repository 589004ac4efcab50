/** What the application bookkeeping relies on: the assumptions of AppsyncLaws.Conservation are needed. */
module AppsyncLimits {
  import opened Basics
  import opened Appsync
  import opened ModeSetting
  import opened AppsyncLaws

  /** No entry of this name is a unit of one of the two phases: nothing stops the unit of that name. */
  predicate NeverStopped(apps: seq<App>, name: string) {
    forall i :: 0 <= i < |apps| && apps[i].name == name && apps[i].systemd ==> !Scheduled(apps[i])
  }

  /** Where a name has a unit of one of the two phases at all, its first entry is one. Lists without duplicate
      names are like that, and lists whose namesakes agree on being units and on having a phase. */
  predicate Orderly(apps: seq<App>) {
    forall i :: 0 <= i < |apps| && IsFirst(apps, i) && !(apps[i].systemd && Scheduled(apps[i]))
      ==> NeverStopped(apps, apps[i].name)
  }

  /** Entering a mode with the given outcomes and leaving it again. */
  function Cycle(s: Sync, data: ModeData, luck: Luck): Sync {
    Left(Entered(s, data, luck).0, data)
  }

  lemma SameTwice(a: seq<App>, b: seq<App>, c: seq<App>)
    requires SameButStates(a, b) && SameButStates(b, c)
    ensures SameButStates(a, c)
  {
    assert forall i :: 0 <= i < |a| ==> SameButState(a[i], b[i]) && SameButState(b[i], c[i]);
  }

  lemma {:induction false} PreCompletes(s: Sync, mode: string, i: nat)
    ensures var t := PreLaunched(s, mode, [], i); t.1 && SameButStates(s.apps, t.0.apps)
    decreases |s.apps| - i
  {
    if i < |s.apps| {
      var app := s.apps[i];
      if app.mode == mode && app.post == 0 && (app.systemd || app.launch) {
        MarkedEffect(s.apps, app.name, 0, 0, false, false);
        var s1 := MarkActive(if app.systemd then With(s, Taken(Unit(app.name))) else s, app.name, 0);
        PreCompletes(s1, mode, i + 1);
        SameTwice(s.apps, s1.apps, PreLaunched(s1, mode, [], i + 1).0.apps);
      } else {
        PreCompletes(s, mode, i + 1);
      }
    }
  }

  lemma {:induction false} PostTakes(s: Sync, mode: string, i: nat, k: nat)
    requires k < |s.apps| && s.apps[k].mode == mode && s.apps[k].systemd && s.apps[k].post != 0
    requires k < i ==> Unit(s.apps[k].name) in Held(s.log)
    ensures var t := PostLaunched(s, mode, [], i).0;
            SameButStates(s.apps, t.apps) && Unit(s.apps[k].name) in Held(t.log)
    decreases |s.apps| - i
  {
    if i < |s.apps| {
      var app := s.apps[i];
      if app.mode == mode && app.post != 0 && app.systemd {
        HeldAfter(s.log, Taken(Unit(app.name)));
        MarkedEffect(s.apps, app.name, 1, 0, false, false);
        var s1 := MarkActive(With(s, Taken(Unit(app.name))), app.name, 1);
        assert SameButState(s.apps[k], s1.apps[k]);
        PostTakes(s1, mode, i + 1, k);
        SameTwice(s.apps, s1.apps, PostLaunched(s1, mode, [], i + 1).0.apps);
      } else {
        PostTakes(s, mode, i + 1, k);
      }
    }
  }

  /** What is not booked is not stopped. */
  lemma {:induction false} StopMisses(s: Sync, post: int, i: nat, name: string)
    requires !HasActiveUnit(s.apps, name) && (post == 0 || post == 1) && Unit(name) in Held(s.log)
    ensures var t := StoppedFrom(s, post, i); !HasActiveUnit(t.apps, name) && Unit(name) in Held(t.log)
    decreases |s.apps| - i
  {
    if i < |s.apps| {
      var app := s.apps[i];
      if app.post == post && app.state.Active? {
        HeldAfter(s.log, Dropped(Unit(app.name)));
        var s1 := if app.systemd then With(s, Dropped(Unit(app.name))) else s;
        var s2 := s1.(apps := s.apps[i := app.(state := DontCare)]);
        assert app.systemd ==> BooksUnit(app, app.name);
        assert forall k :: 0 <= k < |s2.apps| && BooksUnit(s2.apps[k], name) ==> BooksUnit(s.apps[k], name);
        StopMisses(s2, post, i + 1, name);
      } else {
        StopMisses(s, post, i + 1, name);
      }
    }
  }

  lemma NeverStoppedStays(a: seq<App>, b: seq<App>, name: string)
    requires NeverStopped(a, name) && SameButStates(a, b)
    ensures NeverStopped(b, name) && !HasActiveUnit(b, name)
  {
    assert forall i :: 0 <= i < |a| ==> SameButState(a[i], b[i]);
  }

  const GOOD_LUCK := Luck(true, [], true, [], [], true, [], true)

  lemma StopMissesAll(s: Sync, name: string)
    requires !HasActiveUnit(s.apps, name) && Unit(name) in Held(s.log)
    ensures Unit(name) in Held(StoppedAll(StoppedFrom(s, 1, 0)).log)
  {
    StopMisses(s, 1, 0, name);
    var s1 := StoppedFrom(s, 1, 0);
    StopMisses(s1, 1, 0, name);
    StopMisses(StoppedFrom(s1, 1, 0), 0, 0, name);
  }

  lemma StartsLate(apps: seq<App>, k: nat)
    requires k < |apps| && apps[k].systemd && apps[k].post != 0
    ensures var s1 := Sync(Prepared(apps, apps[k].mode), []);
            var t := PostLaunched(PreLaunched(s1, apps[k].mode, [], 0).0, apps[k].mode, [], 0).0;
            SameButStates(apps, t.apps) && Unit(apps[k].name) in Held(t.log)
  {
    var mode := apps[k].mode;
    var s1 := Sync(Prepared(apps, mode), []);
    PreCompletes(s1, mode, 0);
    var s2 := PreLaunched(s1, mode, [], 0).0;
    SameTwice(apps, s1.apps, s2.apps);
    assert SameButState(apps[k], s2.apps[k]);
    PostTakes(s2, mode, 0, k);
    SameTwice(apps, s2.apps, PostLaunched(s2, mode, [], 0).0.apps);
  }

  /** What entering the mode of unit k does when all goes well. */
  lemma CycleOf(apps: seq<App>, k: nat)
    requires k < |apps|
    ensures var mode := apps[k].mode;
            var s1 := Sync(Prepared(apps, mode), []);
            var t := PostLaunched(PreLaunched(s1, mode, [], 0).0, mode, [], 0).0;
            Cycle(Sync(apps, []), ModeData(mode, false, true, None, false, None), GOOD_LUCK) == StoppedAll(StoppedFrom(t, 1, 0))
  {
    PreCompletes(Sync(Prepared(apps, apps[k].mode), []), apps[k].mode, 0);
  }

  /** A unit that is scheduled for neither phase, nor is any namesake of it, is started with the second phase
      and never stopped. */
  lemma Leaks(apps: seq<App>, k: nat)
    requires k < |apps| && apps[k].systemd && NeverStopped(apps, apps[k].name)
    ensures var data := ModeData(apps[k].mode, false, true, None, false, None);
            Unit(apps[k].name) in Held(Cycle(Sync(apps, []), data, GOOD_LUCK).log)
  {
    StartsLate(apps, k);
    CycleOf(apps, k);
    var mode := apps[k].mode;
    var t := PostLaunched(PreLaunched(Sync(Prepared(apps, mode), []), mode, [], 0).0, mode, [], 0).0;
    NeverStoppedStays(apps, t.apps, apps[k].name);
    StopMissesAll(t, apps[k].name);
  }

  lemma CycleGivesBack(apps: seq<App>, data: ModeData, luck: Luck)
    requires Fresh(apps) && Fits(apps)
    ensures Held(Cycle(Sync(apps, []), data, luck).log) == {}
  {
    var w := World(Sync(apps, []), [], false, Out);
    var ops := EnterIsRun(w, data, luck);
    RunKeepsInv(w, ops);
    var v := After(w, ops);
    LeaveIsRun(v);
    RunKeepsInv(v, [Untether, StopPost, Disconnect, StopAll]);
    var end := Cycle(w.sync, data, luck);
    RestingHoldsNone(end);
    assert forall r :: r !in Held(end.log);
  }

  /** Of a list whose duplicate names are orderly: entering and leaving any mode, with any outcomes, gives
      everything back if and only if the first entry of each unit's name is a unit with a post setting of 0
      or 1. */
  lemma GivesBackWhenOrderly(apps: seq<App>)
    requires Fresh(apps) && Orderly(apps)
    ensures (forall data, luck :: Held(Cycle(Sync(apps, []), data, luck).log) == {}) <==> Fits(apps)
  {
    if Fits(apps) {
      forall data, luck ensures Held(Cycle(Sync(apps, []), data, luck).log) == {} {
        CycleGivesBack(apps, data, luck);
      }
    } else {
      var i, j :| 0 <= i <= j < |apps| && apps[i].name == apps[j].name && apps[j].systemd && IsFirst(apps, i)
                  && !(apps[i].systemd && Scheduled(apps[i]));
      Leaks(apps, j);
    }
  }

  /** In particular, without duplicate names, if and only if each unit's post setting is 0 or 1. */
  lemma GivesBackWithoutDuplicates(apps: seq<App>)
    requires Fresh(apps)
    requires forall i, j :: 0 <= i < |apps| && 0 <= j < |apps| && apps[i].name == apps[j].name ==> i == j
    ensures (forall data, luck :: Held(Cycle(Sync(apps, []), data, luck).log) == {})
            <==> forall i :: 0 <= i < |apps| && apps[i].systemd ==> Scheduled(apps[i])
  {
    assert forall i: nat :: i < |apps| ==> IsFirst(apps, i);
    GivesBackWhenOrderly(apps);
  }
}
