/** Application lists in the loader's order, where entries of one name are neighbours: exactly which of them
    lose track of a unit. */
module AppsyncGroups {
  import opened Basics
  import opened Appsync
  import opened ModeSetting
  import opened AppsyncLaws
  import opened AppsyncLimits

  /** Entries of one name are neighbours (the loader sorts by name). */
  predicate Grouped(apps: seq<App>) {
    forall i, j, k :: 0 <= i < j < k < |apps| && apps[i].name == apps[k].name ==> apps[j].name == apps[i].name
  }

  /** The loader discards entries that are neither units nor dbus launched. */
  predicate Launchable(apps: seq<App>) {
    forall i :: 0 <= i < |apps| ==> apps[i].systemd || apps[i].launch
  }

  /** Some entry of this name is started in the first phase of the mode. */
  predicate Early(apps: seq<App>, name: string, mode: string) {
    exists i :: 0 <= i < |apps| && apps[i].name == name && apps[i].mode == mode && apps[i].post == 0
  }

  /** Entry e is never booked as active in the mode: dbus launched, in the second phase, and so is all there
      is of its name. */
  predicate Idles(apps: seq<App>, e: nat, mode: string) {
    && e < |apps| && apps[e].mode == mode && apps[e].post == 1 && !apps[e].systemd
    && !Early(apps, apps[e].name, mode)
    && forall i :: 0 <= i < |apps| && apps[i].name == apps[e].name && apps[i].mode == mode ==> !apps[i].systemd
  }

  /** Starting unit k in its mode leaves nothing behind that gets it stopped: either there is no such entry of
      its name, or the search for it ends at the first one, because of an idle entry before it. */
  predicate Leaky(apps: seq<App>, k: nat) {
    && k < |apps| && apps[k].systemd
    && (NeverStopped(apps, apps[k].name)
        || (apps[k].post != 0 && !Early(apps, apps[k].name, apps[k].mode)
            && (forall f :: 0 <= f < |apps| && IsFirst(apps, f) && apps[f].name == apps[k].name ==> !(apps[f].systemd && Scheduled(apps[f])))
            && exists e :: 0 <= e < k && apps[e].name != apps[k].name && Idles(apps, e, apps[k].mode)))
  }

  // ---- marking -------------------------------------------------------------------------------------

  predicate Blocks(app: App, post: int) {
    app.state.Inactive? && app.post == post
  }

  function WholeMarked(apps: seq<App>, name: string): (r: seq<App>)
    ensures |r| == |apps|
    ensures forall i :: 0 <= i < |r| ==> r[i] == if apps[i].name == name then apps[i].(state := Active) else apps[i]
  {
    seq(|apps|, i requires 0 <= i < |apps| => if apps[i].name == name then apps[i].(state := Active) else apps[i])
  }

  lemma MarkedOne(apps: seq<App>, i: nat, f: nat)
    requires Grouped(apps) && IsFirst(apps, f) && i < |apps| && apps[i].name == apps[f].name
    ensures var m := apps[i := apps[i].(state := Active)];
            Grouped(m) && IsFirst(m, f) && WholeMarked(m, m[f].name) == WholeMarked(apps, apps[f].name)
  {
  }

  lemma BeyondGroup(apps: seq<App>, i: nat, f: nat)
    requires Grouped(apps) && IsFirst(apps, f) && f < i <= |apps|
    requires i < |apps| ==> apps[i].name != apps[f].name
    requires forall x :: 0 <= x < i && apps[x].name == apps[f].name ==> apps[x].state.Active?
    ensures WholeMarked(apps, apps[f].name) == apps
  {
    assert forall x :: i <= x < |apps| ==> apps[x].name != apps[f].name;
  }

  /** With nothing inactive before it, a whole group is marked. */
  lemma {:induction false} MarkedWhole(apps: seq<App>, post: int, i: nat, f: nat)
    requires Grouped(apps) && IsFirst(apps, f) && i <= |apps|
    requires forall y :: 0 <= y < f ==> !Blocks(apps[y], post)
    requires forall x :: 0 <= x < i && apps[x].name == apps[f].name ==> apps[x].state.Active?
    ensures Marked(apps, apps[f].name, post, i, i > f, false) == WholeMarked(apps, apps[f].name)
    decreases |apps| - i
  {
    if i < |apps| && apps[i].name == apps[f].name {
      MarkedOne(apps, i, f);
      MarkedWhole(apps[i := apps[i].(state := Active)], post, i + 1, f);
    } else if i == |apps| || (f < i && Blocks(apps[i], post)) {
      BeyondGroup(apps, i, f);
    } else {
      MarkedWhole(apps, post, i + 1, f);
    }
  }

  /** With something inactive before it, only the first entry of a group is. */
  lemma {:induction false} MarkedFirst(apps: seq<App>, post: int, i: nat, f: nat, missing: bool)
    requires IsFirst(apps, f) && i <= f
    requires missing || exists e :: i <= e < f && Blocks(apps[e], post)
    ensures Marked(apps, apps[f].name, post, i, false, missing) == apps[f := apps[f].(state := Active)]
    decreases f - i
  {
    if i < f {
      MarkedFirst(apps, post, i + 1, f, missing || Blocks(apps[i], post));
    }
  }

  lemma GroupedStays(a: seq<App>, b: seq<App>)
    requires SameButStates(a, b)
    ensures Grouped(a) ==> Grouped(b)
    ensures forall i: nat :: IsFirst(a, i) <==> IsFirst(b, i)
  {
    assert forall i :: 0 <= i < |a| ==> SameButState(a[i], b[i]);
  }

  // ---- the first phase -----------------------------------------------------------------------------

  /** Some entry of this name before i is started in the first phase. */
  predicate Started(apps: seq<App>, mode: string, i: nat, name: string) {
    exists j :: 0 <= j < i && j < |apps| && apps[j].name == name && apps[j].mode == mode && apps[j].post == 0
  }

  /** After the first phase up to i: whole groups are active, or as prepared. */
  predicate EarlyMarked(base: seq<App>, apps: seq<App>, mode: string, i: nat) {
    && SameButStates(base, apps)
    && forall x :: 0 <= x < |apps| ==>
         if Started(base, mode, i, base[x].name) then apps[x].state.Active? else apps[x].state == base[x].state
  }

  predicate IsPrepared(base: seq<App>, mode: string) {
    forall i :: 0 <= i < |base| ==> base[i].state == if base[i].mode == mode then Inactive else DontCare
  }

  lemma EarlyStep(base: seq<App>, apps: seq<App>, mode: string, i: nat)
    requires Grouped(base) && IsPrepared(base, mode) && EarlyMarked(base, apps, mode, i)
    requires i < |base| && base[i].mode == mode && base[i].post == 0
    ensures Marked(apps, base[i].name, 0, 0, false, false) == WholeMarked(apps, base[i].name)
    ensures EarlyMarked(base, WholeMarked(apps, base[i].name), mode, i + 1)
  {
    GroupedStays(base, apps);
    var f := FirstEntry(base, i);
    forall y | 0 <= y < f ensures !Blocks(apps[y], 0) {
      assert SameButState(base[y], apps[y]);
      if base[y].mode == mode && base[y].post == 0 {
        assert Started(base, mode, i, base[y].name);
      }
    }
    assert SameButState(base[f], apps[f]);
    MarkedWhole(apps, 0, 0, f);
    var r := WholeMarked(apps, base[i].name);
    forall x | 0 <= x < |r|
      ensures SameButState(base[x], r[x])
      ensures if Started(base, mode, i + 1, base[x].name) then r[x].state.Active? else r[x].state == base[x].state
    {
      assert SameButState(base[x], apps[x]);
      assert Started(base, mode, i + 1, base[x].name) <==> Started(base, mode, i, base[x].name) || base[x].name == base[i].name;
    }
  }

  lemma EarlySkip(base: seq<App>, apps: seq<App>, mode: string, i: nat)
    requires EarlyMarked(base, apps, mode, i) && i < |base| && !(base[i].mode == mode && base[i].post == 0)
    ensures EarlyMarked(base, apps, mode, i + 1)
  {
    assert forall name :: Started(base, mode, i + 1, name) <==> Started(base, mode, i, name);
  }

  /** Units without an entry that gets them stopped do not occur. */
  predicate AllStoppable(apps: seq<App>) {
    forall k :: 0 <= k < |apps| && apps[k].systemd ==> !NeverStopped(apps, apps[k].name)
  }

  lemma GroupBooks(base: seq<App>, apps: seq<App>, name: string)
    requires SameButStates(base, apps) && !NeverStopped(base, name)
    requires forall x :: 0 <= x < |apps| && apps[x].name == name ==> apps[x].state.Active?
    ensures HasActiveUnit(apps, name)
  {
    var i :| 0 <= i < |base| && base[i].name == name && base[i].systemd && Scheduled(base[i]);
    assert SameButState(base[i], apps[i]);
    assert BooksUnit(apps[i], name);
  }

  /** A start that leaves the unit booked keeps all running units booked. */
  lemma TakenIsCovered(s: Sync, name: string, apps: seq<App>)
    requires Covers(s) && SameButStates(s.apps, apps) && HasActiveUnit(apps, name)
    requires forall k :: 0 <= k < |apps| ==> apps[k] == s.apps[k] || apps[k].state.Active?
    ensures var t := With(s, Taken(Unit(name))).(apps := apps); Covers(t)
  {
    HeldAfter(s.log, Taken(Unit(name)));
    var t := With(s, Taken(Unit(name))).(apps := apps);
    forall m | Unit(m) in Held(t.log) ensures HasActiveUnit(apps, m) {
      if m != name {
        ActiveStays(s.apps, apps, m);
      }
    }
  }

  /** An entry that is started in the first phase. */
  lemma EarlyStart(base: seq<App>, s: Sync, mode: string, i: nat)
    requires Grouped(base) && IsPrepared(base, mode) && AllStoppable(base)
    requires EarlyMarked(base, s.apps, mode, i) && i < |base| && Covers(s)
    requires base[i].mode == mode && base[i].post == 0
    ensures var t := MarkActive(if base[i].systemd then With(s, Taken(Unit(base[i].name))) else s, base[i].name, 0);
            Covers(t) && EarlyMarked(base, t.apps, mode, i + 1)
  {
    var name := base[i].name;
    EarlyStep(base, s.apps, mode, i);
    var marked := WholeMarked(s.apps, name);
    assert SameButStates(s.apps, marked);
    if base[i].systemd {
      assert forall x :: 0 <= x < |base| ==> SameButState(base[x], marked[x]);
      GroupBooks(base, marked, name);
      TakenIsCovered(s, name, marked);
    } else {
      MarkIsCovered(s, name, 0);
    }
  }

  lemma {:induction false} EarlyPhase(base: seq<App>, s: Sync, mode: string, ok: seq<bool>, i: nat)
    requires Grouped(base) && Launchable(base) && IsPrepared(base, mode) && AllStoppable(base)
    requires EarlyMarked(base, s.apps, mode, i) && i <= |base| && Covers(s)
    ensures var (t, done) := PreLaunched(s, mode, ok, i);
            Covers(t) && (done ==> EarlyMarked(base, t.apps, mode, |base|))
    decreases |base| - i
  {
    if i < |base| {
      assert SameButState(base[i], s.apps[i]);
      var app := s.apps[i];
      if app.mode != mode || app.post != 0 {
        EarlySkip(base, s.apps, mode, i);
        EarlyPhase(base, s, mode, ok, i + 1);
      } else if !app.systemd || Succeeds(ok, i) {
        EarlyStart(base, s, mode, i);
        EarlyPhase(base, MarkActive(if app.systemd then With(s, Taken(Unit(app.name))) else s, app.name, 0), mode, ok, i + 1);
      }
    }
  }

  // ---- the second phase ----------------------------------------------------------------------------

  /** An entry that idles precedes the group of f. */
  predicate Hindered(base: seq<App>, mode: string, f: nat) {
    exists e :: 0 <= e < f && Idles(base, e, mode)
  }

  /** A unit of this name before i is started in the second phase. */
  predicate LateStarted(base: seq<App>, mode: string, i: nat, name: string) {
    exists j :: 0 <= j < i && j < |base| && base[j].name == name && base[j].mode == mode && base[j].post != 0 && base[j].systemd
  }

  /** The group that starts at f has had a unit started with nothing in the way. */
  predicate SettledGroup(base: seq<App>, mode: string, i: nat, f: nat) {
    IsFirst(base, f) && LateStarted(base, mode, i, base[f].name) && !Hindered(base, mode, f)
  }

  /** During the second phase, up to i. */
  predicate LateMarked(base: seq<App>, apps: seq<App>, mode: string, i: nat) {
    && SameButStates(base, apps)
    && (forall x :: 0 <= x < |apps| ==> apps[x].state == base[x].state || apps[x].state.Active?)
    && (forall x :: 0 <= x < |apps| && Early(base, base[x].name, mode) ==> apps[x].state.Active?)
    && (forall x, f :: 0 <= x < |apps| && 0 <= f < |base| && SettledGroup(base, mode, i, f) && base[f].name == base[x].name
          ==> apps[x].state.Active?)
  }

  /** What is inactive and in the way goes back to an entry that idles. */
  lemma BlockedIsHindered(base: seq<App>, apps: seq<App>, mode: string, i: nat, f: nat, y: nat)
    requires Grouped(base) && IsPrepared(base, mode) && LateMarked(base, apps, mode, i)
    requires IsFirst(base, f) && f <= i && y < f && Blocks(apps[y], 1)
    ensures Hindered(base, mode, f)
  {
    assert SameButState(base[y], apps[y]);
    var g := FirstEntry(base, y);
    if !Hindered(base, mode, g) {
      assert base[y].mode == mode && base[y].post == 1;
      assert !SettledGroup(base, mode, i, g);
      forall u | 0 <= u < |base| && base[u].name == base[y].name && base[u].mode == mode ensures !base[u].systemd {
        assert base[u].post != 0 && base[f].name != base[y].name;
        assert u < f;
      }
      assert Idles(base, y, mode);
    }
  }

  lemma LateStepKeeps(base: seq<App>, apps: seq<App>, mode: string, i: nat, name: string)
    requires LateMarked(base, apps, mode, i)
    ensures var r := Marked(apps, name, 1, 0, false, false);
            && SameButStates(base, r) && |r| == |apps|
            && (forall x :: 0 <= x < |r| ==> r[x].state == base[x].state || r[x].state.Active?)
            && (forall x :: 0 <= x < |r| && apps[x].state.Active? ==> r[x].state.Active?)
            && (forall x :: 0 <= x < |r| && Early(base, base[x].name, mode) ==> r[x].state.Active?)
  {
    var r := Marked(apps, name, 1, 0, false, false);
    MarkedEffect(apps, name, 1, 0, false, false);
    SameTwice(base, apps, r);
  }

  lemma UnhinderedMarksAll(base: seq<App>, apps: seq<App>, mode: string, i: nat, f: nat)
    requires Grouped(base) && IsPrepared(base, mode) && LateMarked(base, apps, mode, i)
    requires i < |base| && IsFirst(base, f) && f <= i && base[f].name == base[i].name && !Hindered(base, mode, f)
    ensures Marked(apps, base[i].name, 1, 0, false, false) == WholeMarked(apps, base[i].name)
  {
    GroupedStays(base, apps);
    forall y | 0 <= y < f ensures !Blocks(apps[y], 1) {
      if Blocks(apps[y], 1) {
        BlockedIsHindered(base, apps, mode, i, f, y);
      }
    }
    assert SameButState(base[f], apps[f]);
    MarkedWhole(apps, 1, 0, f);
  }

  lemma LateStepSettles(base: seq<App>, apps: seq<App>, mode: string, i: nat, x: nat, g: nat)
    requires Grouped(base) && IsPrepared(base, mode) && LateMarked(base, apps, mode, i)
    requires i < |base| && base[i].mode == mode && base[i].post != 0 && base[i].systemd
    requires x < |base| && SettledGroup(base, mode, i + 1, g) && base[g].name == base[x].name
    ensures Marked(apps, base[i].name, 1, 0, false, false)[x].state.Active?
  {
    LateStepKeeps(base, apps, mode, i, base[i].name);
    if base[x].name == base[i].name {
      UnhinderedMarksAll(base, apps, mode, i, g);
      assert SameButState(base[x], apps[x]);
    } else {
      assert SettledGroup(base, mode, i, g);
    }
  }

  lemma LateStep(base: seq<App>, apps: seq<App>, mode: string, i: nat)
    requires Grouped(base) && IsPrepared(base, mode) && LateMarked(base, apps, mode, i)
    requires i < |base| && base[i].mode == mode && base[i].post != 0 && base[i].systemd
    ensures LateMarked(base, Marked(apps, base[i].name, 1, 0, false, false), mode, i + 1)
  {
    LateStepKeeps(base, apps, mode, i, base[i].name);
    forall x, g | 0 <= x < |base| && 0 <= g < |base| && SettledGroup(base, mode, i + 1, g) && base[g].name == base[x].name
      ensures Marked(apps, base[i].name, 1, 0, false, false)[x].state.Active?
    {
      LateStepSettles(base, apps, mode, i, x, g);
    }
  }

  lemma FirstBooks(base: seq<App>, apps: seq<App>, name: string, f: nat)
    requires SameButStates(base, apps) && IsFirst(base, f) && base[f].name == name && base[f].systemd && Scheduled(base[f])
    ensures HasActiveUnit(Marked(apps, name, 1, 0, false, false), name)
  {
    MarkedEffect(apps, name, 1, 0, false, false);
    GroupedStays(base, apps);
    var r := Marked(apps, name, 1, 0, false, false);
    assert SameButState(base[f], apps[f]) && SameButState(apps[f], r[f]);
    assert BooksUnit(r[f], name);
  }

  lemma EarlyBooks(base: seq<App>, apps: seq<App>, mode: string, i: nat, name: string)
    requires LateMarked(base, apps, mode, i) && Early(base, name, mode) && !NeverStopped(base, name)
    ensures HasActiveUnit(Marked(apps, name, 1, 0, false, false), name)
  {
    LateStepKeeps(base, apps, mode, i, name);
    var r := Marked(apps, name, 1, 0, false, false);
    forall x | 0 <= x < |r| && r[x].name == name ensures r[x].state.Active? {
      assert SameButState(base[x], r[x]);
    }
    GroupBooks(base, r, name);
  }

  lemma WholeBooks(base: seq<App>, apps: seq<App>, mode: string, i: nat, f: nat)
    requires Grouped(base) && IsPrepared(base, mode) && LateMarked(base, apps, mode, i)
    requires i < |base| && IsFirst(base, f) && f <= i && base[f].name == base[i].name && !Hindered(base, mode, f)
    requires !NeverStopped(base, base[i].name)
    ensures HasActiveUnit(Marked(apps, base[i].name, 1, 0, false, false), base[i].name)
  {
    UnhinderedMarksAll(base, apps, mode, i, f);
    LateStepKeeps(base, apps, mode, i, base[i].name);
    GroupBooks(base, WholeMarked(apps, base[i].name), base[i].name);
  }

  lemma HinderedIsLeaky(base: seq<App>, i: nat, f: nat)
    requires i < |base| && base[i].systemd && base[i].post != 0 && !Early(base, base[i].name, base[i].mode)
    requires IsFirst(base, f) && f <= i && base[f].name == base[i].name && !(base[f].systemd && Scheduled(base[f]))
    requires Hindered(base, base[i].mode, f)
    ensures Leaky(base, i)
  {
    var e :| 0 <= e < f && Idles(base, e, base[i].mode);
    assert forall g :: 0 <= g < |base| && IsFirst(base, g) && base[g].name == base[i].name ==> g == f;
    assert base[e].name != base[i].name;
  }

  /** A unit that is not leaky is booked by its start. */
  lemma LateBooks(base: seq<App>, apps: seq<App>, mode: string, i: nat)
    requires Grouped(base) && IsPrepared(base, mode) && LateMarked(base, apps, mode, i)
    requires i < |base| && base[i].mode == mode && base[i].post != 0 && base[i].systemd && !Leaky(base, i)
    ensures HasActiveUnit(Marked(apps, base[i].name, 1, 0, false, false), base[i].name)
  {
    var f := FirstEntry(base, i);
    if base[f].systemd && Scheduled(base[f]) {
      FirstBooks(base, apps, base[i].name, f);
    } else if Early(base, base[i].name, mode) {
      EarlyBooks(base, apps, mode, i, base[i].name);
    } else if Hindered(base, mode, f) {
      HinderedIsLeaky(base, i, f);
    } else {
      WholeBooks(base, apps, mode, i, f);
    }
  }

  predicate NoneLeaky(apps: seq<App>) {
    forall k :: 0 <= k < |apps| ==> !Leaky(apps, k)
  }

  lemma LateSkip(base: seq<App>, apps: seq<App>, mode: string, i: nat)
    requires LateMarked(base, apps, mode, i) && i < |base|
    requires !(base[i].mode == mode && base[i].post != 0 && base[i].systemd)
    ensures LateMarked(base, apps, mode, i + 1)
  {
    assert forall name :: LateStarted(base, mode, i + 1, name) <==> LateStarted(base, mode, i, name);
  }

  lemma {:induction false} LatePhase(base: seq<App>, s: Sync, mode: string, ok: seq<bool>, i: nat)
    requires Grouped(base) && IsPrepared(base, mode) && NoneLeaky(base)
    requires LateMarked(base, s.apps, mode, i) && i <= |base| && Covers(s)
    ensures Covers(PostLaunched(s, mode, ok, i).0)
    decreases |base| - i
  {
    if i < |base| {
      assert SameButState(base[i], s.apps[i]);
      var app := s.apps[i];
      if app.mode != mode || app.post == 0 || !app.systemd {
        LateSkip(base, s.apps, mode, i);
        LatePhase(base, s, mode, ok, i + 1);
      } else if Succeeds(ok, i) {
        var marked := Marked(s.apps, app.name, 1, 0, false, false);
        LateStep(base, s.apps, mode, i);
        LateBooks(base, s.apps, mode, i);
        MarkedEffect(s.apps, app.name, 1, 0, false, false);
        TakenIsCovered(s, app.name, marked);
        LatePhase(base, With(s, Taken(Unit(app.name))).(apps := marked), mode, ok, i + 1);
      }
    }
  }

  // ---- giving everything back ----------------------------------------------------------------------

  lemma {:induction false} PreFrame(s: Sync, mode: string, ok: seq<bool>, i: nat)
    ensures OnlyUnits(s, PreLaunched(s, mode, ok, i).0)
    decreases |s.apps| - i
  {
    if i < |s.apps| {
      var app := s.apps[i];
      HeldAfter(s.log, Taken(Unit(app.name)));
      if app.mode == mode && app.post == 0 && app.systemd {
        if Succeeds(ok, i) {
          PreFrame(MarkActive(With(s, Taken(Unit(app.name))), app.name, 0), mode, ok, i + 1);
        }
      } else if app.mode == mode && app.post == 0 && app.launch {
        PreFrame(MarkActive(s, app.name, 0), mode, ok, i + 1);
      } else {
        PreFrame(s, mode, ok, i + 1);
      }
    }
  }

  lemma {:induction false} PostFrame(s: Sync, mode: string, ok: seq<bool>, i: nat)
    ensures OnlyUnits(s, PostLaunched(s, mode, ok, i).0)
    decreases |s.apps| - i
  {
    if i < |s.apps| {
      var app := s.apps[i];
      HeldAfter(s.log, Taken(Unit(app.name)));
      if app.mode != mode || app.post == 0 || !app.systemd {
        PostFrame(s, mode, ok, i + 1);
      } else if Succeeds(ok, i) {
        PostFrame(MarkActive(With(s, Taken(Unit(app.name))), app.name, 1), mode, ok, i + 1);
      }
    }
  }

  /** What is taken besides units is what leaving the mode gives back. */
  ghost predicate OthersOwed(s: Sync, data: ModeData) {
    forall r: Resource :: !r.Unit? && r in Held(s.log) ==> NetworkOf(data) == Some(r) || TetheringOf(data) == Some(r)
  }

  lemma {:induction false} BroughtUpKeeps(s: Sync, data: ModeData, luck: Luck, i: nat)
    requires i <= 3 && NetworkOf(data).Some? && Covers(s) && OthersOwed(s, data)
    ensures var t := BroughtUp(s, data.network.value, luck, i).0;
            t.apps == s.apps && Covers(t) && OthersOwed(t, data)
    decreases 3 - i
  {
    TakenEffect(s, NetworkOf(data).value);
    if !Succeeds(luck.up, i) && i < 3 && Succeeds(luck.slept, i) {
      BroughtUpKeeps(With(s, Up(data.network.value)), data, luck, i + 1);
    }
  }

  lemma NetworkedKeeps(s: Sync, data: ModeData, luck: Luck)
    requires !data.massStorage && Covers(s) && OthersOwed(s, data)
    ensures var t := Networked(s, data.network, luck).0;
            t.apps == s.apps && Covers(t) && OthersOwed(t, data)
  {
    if data.network.Some? {
      GivenEffect(s, NetworkOf(data));
      BroughtUpKeeps(With(s, Down(data.network.value)), data, luck, 0);
    }
  }

  lemma TetheredKeeps(s: Sync, data: ModeData)
    requires !data.massStorage && data.tethering.Some? && Covers(s) && OthersOwed(s, data)
    ensures var t := With(s, Taken(Tethering(data.tethering.value))); t.apps == s.apps && Covers(t) && OthersOwed(t, data)
  {
    TakenEffect(s, TetheringOf(data).value);
  }

  lemma LeftGivesBack(s: Sync, data: ModeData)
    requires Covers(s) && OthersOwed(s, data) && (UsesApps(data) || Resting(s.apps))
    ensures Held(Left(s, data).log) == {}
  {
    var s1 := Given(s, TetheringOf(data));
    GivenEffect(s, TetheringOf(data));
    StoppedFromEffect(s1, 1, 0);
    var s2 := if UsesApps(data) then StoppedFrom(s1, 1, 0) else s1;
    var s3 := Given(s2, NetworkOf(data));
    GivenEffect(s2, NetworkOf(data));
    StoppedAllRests(s3);
    var t := Left(s, data);
    RestingHoldsNone(t);
    assert forall r :: r !in Held(t.log);
  }

  lemma StaticStays(a: seq<App>, b: seq<App>)
    requires SameButStates(a, b)
    ensures Grouped(a) ==> Grouped(b)
    ensures Launchable(a) ==> Launchable(b)
    ensures forall name :: NeverStopped(a, name) <==> NeverStopped(b, name)
    ensures forall name, mode :: Early(a, name, mode) <==> Early(b, name, mode)
  {
    assert forall i :: 0 <= i < |a| ==> SameButState(a[i], b[i]);
  }

  lemma IdlesStays(a: seq<App>, b: seq<App>, e: nat, mode: string)
    requires SameButStates(a, b) && Idles(b, e, mode)
    ensures Idles(a, e, mode)
  {
    StaticStays(a, b);
    assert forall i :: 0 <= i < |a| ==> SameButState(a[i], b[i]);
  }

  lemma LeakyStays(a: seq<App>, b: seq<App>, k: nat)
    requires SameButStates(a, b) && Leaky(b, k)
    ensures Leaky(a, k)
  {
    StaticStays(a, b);
    GroupedStays(a, b);
    assert forall i :: 0 <= i < |a| ==> SameButState(a[i], b[i]);
    if !NeverStopped(a, a[k].name) {
      var e :| 0 <= e < k && b[e].name != b[k].name && Idles(b, e, b[k].mode);
      IdlesStays(a, b, e, b[k].mode);
    }
  }

  lemma NoneLeakyStays(a: seq<App>, b: seq<App>)
    requires SameButStates(a, b) && NoneLeaky(a)
    ensures NoneLeaky(b)
  {
    forall k | 0 <= k < |b| ensures !Leaky(b, k) {
      if Leaky(b, k) {
        LeakyStays(a, b, k);
      }
    }
  }

  lemma NoneLeakyStoppable(apps: seq<App>)
    requires NoneLeaky(apps)
    ensures AllStoppable(apps)
  {
    assert forall k :: 0 <= k < |apps| && apps[k].systemd && NeverStopped(apps, apps[k].name) ==> Leaky(apps, k);
  }

  lemma LateBegins(base: seq<App>, apps: seq<App>, mode: string)
    requires EarlyMarked(base, apps, mode, |base|)
    ensures LateMarked(base, apps, mode, 0)
  {
    assert forall name :: Early(base, name, mode) <==> Started(base, mode, |base|, name);
  }

  lemma EarlyBegins(base: seq<App>, mode: string, i: nat)
    requires i == 0 || !AnyFor(base, mode)
    ensures EarlyMarked(base, base, mode, i)
  {
  }

  /** The first phase, from a fresh list. */
  lemma PreGroups(apps: seq<App>, mode: string, ok: seq<bool>)
    requires Fresh(apps) && Grouped(apps) && Launchable(apps) && NoneLeaky(apps)
    ensures var (t, done) := PreActivated(Sync(apps, []), mode, ok);
            var base := Prepared(apps, mode);
            && Covers(t) && OnlyUnits(Sync(apps, []), t)
            && Grouped(base) && IsPrepared(base, mode) && NoneLeaky(base)
            && (done ==> LateMarked(base, t.apps, mode, 0))
  {
    var base := Prepared(apps, mode);
    StaticStays(apps, base);
    NoneLeakyStays(apps, base);
    NoneLeakyStoppable(base);
    if AnyFor(apps, mode) {
      EarlyBegins(base, mode, 0);
      EarlyPhase(base, Sync(base, []), mode, ok, 0);
      PreFrame(Sync(base, []), mode, ok, 0);
      var (t, done) := PreLaunched(Sync(base, []), mode, ok, 0);
      if done {
        LateBegins(base, t.apps, mode);
      }
    } else {
      assert !AnyFor(base, mode);
      EarlyBegins(base, mode, |base|);
      LateBegins(base, base, mode);
    }
  }

  lemma PostGroups(base: seq<App>, s: Sync, data: ModeData, ok: seq<bool>)
    requires Grouped(base) && IsPrepared(base, data.name) && NoneLeaky(base) && LateMarked(base, s.apps, data.name, 0)
    requires Covers(s) && OthersOwed(s, data)
    ensures var t := PostLaunched(s, data.name, ok, 0).0; Covers(t) && OthersOwed(t, data)
  {
    LatePhase(base, s, data.name, ok, 0);
    PostFrame(s, data.name, ok, 0);
  }

  /** However far entering a mode gets, every unit it started is booked. */
  lemma EnteredIsCovered(apps: seq<App>, data: ModeData, luck: Luck)
    requires Fresh(apps) && Grouped(apps) && Launchable(apps) && NoneLeaky(apps)
    ensures var t := Entered(Sync(apps, []), data, luck).0;
            Covers(t) && OthersOwed(t, data) && (UsesApps(data) || t.apps == apps)
  {
    var s := Sync(apps, []);
    if data.massStorage {
      return;
    }
    PreGroups(apps, data.name, luck.pre);
    var (s1, started) := if data.appsync then PreActivated(s, data.name, luck.pre) else (s, true);
    if !started || !luck.gadget {
      return;
    }
    NetworkedKeeps(s1, data, luck);
    var (s2, connected) := Networked(s1, data.network, luck);
    if !connected || (data.dhcp && !luck.dhcp) {
      return;
    }
    if data.appsync {
      PostGroups(Prepared(apps, data.name), s2, data, luck.post);
    }
    var s3 := if data.appsync then PostLaunched(s2, data.name, luck.post, 0).0 else s2;
    if data.tethering.Some? {
      TetheredKeeps(s3, data);
    }
  }

  // ---- losing track of a unit ----------------------------------------------------------------------

  lemma MarkLeaves(apps: seq<App>, marked: string, post: int, name: string)
    requires marked != name
    ensures var r := Marked(apps, marked, post, 0, false, false);
            && |r| == |apps| && (forall mode :: Early(r, name, mode) <==> Early(apps, name, mode))
            && forall x :: 0 <= x < |apps| && apps[x].name == name ==> r[x] == apps[x]
  {
    MarkedEffect(apps, marked, post, 0, false, false);
    StaticStays(apps, Marked(apps, marked, post, 0, false, false));
    assert forall x :: 0 <= x < |apps| ==> SameButState(apps[x], Marked(apps, marked, post, 0, false, false)[x]);
  }

  lemma {:induction false} PreLeaves(s: Sync, mode: string, i: nat, name: string)
    requires !Early(s.apps, name, mode)
    ensures var t := PreLaunched(s, mode, [], i).0;
            |t.apps| == |s.apps| && forall x :: 0 <= x < |s.apps| && s.apps[x].name == name ==> t.apps[x] == s.apps[x]
    decreases |s.apps| - i
  {
    if i < |s.apps| {
      var app := s.apps[i];
      if app.mode == mode && app.post == 0 && (app.systemd || app.launch) {
        var s1 := MarkActive(if app.systemd then With(s, Taken(Unit(app.name))) else s, app.name, 0);
        MarkLeaves(s.apps, app.name, 0, name);
        PreLeaves(s1, mode, i + 1, name);
      } else {
        PreLeaves(s, mode, i + 1, name);
      }
    }
  }

  /** While entry e idles, no entry of the name of f but f itself is booked. */
  predicate OnlyFirst(apps: seq<App>, mode: string, f: nat, e: nat) {
    && e < f && IsFirst(apps, f) && Idles(apps, e, mode) && apps[e].state.Inactive?
    && forall x :: 0 <= x < |apps| && x != f && apps[x].name == apps[f].name ==> !apps[x].state.Active?
  }

  lemma OnlyFirstStays(s: Sync, mode: string, i: nat, f: nat, e: nat)
    requires OnlyFirst(s.apps, mode, f, e) && i < |s.apps| && s.apps[i].mode == mode && s.apps[i].systemd
    ensures var r := Marked(s.apps, s.apps[i].name, 1, 0, false, false); SameButStates(s.apps, r) && OnlyFirst(r, mode, f, e)
  {
    var name := s.apps[i].name;
    var r := Marked(s.apps, name, 1, 0, false, false);
    MarkedEffect(s.apps, name, 1, 0, false, false);
    GroupedStays(s.apps, r);
    IdlesStays(r, s.apps, e, mode);
    assert SameButState(s.apps[f], r[f]);
    if name == s.apps[f].name {
      MarkedFirst(s.apps, 1, 0, f, false);
    }
  }

  lemma {:induction false} PostOnlyFirst(s: Sync, mode: string, i: nat, f: nat, e: nat)
    requires OnlyFirst(s.apps, mode, f, e)
    ensures var t := PostLaunched(s, mode, [], i).0; SameButStates(s.apps, t.apps) && OnlyFirst(t.apps, mode, f, e)
    decreases |s.apps| - i
  {
    if i < |s.apps| {
      var app := s.apps[i];
      if app.mode == mode && app.post != 0 && app.systemd {
        OnlyFirstStays(s, mode, i, f, e);
        var s1 := MarkActive(With(s, Taken(Unit(app.name))), app.name, 1);
        PostOnlyFirst(s1, mode, i + 1, f, e);
        SameTwice(s.apps, s1.apps, PostLaunched(s1, mode, [], i + 1).0.apps);
      } else {
        PostOnlyFirst(s, mode, i + 1, f, e);
      }
    }
  }

  lemma PreOnlyFirst(apps: seq<App>, mode: string, f: nat, e: nat)
    requires IsFirst(apps, f) && !Early(apps, apps[f].name, mode) && e < f && Idles(apps, e, mode)
    ensures var t := PreLaunched(Sync(Prepared(apps, mode), []), mode, [], 0).0;
            SameButStates(apps, t.apps) && OnlyFirst(t.apps, mode, f, e)
  {
    var base := Prepared(apps, mode);
    StaticStays(apps, base);
    PreLeaves(Sync(base, []), mode, 0, apps[f].name);
    PreLeaves(Sync(base, []), mode, 0, apps[e].name);
    PreCompletes(Sync(base, []), mode, 0);
    var t := PreLaunched(Sync(base, []), mode, [], 0).0;
    SameTwice(apps, base, t.apps);
    GroupedStays(apps, t.apps);
    IdlesStays(t.apps, apps, e, mode);
    assert forall x :: 0 <= x < |apps| ==> SameButState(apps[x], t.apps[x]);
  }

  lemma HinderedLeaks(apps: seq<App>, k: nat, f: nat, e: nat)
    requires k < |apps| && apps[k].systemd && apps[k].post != 0 && !Early(apps, apps[k].name, apps[k].mode)
    requires IsFirst(apps, f) && apps[f].name == apps[k].name && !(apps[f].systemd && Scheduled(apps[f]))
    requires e < f && Idles(apps, e, apps[k].mode)
    ensures var data := ModeData(apps[k].mode, false, true, None, false, None);
            Unit(apps[k].name) in Held(Cycle(Sync(apps, []), data, GOOD_LUCK).log)
  {
    var mode, name := apps[k].mode, apps[k].name;
    PreOnlyFirst(apps, mode, f, e);
    var s2 := PreLaunched(Sync(Prepared(apps, mode), []), mode, [], 0).0;
    PostOnlyFirst(s2, mode, 0, f, e);
    StartsLate(apps, k);
    var t := PostLaunched(s2, mode, [], 0).0;
    assert SameButState(apps[f], t.apps[f]);
    assert !HasActiveUnit(t.apps, name);
    CycleOf(apps, k);
    StopMissesAll(t, name);
  }

  lemma LeakyLeaks(apps: seq<App>, k: nat)
    requires Grouped(apps) && Leaky(apps, k)
    ensures var data := ModeData(apps[k].mode, false, true, None, false, None);
            Unit(apps[k].name) in Held(Cycle(Sync(apps, []), data, GOOD_LUCK).log)
  {
    if NeverStopped(apps, apps[k].name) {
      Leaks(apps, k);
    } else {
      var e :| 0 <= e < k && apps[e].name != apps[k].name && Idles(apps, e, apps[k].mode);
      var f := FirstEntry(apps, k);
      assert e < f;
      HinderedLeaks(apps, k, f, e);
    }
  }

  /** Of a list as the loader makes it: entering and leaving any mode, with any outcomes, gives everything back
      if and only if none of its units is leaky. */
  lemma GivesBackExactly(apps: seq<App>)
    requires Fresh(apps) && Grouped(apps) && Launchable(apps)
    ensures (forall data, luck :: Held(Cycle(Sync(apps, []), data, luck).log) == {}) <==> NoneLeaky(apps)
  {
    if NoneLeaky(apps) {
      forall data, luck ensures Held(Cycle(Sync(apps, []), data, luck).log) == {} {
        EnteredIsCovered(apps, data, luck);
        LeftGivesBack(Entered(Sync(apps, []), data, luck).0, data);
      }
    } else {
      var k :| 0 <= k < |apps| && Leaky(apps, k);
      LeakyLeaks(apps, k);
    }
  }

  /** For instance, of namesakes that disagree on being units: the unit is started, but the search for the entry
      to book it on ends at the dbus launched one before it, because of another dbus launched application. */
  lemma DisagreementLeaks(other: string, name: string, mode: string)
    requires other != name
    ensures var apps := [App(other, mode, true, DontCare, false, 1), App(name, mode, true, DontCare, false, 1),
                         App(name, mode, false, DontCare, true, 1)];
            && Grouped(apps) && Launchable(apps) && !NeverStopped(apps, name)
            && Unit(name) in Held(Cycle(Sync(apps, []), ModeData(mode, false, true, None, false, None), GOOD_LUCK).log)
  {
    var apps := [App(other, mode, true, DontCare, false, 1), App(name, mode, true, DontCare, false, 1),
                 App(name, mode, false, DontCare, true, 1)];
    assert apps[2].systemd && Scheduled(apps[2]);
    assert apps[1].name == apps[2].name;
    assert !IsFirst(apps, 2);
    assert Idles(apps, 0, mode) && apps[0].name != apps[2].name;
    assert Leaky(apps, 2);
    LeakyLeaks(apps, 2);
  }
}
