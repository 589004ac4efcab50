/** What entering and leaving a mode do, event by event: which units are started and stopped, in which order,
    and what becomes of the network and of tethering (src/usb_moded-appsync.c, src/usb_moded-modesetting.c). */
module AppsyncStarts {
  import opened Basics
  import opened Appsync
  import opened ModeSetting
  import opened AppsyncLaws
  import AppsyncLimits

  // ---- starting units ------------------------------------------------------------------------------

  /** A unit to be started before (early) or after enumeration in the mode. */
  predicate Due(app: App, mode: string, early: bool) {
    app.systemd && app.mode == mode && (early <==> app.post == 0)
  }

  /** The starts of the due units from i up to n, in list order. */
  function Starts(apps: seq<App>, mode: string, early: bool, i: nat, n: nat): seq<Event>
    requires i <= n <= |apps|
    decreases n - i
  {
    if i == n then []
    else (if Due(apps[i], mode, early) then [Taken(Unit(apps[i].name))] else []) + Starts(apps, mode, early, i + 1, n)
  }

  lemma {:induction false} StartsSame(a: seq<App>, b: seq<App>, mode: string, early: bool, i: nat, n: nat)
    requires SameButStates(a, b) && i <= n <= |a|
    ensures Starts(a, mode, early, i, n) == Starts(b, mode, early, i, n)
    decreases n - i
  {
    if i < n {
      assert SameButState(a[i], b[i]);
      StartsSame(a, b, mode, early, i + 1, n);
    }
  }

  /** The try at position k succeeds. */
  predicate Good(ok: seq<bool>, k: nat) {
    k < |ok| ==> ok[k]
  }

  /** Starting units from i on got as far as n: every due unit before n was started, in order, and no other; the
      phase ended there because that was the end of the list, or because the unit at n could not be started. */
  predicate StartedUpTo(s: Sync, t: Sync, done: bool, mode: string, early: bool, ok: seq<bool>, i: nat, n: nat) {
    && i <= n <= |s.apps|
    && t.log == s.log + Starts(s.apps, mode, early, i, n)
    && (forall k :: i <= k < n && Due(s.apps[k], mode, early) ==> Good(ok, k))
    && (done <==> n == |s.apps|)
    && (!done ==> Due(s.apps[n], mode, early) && !Good(ok, n))
  }

  lemma StartedOneMore(s: Sync, s1: Sync, t: Sync, done: bool, mode: string, early: bool, ok: seq<bool>, i: nat, n: nat)
    requires i < |s.apps| && SameButStates(s.apps, s1.apps)
    requires s1.log == s.log + if Due(s.apps[i], mode, early) then [Taken(Unit(s.apps[i].name))] else []
    requires Due(s.apps[i], mode, early) ==> Good(ok, i)
    requires StartedUpTo(s1, t, done, mode, early, ok, i + 1, n)
    ensures StartedUpTo(s, t, done, mode, early, ok, i, n)
  {
    StartsSame(s.apps, s1.apps, mode, early, i + 1, n);
    assert forall k :: 0 <= k < |s.apps| ==> SameButState(s.apps[k], s1.apps[k]);
  }

  lemma {:induction false} PreLaunchedStarts(s: Sync, mode: string, ok: seq<bool>, i: nat) returns (n: nat)
    requires i <= |s.apps|
    ensures var (t, done) := PreLaunched(s, mode, ok, i);
            SameButStates(s.apps, t.apps) && StartedUpTo(s, t, done, mode, true, ok, i, n)
    decreases |s.apps| - i
  {
    n := i;
    if i < |s.apps| {
      var app := s.apps[i];
      if !(Due(app, mode, true) && !Good(ok, i)) {
        var s1 := if app.mode != mode || app.post != 0 then s
                  else if app.systemd then MarkActive(With(s, Taken(Unit(app.name))), app.name, 0)
                  else if app.launch then MarkActive(s, app.name, 0) else s;
        MarkedEffect(s.apps, app.name, 0, 0, false, false);
        n := PreLaunchedStarts(s1, mode, ok, i + 1);
        var (t, done) := PreLaunched(s1, mode, ok, i + 1);
        StartedOneMore(s, s1, t, done, mode, true, ok, i, n);
        AppsyncLimits.SameTwice(s.apps, s1.apps, t.apps);
      }
    }
  }

  lemma {:induction false} NoneDue(apps: seq<App>, mode: string, early: bool, i: nat)
    requires i <= |apps| && !AnyFor(apps, mode)
    ensures Starts(apps, mode, early, i, |apps|) == []
    ensures forall k :: 0 <= k < |apps| ==> !Due(apps[k], mode, early)
    decreases |apps| - i
  {
    if i < |apps| {
      NoneDue(apps, mode, early, i + 1);
    }
  }

  /** The first phase of entering a mode starts exactly the units of the mode with post 0, in list order, up to
      the first one that can not be started. */
  lemma FirstPhaseStarts(s: Sync, mode: string, ok: seq<bool>) returns (n: nat)
    ensures var (t, done) := PreActivated(s, mode, ok);
            SameButStates(s.apps, t.apps) && StartedUpTo(s, t, done, mode, true, ok, 0, n)
  {
    var s1 := s.(apps := Prepared(s.apps, mode));
    n := PreLaunchedStarts(s1, mode, ok, 0);
    StartsSame(s.apps, s1.apps, mode, true, 0, n);
    assert forall k :: 0 <= k < |s.apps| ==> SameButState(s.apps[k], s1.apps[k]);
    if s.apps != [] && AnyFor(s.apps, mode) {
      AppsyncLimits.SameTwice(s.apps, s1.apps, PreLaunched(s1, mode, ok, 0).0.apps);
    } else {
      n := |s.apps|;
      NoneDue(s.apps, mode, true, 0);
    }
  }

  /** Starting units got to n in the list: to its end, or to the first due unit that can not be started. */
  predicate GotTo(apps: seq<App>, mode: string, early: bool, ok: seq<bool>, i: nat, n: nat) {
    && i <= n <= |apps| && (n == |apps| || (Due(apps[n], mode, early) && !Good(ok, n)))
    && forall k :: i <= k < n && Due(apps[k], mode, early) ==> Good(ok, k)
  }

  /** The first phase handles units and applications to be launched. */
  predicate Handled(app: App, mode: string) {
    app.mode == mode && app.post == 0 && (app.systemd || app.launch)
  }

  predicate HandledName(apps: seq<App>, mode: string, i: nat, n: nat, name: string) {
    exists k :: i <= k < n <= |apps| && Handled(apps[k], mode) && apps[k].name == name
  }

  /** Handling the entries from i up to n made the first entries of their names active, and no entry of another
      name. */
  predicate Books(a: seq<App>, b: seq<App>, mode: string, i: nat, n: nat) {
    && SameButStates(a, b)
    && (forall j :: 0 <= j < |a| ==> b[j] == a[j] || (b[j].state == Active && HandledName(a, mode, i, n, a[j].name)))
    && (forall j :: 0 <= j < |a| && IsFirst(a, j) && HandledName(a, mode, i, n, a[j].name) ==> b[j].state == Active)
  }

  lemma HandledLater(a: seq<App>, b: seq<App>, mode: string, i: nat, n: nat, name: string)
    requires SameButStates(a, b) && i < n <= |a|
    ensures HandledName(a, mode, i, n, name) <==> HandledName(b, mode, i + 1, n, name) || (Handled(a[i], mode) && a[i].name == name)
  {
    assert forall k :: 0 <= k < |a| ==> SameButState(a[k], b[k]);
    if k :| i <= k < n && Handled(a[k], mode) && a[k].name == name && k != i {
      assert Handled(b[k], mode) && b[k].name == name;
    }
    if k :| i + 1 <= k < n && Handled(b[k], mode) && b[k].name == name {
      assert Handled(a[k], mode) && a[k].name == name;
    }
  }

  /** The list after one entry has been handled. */
  function HandledOne(apps: seq<App>, mode: string, i: nat): (r: seq<App>)
    requires i < |apps|
    ensures SameButStates(apps, r)
  {
    MarkedEffect(apps, apps[i].name, 0, 0, false, false);
    if Handled(apps[i], mode) then Marked(apps, apps[i].name, 0, 0, false, false) else apps
  }

  lemma BookedOneMore(a: seq<App>, b: seq<App>, c: seq<App>, mode: string, i: nat, n: nat)
    requires i < n <= |a| && b == HandledOne(a, mode, i) && Books(b, c, mode, i + 1, n)
    ensures Books(a, c, mode, i, n)
  {
    MarkedEffect(a, a[i].name, 0, 0, false, false);
    AppsyncLimits.SameTwice(a, b, c);
    forall j | 0 <= j < |a|
      ensures c[j] == a[j] || (c[j].state == Active && HandledName(a, mode, i, n, a[j].name))
      ensures IsFirst(a, j) && HandledName(a, mode, i, n, a[j].name) ==> c[j].state == Active
    {
      assert SameButState(a[j], b[j]);
      HandledLater(a, b, mode, i, n, a[j].name);
      if IsFirst(a, j) {
        assert forall k :: 0 <= k < |a| ==> SameButState(a[k], b[k]);
        assert IsFirst(b, j);
      }
    }
  }

  lemma GotOneMore(a: seq<App>, b: seq<App>, mode: string, early: bool, ok: seq<bool>, i: nat, n: nat)
    requires i < |a| && SameButStates(a, b) && GotTo(b, mode, early, ok, i + 1, n)
    requires Due(a[i], mode, early) ==> Good(ok, i)
    ensures GotTo(a, mode, early, ok, i, n)
  {
    assert forall k :: 0 <= k < |a| ==> SameButState(a[k], b[k]);
  }

  lemma PreLaunchedOne(s: Sync, mode: string, ok: seq<bool>, i: nat)
    requires i < |s.apps| && (Due(s.apps[i], mode, true) ==> Good(ok, i))
    ensures var s1 := Sync(HandledOne(s.apps, mode, i), s.log + if Due(s.apps[i], mode, true) then [Taken(Unit(s.apps[i].name))] else []);
            PreLaunched(s, mode, ok, i) == PreLaunched(s1, mode, ok, i + 1)
  {
    assert s.log + [] == s.log;
  }

  lemma BooksNothing(apps: seq<App>, mode: string, i: nat)
    ensures Books(apps, apps, mode, i, i)
  {
  }

  lemma {:induction false} PreLaunchedBooks(s: Sync, mode: string, ok: seq<bool>, i: nat) returns (n: nat)
    requires i <= |s.apps|
    ensures GotTo(s.apps, mode, true, ok, i, n) && Books(s.apps, PreLaunched(s, mode, ok, i).0.apps, mode, i, n)
    decreases |s.apps| - i
  {
    if i < |s.apps| && (Due(s.apps[i], mode, true) ==> Good(ok, i)) {
      var apps := HandledOne(s.apps, mode, i);
      var s1 := Sync(apps, s.log + if Due(s.apps[i], mode, true) then [Taken(Unit(s.apps[i].name))] else []);
      PreLaunchedOne(s, mode, ok, i);
      n := PreLaunchedBooks(s1, mode, ok, i + 1);
      GotOneMore(s.apps, apps, mode, true, ok, i, n);
      BookedOneMore(s.apps, apps, PreLaunched(s1, mode, ok, i + 1).0.apps, mode, i, n);
    } else {
      n := i;
      assert PreLaunched(s, mode, ok, i).0 == s;
      BooksNothing(s.apps, mode, i);
    }
  }

  lemma SameHandled(a: seq<App>, b: seq<App>, mode: string, n: nat, name: string)
    requires SameButStates(a, b)
    ensures HandledName(a, mode, 0, n, name) <==> HandledName(b, mode, 0, n, name)
  {
    assert forall k :: 0 <= k < |a| ==> SameButState(a[k], b[k]);
    if k :| 0 <= k < n <= |a| && Handled(a[k], mode) && a[k].name == name {
      assert Handled(b[k], mode);
    }
    if k :| 0 <= k < n <= |a| && Handled(b[k], mode) && b[k].name == name {
      assert Handled(a[k], mode);
    }
  }

  /** What the first phase makes of the list: active are the first entries of all names handled, and at most other
      entries of those names; all else is inactive if it belongs to the mode, and "don't care" if not. */
  lemma FirstPhaseBooks(s: Sync, mode: string, ok: seq<bool>) returns (n: nat)
    ensures var t := PreActivated(s, mode, ok).0;
            && GotTo(s.apps, mode, true, ok, 0, n) && SameButStates(s.apps, t.apps)
            && forall j :: 0 <= j < |s.apps| ==>
                 && (t.apps[j].state == Active ==> HandledName(s.apps, mode, 0, n, s.apps[j].name))
                 && (t.apps[j].state == Inactive ==> s.apps[j].mode == mode)
                 && (t.apps[j].state == DontCare ==> s.apps[j].mode != mode)
                 && (IsFirst(s.apps, j) && HandledName(s.apps, mode, 0, n, s.apps[j].name) ==> t.apps[j].state == Active)
  {
    if s.apps == [] {
      n := 0;
    } else if !AnyFor(s.apps, mode) {
      n := |s.apps|;
    } else {
      var s1 := s.(apps := Prepared(s.apps, mode));
      n := PreLaunchedBooks(s1, mode, ok, 0);
      assert forall k :: 0 <= k < |s.apps| ==> SameButState(s.apps[k], s1.apps[k]);
      AppsyncLimits.SameTwice(s.apps, s1.apps, PreLaunched(s1, mode, ok, 0).0.apps);
      forall j | 0 <= j < |s.apps|
        ensures HandledName(s1.apps, mode, 0, n, s.apps[j].name) == HandledName(s.apps, mode, 0, n, s.apps[j].name)
        ensures IsFirst(s.apps, j) ==> IsFirst(s1.apps, j)
      {
        SameHandled(s.apps, s1.apps, mode, n, s.apps[j].name);
      }
    }
  }

  /** The second phase starts exactly the units of the mode with any other post, in list order, up to the first
      one that can not be started. */
  lemma {:induction false} SecondPhaseStarts(s: Sync, mode: string, ok: seq<bool>, i: nat) returns (n: nat)
    requires i <= |s.apps|
    ensures var (t, done) := PostLaunched(s, mode, ok, i);
            SameButStates(s.apps, t.apps) && StartedUpTo(s, t, done, mode, false, ok, i, n)
    decreases |s.apps| - i
  {
    n := i;
    if i < |s.apps| {
      var app := s.apps[i];
      if !(Due(app, mode, false) && !Good(ok, i)) {
        var s1 := if Due(app, mode, false) then MarkActive(With(s, Taken(Unit(app.name))), app.name, 1) else s;
        MarkedEffect(s.apps, app.name, 1, 0, false, false);
        n := SecondPhaseStarts(s1, mode, ok, i + 1);
        var (t, done) := PostLaunched(s1, mode, ok, i + 1);
        StartedOneMore(s, s1, t, done, mode, false, ok, i, n);
        AppsyncLimits.SameTwice(s.apps, s1.apps, t.apps);
      }
    }
  }

  /** A start is issued for a name if and only if a due unit has it. */
  lemma {:induction false} StartsAreDue(apps: seq<App>, mode: string, early: bool, i: nat, n: nat, e: Event)
    requires i <= n <= |apps|
    ensures e in Starts(apps, mode, early, i, n) <==>
            exists k :: i <= k < n && Due(apps[k], mode, early) && e == Taken(Unit(apps[k].name))
    decreases n - i
  {
    if i < n {
      var first := if Due(apps[i], mode, early) then [Taken(Unit(apps[i].name))] else [];
      var later := Starts(apps, mode, early, i + 1, n);
      StartsAreDue(apps, mode, early, i + 1, n, e);
      assert e in first + later <==> e in first || e in later;
      assert e in first <==> Due(apps[i], mode, early) && e == Taken(Unit(apps[i].name));
    }
  }

  // ---- stopping ------------------------------------------------------------------------------------

  /** The stops of the active units of a phase, from i on, in list order. */
  function Stops(apps: seq<App>, post: int, i: nat): seq<Event>
    requires i <= |apps|
    decreases |apps| - i
  {
    if i == |apps| then []
    else (if apps[i].systemd && apps[i].post == post && apps[i].state == Active then [Dropped(Unit(apps[i].name))] else [])
         + Stops(apps, post, i + 1)
  }

  lemma {:induction false} StopsSame(a: seq<App>, b: seq<App>, post: int, i: nat)
    requires |a| == |b| && i <= |a| && forall k :: i <= k < |a| ==> a[k] == b[k] || (a[k].post != post && b[k].post != post)
    ensures Stops(a, post, i) == Stops(b, post, i)
    decreases |a| - i
  {
    if i < |a| {
      StopsSame(a, b, post, i + 1);
    }
  }

  /** Stopping a phase stops its active units, in order, and leaves all other entries alone. */
  lemma {:induction false} PhaseStops(s: Sync, post: int, i: nat)
    requires i <= |s.apps|
    ensures var t := StoppedFrom(s, post, i);
            && t.log == s.log + Stops(s.apps, post, i) && |t.apps| == |s.apps|
            && forall k :: 0 <= k < |s.apps| ==>
                 t.apps[k] == if k >= i && s.apps[k].post == post && s.apps[k].state == Active then s.apps[k].(state := DontCare) else s.apps[k]
    decreases |s.apps| - i
  {
    if i < |s.apps| {
      var app := s.apps[i];
      if app.post != post || app.state != Active {
        PhaseStops(s, post, i + 1);
      } else {
        var s1 := if app.systemd then With(s, Dropped(Unit(app.name))) else s;
        var s2 := s1.(apps := s.apps[i := app.(state := DontCare)]);
        PhaseStops(s2, post, i + 1);
        StopsSame(s.apps, s2.apps, post, i + 1);
      }
    }
  }

  lemma {:induction false} NothingToStop(apps: seq<App>, post: int, i: nat)
    requires i <= |apps| && forall k :: i <= k < |apps| ==> apps[k].post != post || apps[k].state != Active
    ensures Stops(apps, post, i) == []
    decreases |apps| - i
  {
    if i < |apps| {
      NothingToStop(apps, post, i + 1);
    }
  }

  /** What leaving a mode does, in order: tethering off, the active units of the second phase stopped, network
      down, the active units of the first phase stopped; units only if the mode uses applications. */
  lemma LeavingExactly(s: Sync, data: ModeData)
    requires !data.massStorage
    ensures Left(s, data).log ==
            s.log + (if data.tethering.Some? then [Dropped(Tethering(data.tethering.value))] else [])
                  + (if data.appsync then Stops(s.apps, 1, 0) else [])
                  + (if data.network.Some? then [Dropped(Network(data.network.value))] else [])
                  + (if data.appsync then Stops(s.apps, 0, 0) else [])
  {
    var s1 := Given(s, TetheringOf(data));
    if data.appsync {
      PhaseStops(s1, 1, 0);
      var s2 := StoppedFrom(s1, 1, 0);
      var s3 := Given(s2, NetworkOf(data));
      PhaseStops(s3, 1, 0);
      NothingToStop(s3.apps, 1, 0);
      var s4 := StoppedFrom(s3, 1, 0);
      PhaseStops(s4, 0, 0);
      StopsSame(s.apps, s4.apps, 0, 0);
    }
  }

  /** ...and nothing at all for a mass storage mode. */
  lemma LeavingMassStorage(s: Sync, data: ModeData)
    requires data.massStorage
    ensures Left(s, data) == s
  {
  }

  // ---- the network ---------------------------------------------------------------------------------

  function Ups(interface: string, n: nat): seq<Event> {
    if n == 0 then [] else [Taken(Network(interface))] + Ups(interface, n - 1)
  }

  /** Bringing up the network is tried up to four times, as long as it fails and the pauses are not cut short. */
  lemma {:induction false} NetworkTries(s: Sync, interface: string, luck: Luck, i: nat) returns (n: nat)
    requires i <= 3
    ensures i < n <= 4
    ensures var (t, connected) := BroughtUp(s, interface, luck, i);
            && t == Sync(s.apps, s.log + Ups(interface, n - i))
            && (forall k :: i <= k < n - 1 ==> !Good(luck.up, k) && Good(luck.slept, k))
            && (connected <==> Good(luck.up, n - 1))
            && (!connected ==> n == 4 || !Good(luck.slept, n - 1))
    decreases 3 - i
  {
    n := i + 1;
    assert Ups(interface, 1) == [Taken(Network(interface))] + Ups(interface, 0);
    if !Good(luck.up, i) && i < 3 && Good(luck.slept, i) {
      var s1 := With(s, Up(interface));
      n := NetworkTries(s1, interface, luck, i + 1);
      assert s1.log + Ups(interface, n - i - 1) == s.log + Ups(interface, n - i);
    }
  }

  // ---- entering ------------------------------------------------------------------------------------

  /** All due units can be started. */
  predicate AllGood(apps: seq<App>, mode: string, early: bool, ok: seq<bool>) {
    forall k :: 0 <= k < |apps| && Due(apps[k], mode, early) ==> Good(ok, k)
  }

  /** The network comes up at some try that is reached. */
  predicate ComesUp(luck: Luck) {
    exists n: nat :: n <= 3 && Good(luck.up, n) && forall k :: 0 <= k < n ==> !Good(luck.up, k) && Good(luck.slept, k)
  }

  lemma NetworkExactly(s: Sync, interface: string, luck: Luck)
    ensures BroughtUp(s, interface, luck, 0).1 <==> ComesUp(luck)
  {
    var n := NetworkTries(s, interface, luck, 0);
    if BroughtUp(s, interface, luck, 0).1 {
      assert Good(luck.up, n - 1);
    }
  }

  /** Exactly when entering a mode succeeds: failing to start units of the second phase does not matter. */
  lemma EnteringSucceeds(s: Sync, data: ModeData, luck: Luck)
    ensures Entered(s, data, luck).1 <==>
            if data.massStorage then luck.storage
            else && (data.appsync ==> AllGood(s.apps, data.name, true, luck.pre))
                 && luck.gadget
                 && (data.network.Some? ==> ComesUp(luck))
                 && (data.dhcp ==> luck.dhcp)
                 && (data.tethering.Some? ==> luck.tethering)
  {
    if !data.massStorage {
      if data.appsync {
        var n := FirstPhaseStarts(s, data.name, luck.pre);
      }
      var s1 := if data.appsync then PreActivated(s, data.name, luck.pre).0 else s;
      if data.network.Some? {
        NetworkExactly(With(s1, Down(data.network.value)), data.network.value, luck);
      }
    }
  }

  lemma FirstPart(s: Sync, data: ModeData, luck: Luck)
    requires data.appsync && PreActivated(s, data.name, luck.pre).1
    ensures var t := PreActivated(s, data.name, luck.pre).0;
            SameButStates(s.apps, t.apps) && t.log == s.log + Starts(s.apps, data.name, true, 0, |s.apps|)
  {
    var n := FirstPhaseStarts(s, data.name, luck.pre);
  }

  lemma NetworkPart(s: Sync, data: ModeData, luck: Luck) returns (tries: nat)
    ensures var t := Networked(s, data.network, luck).0;
            && t.apps == s.apps
            && t.log == s.log + if data.network.Some? then [Dropped(Network(data.network.value))] + Ups(data.network.value, tries) else []
  {
    tries := 0;
    if data.network.Some? {
      tries := NetworkTries(With(s, Down(data.network.value)), data.network.value, luck, 0);
    }
  }

  lemma SecondPart(apps: seq<App>, s: Sync, data: ModeData, luck: Luck) returns (n: nat)
    requires SameButStates(apps, s.apps)
    ensures GotTo(apps, data.name, false, luck.post, 0, n)
    ensures PostLaunched(s, data.name, luck.post, 0).0.log == s.log + Starts(apps, data.name, false, 0, n)
  {
    n := SecondPhaseStarts(s, data.name, luck.post, 0);
    StartsSame(apps, s.apps, data.name, false, 0, n);
    assert forall k :: 0 <= k < |apps| ==> SameButState(apps[k], s.apps[k]);
  }

  /** What successfully entering a mode does, in order: the units of the first phase, the network, as many units
      of the second phase as can be started, tethering. */
  lemma EnteringExactly(s: Sync, data: ModeData, luck: Luck) returns (tries: nat, n: nat)
    requires !data.massStorage && Entered(s, data, luck).1
    ensures n <= |s.apps| && (data.appsync ==> GotTo(s.apps, data.name, false, luck.post, 0, n))
    ensures Entered(s, data, luck).0.log ==
            s.log + (if data.appsync then Starts(s.apps, data.name, true, 0, |s.apps|) else [])
                  + (if data.network.Some? then [Dropped(Network(data.network.value))] + Ups(data.network.value, tries) else [])
                  + (if data.appsync then Starts(s.apps, data.name, false, 0, n) else [])
                  + (if data.tethering.Some? then [Taken(Tethering(data.tethering.value))] else [])
  {
    n := 0;
    var s1 := s;
    if data.appsync {
      FirstPart(s, data, luck);
      s1 := PreActivated(s, data.name, luck.pre).0;
    }
    tries := NetworkPart(s1, data, luck);
    if data.appsync {
      n := SecondPart(s.apps, Networked(s1, data.network, luck).0, data, luck);
    }
  }

  // ---- reloading -----------------------------------------------------------------------------------

  /** The list loaded last is the one in use once lists have been switched. */
  lemma ReloadTakesEffect(w: World, apps: seq<App>)
    requires w.stage.Out? && Fresh(apps)
    ensures Do(Do(w, Load(apps)), Switch).sync == Sync(apps, w.sync.log)
  {
  }
}
