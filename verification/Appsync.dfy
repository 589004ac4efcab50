/** Starting and stopping the applications that go with a mode (src/usb_moded-appsync.c), as called when a
    dynamic mode is entered and left (src/usb_moded-modesetting.c). Built without APP_SYNC_DBUS. */
module Appsync {

  datatype AppState = DontCare | Inactive | Active

  /** post: 0 = started before enumeration, 1 = after it. */
  datatype App = App(name: string, mode: string, launch: bool, state: AppState, systemd: bool, post: int)

  /** What entering a mode takes and leaving it must give back. */
  datatype Resource = Unit(name: string) | Network(interface: string) | Tethering(technology: string)

  /** Taken: a unit was started, or bringing up the network or tethering was attempted.
      Dropped: a stop was issued. */
  datatype Event = Taken(res: Resource) | Dropped(res: Resource)

  datatype Sync = Sync(apps: seq<App>, log: seq<Event>)

  /** Outcome of the i'th try. */
  predicate Succeeds(ok: seq<bool>, i: nat) {
    i < |ok| ==> ok[i]
  }

  /** Resources taken and not dropped since. */
  function Held(log: seq<Event>): set<Resource> {
    if |log| == 0 then {}
    else
      var before := Held(log[..|log| - 1]);
      match log[|log| - 1]
      case Taken(r) => before + {r}
      case Dropped(r) => before - {r}
  }

  function With(s: Sync, e: Event): Sync {
    s.(log := s.log + [e])
  }

  lemma HeldAfter(log: seq<Event>, e: Event)
    ensures Held(log + [e]) == if e.Taken? then Held(log) + {e.res} else Held(log) - {e.res}
  {
    assert (log + [e])[..|log|] == log;
  }

  // ---- what the loops compute ----------------------------------------------------------------------

  /** appsync_mark_active_locked from position i on. */
  function Marked(apps: seq<App>, name: string, post: int, i: nat, hit: bool, missing: bool): (r: seq<App>)
    ensures |r| == |apps|
    decreases |apps| - i
  {
    if i >= |apps| then apps
    else if apps[i].name == name then
      var m := apps[i := apps[i].(state := Active)];
      if missing then m else Marked(m, name, post, i + 1, true, missing)
    else if apps[i].state.Inactive? && apps[i].post == post then
      if hit then apps else Marked(apps, name, post, i + 1, hit, true)
    else Marked(apps, name, post, i + 1, hit, missing)
  }

  function MarkActive(s: Sync, name: string, post: int): Sync {
    s.(apps := Marked(s.apps, name, post, 0, false, false))
  }

  function Prepared(apps: seq<App>, mode: string): (r: seq<App>)
    ensures |r| == |apps|
    ensures forall i :: 0 <= i < |r| ==> r[i] == apps[i].(state := if apps[i].mode == mode then Inactive else DontCare)
  {
    seq(|apps|, i requires 0 <= i < |apps| => apps[i].(state := if apps[i].mode == mode then Inactive else DontCare))
  }

  predicate AnyFor(apps: seq<App>, mode: string) {
    exists i :: 0 <= i < |apps| && apps[i].mode == mode
  }

  /** The launching loop of the pre-enumeration phase, from position i on; false: a unit failed to start. */
  function PreLaunched(s: Sync, mode: string, ok: seq<bool>, i: nat): (Sync, bool)
    decreases |s.apps| - i
  {
    if i >= |s.apps| then (s, true)
    else
      var app := s.apps[i];
      if app.mode != mode || app.post != 0 then PreLaunched(s, mode, ok, i + 1)
      else if app.systemd then
        if !Succeeds(ok, i) then (s, false)
        else PreLaunched(MarkActive(With(s, Taken(Unit(app.name))), app.name, 0), mode, ok, i + 1)
      else if app.launch then PreLaunched(MarkActive(s, app.name, 0), mode, ok, i + 1)
      else PreLaunched(s, mode, ok, i + 1)
  }

  function PreActivated(s: Sync, mode: string, ok: seq<bool>): (Sync, bool) {
    var s1 := s.(apps := Prepared(s.apps, mode));
    if s.apps == [] then (s, true) else if !AnyFor(s.apps, mode) then (s1, true) else PreLaunched(s1, mode, ok, 0)
  }

  /** The launching loop of the post-enumeration phase: dbus launched applications are skipped. */
  function PostLaunched(s: Sync, mode: string, ok: seq<bool>, i: nat): (Sync, bool)
    decreases |s.apps| - i
  {
    if i >= |s.apps| then (s, true)
    else
      var app := s.apps[i];
      if app.mode != mode || app.post == 0 || !app.systemd then PostLaunched(s, mode, ok, i + 1)
      else if !Succeeds(ok, i) then (s, false)
      else PostLaunched(MarkActive(With(s, Taken(Unit(app.name))), app.name, 1), mode, ok, i + 1)
  }

  /** appsync_stop_apps from position i on. */
  function StoppedFrom(s: Sync, post: int, i: nat): Sync
    decreases |s.apps| - i
  {
    if i >= |s.apps| then s
    else
      var app := s.apps[i];
      if app.post != post || !app.state.Active? then StoppedFrom(s, post, i + 1)
      else
        var s1 := if app.systemd then With(s, Dropped(Unit(app.name))) else s;
        StoppedFrom(s1.(apps := s.apps[i := app.(state := DontCare)]), post, i + 1)
  }

  function StoppedAll(s: Sync): Sync {
    StoppedFrom(StoppedFrom(s, 1, 0), 0, 0)
  }

  // ---- the code ------------------------------------------------------------------------------------

  function AllActive(apps: seq<App>): (r: seq<App>)
    ensures |r| == |apps| && forall i :: 0 <= i < |r| ==> r[i] == apps[i].(state := Active)
  {
    seq(|apps|, i requires 0 <= i < |apps| => apps[i].(state := Active))
  }

  class AppLists {
    var curr: seq<App>
    var next: seq<App>
    var updated: bool
    ghost var log: seq<Event>

    ghost function View(): Sync
      reads this
    {
      Sync(curr, log)
    }

    constructor ()
      ensures curr == next == [] && !updated && log == []
    {
      curr, next, updated, log := [], [], false, [];
    }

    method SwitchConfiguration()
      modifies this`curr, this`next, this`updated
      ensures !updated
      ensures if old(updated) then curr == old(next) && next == [] else curr == old(curr) && next == old(next)
    {
      if updated {
        updated := false;
        curr := next;
        next := [];
      }
    }

    /** applist: what the configuration files hold now. */
    method LoadConfiguration(applist: seq<App>)
      modifies this`curr, this`next, this`updated
      ensures if old(curr) == [] then curr == applist && next == [] && !updated
              else curr == old(curr) && next == applist && updated
    {
      if |curr| == 0 {
        curr := applist;
        next := [];
        updated := false;
      } else {
        next := applist;
        updated := true;
      }
    }

    method MarkActiveLocked(name: string, post: int) returns (ret: int)
      modifies this`curr
      ensures View() == MarkActive(old(View()), name, post)
      ensures ret == -1 <==> forall k :: 0 <= k < |old(curr)| ==> old(curr)[k].name != name
    {
      ret := -1;
      var missing := false;
      var i := 0;
      ghost var goal := Marked(curr, name, post, 0, false, false);
      while i < |curr|
        invariant 0 <= i <= |curr| == |old(curr)|
        invariant goal == Marked(curr, name, post, i, ret != -1, missing)
        invariant ret == -1 <==> forall k :: 0 <= k < i ==> old(curr)[k].name != name
        invariant forall k :: 0 <= k < |curr| ==> curr[k].name == old(curr)[k].name
        decreases |curr| - i
      {
        if curr[i].name == name {
          ret := if curr[i].state.Active? then 0 else 1;
          curr := curr[i := curr[i].(state := Active)];
          assert old(curr)[i].name == name;
          if missing {
            break;
          }
        } else if curr[i].state.Inactive? && curr[i].post == post {
          missing := true;
          if ret != -1 {
            break;
          }
        }
        i := i + 1;
      }
    }

    method ActivatePre(mode: string, ok: seq<bool>) returns (failed: bool)
      modifies this`curr, this`log
      ensures (View(), !failed) == PreActivated(old(View()), mode, ok)
    {
      failed := false;
      if |curr| == 0 {
        return;
      }
      var count := 0;
      for i := 0 to |curr|
        invariant |curr| == |old(curr)|
        invariant curr[..i] == Prepared(old(curr), mode)[..i] && curr[i..] == old(curr)[i..]
        invariant count == 0 <==> forall k :: 0 <= k < i ==> old(curr)[k].mode != mode
        invariant count >= 0 && log == old(log)
      {
        assert curr[i] == curr[i..][0];
        if curr[i].mode == mode {
          count := count + 1;
          curr := curr[i := curr[i].(state := Inactive)];
        } else {
          curr := curr[i := curr[i].(state := DontCare)];
        }
      }
      assert curr == Prepared(old(curr), mode);
      if count <= 0 {
        return;
      }
      ghost var goal := PreLaunched(View(), mode, ok, 0);
      for i := 0 to |curr|
        invariant |curr| == |old(curr)|
        invariant goal == PreLaunched(View(), mode, ok, i)
      {
        if curr[i].mode == mode {
          if curr[i].post != 0 {
            continue;
          }
          if curr[i].systemd {
            if !Succeeds(ok, i) {
              return true;
            }
            log := log + [Taken(Unit(curr[i].name))];
            var _ := MarkActiveLocked(curr[i].name, 0);
          } else if curr[i].launch {
            var _ := MarkActiveLocked(curr[i].name, 0);
            continue;
          }
        }
      }
    }

    method ActivatePost(mode: string, ok: seq<bool>) returns (failed: bool)
      modifies this`curr, this`log
      ensures (View(), !failed) == PostLaunched(old(View()), mode, ok, 0)
    {
      failed := false;
      if |curr| == 0 {
        return;
      }
      ghost var goal := PostLaunched(View(), mode, ok, 0);
      for i := 0 to |curr|
        invariant |curr| == |old(curr)|
        invariant goal == PostLaunched(View(), mode, ok, i)
      {
        if curr[i].mode == mode {
          if curr[i].post == 0 {
            continue;
          }
          if curr[i].systemd {
            if !Succeeds(ok, i) {
              failed := true;
              break;
            }
            log := log + [Taken(Unit(curr[i].name))];
            var _ := MarkActiveLocked(curr[i].name, 1);
          } else if curr[i].launch {
            continue;
          }
        }
      }
    }

    method StopApps(post: int)
      modifies this`curr, this`log
      ensures View() == StoppedFrom(old(View()), post, 0)
    {
      ghost var goal := StoppedFrom(View(), post, 0);
      for i := 0 to |curr|
        invariant |curr| == |old(curr)|
        invariant goal == StoppedFrom(View(), post, i)
      {
        if curr[i].post == post && curr[i].state.Active? {
          if curr[i].systemd {
            log := log + [Dropped(Unit(curr[i].name))];
          }
          curr := curr[i := curr[i].(state := DontCare)];
        }
      }
    }

    method DeactivatePost()
      modifies this`curr, this`log
      ensures View() == StoppedFrom(old(View()), 1, 0)
    {
      StopApps(1);
    }

    method DeactivateAll(force: bool)
      modifies this`curr, this`log
      ensures var s := old(View());
              View() == StoppedAll(if force then s.(apps := AllActive(s.apps)) else s)
    {
      if force {
        for i := 0 to |curr|
          invariant |curr| == |old(curr)| && log == old(log)
          invariant curr[..i] == AllActive(old(curr))[..i] && curr[i..] == old(curr)[i..]
        {
          assert curr[i] == curr[i..][0];
          curr := curr[i := curr[i].(state := Active)];
        }
        assert curr == AllActive(old(curr));
      }
      StopApps(1);
      StopApps(0);
    }
  }

}
