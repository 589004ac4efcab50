/** Entering and leaving a dynamic mode (src/usb_moded-modesetting.c), reduced to what it takes and gives
    back: application units, the network interface and tethering. Gadget configuration only succeeds or
    fails. */
module ModeSetting {
  import opened Basics
  import opened Appsync

  /** network: the interface, for modes that have network set. */
  datatype ModeData = ModeData(name: string, massStorage: bool, appsync: bool, network: Option<string>,
                               dhcp: bool, tethering: Option<string>)

  /** Outcomes of the calls into the rest of the system; slept: the pauses that were not cut short. */
  datatype Luck = Luck(storage: bool, pre: seq<bool>, gadget: bool, up: seq<bool>, slept: seq<bool>,
                       dhcp: bool, post: seq<bool>, tethering: bool)

  function Up(interface: string): Event { Taken(Network(interface)) }
  function Down(interface: string): Event { Dropped(Network(interface)) }

  /** network_up and its retries, from try i on. */
  function BroughtUp(s: Sync, interface: string, luck: Luck, i: nat): (Sync, bool)
    requires i <= 3
    decreases 3 - i
  {
    var s1 := With(s, Up(interface));
    if Succeeds(luck.up, i) then (s1, true)
    else if i < 3 && Succeeds(luck.slept, i) then BroughtUp(s1, interface, luck, i + 1)
    else (s1, false)
  }

  function Networked(s: Sync, network: Option<string>, luck: Luck): (Sync, bool) {
    match network
    case None => (s, true)
    case Some(interface) => BroughtUp(With(s, Down(interface)), interface, luck, 0)
  }

  function Entered(s: Sync, data: ModeData, luck: Luck): (Sync, bool) {
    if data.massStorage then (s, luck.storage)
    else
      var (s1, started) := if data.appsync then PreActivated(s, data.name, luck.pre) else (s, true);
      if !started || !luck.gadget then (s1, false)
      else
        var (s2, connected) := Networked(s1, data.network, luck);
        if !connected || (data.dhcp && !luck.dhcp) then (s2, false)
        else
          var s3 := if data.appsync then PostLaunched(s2, data.name, luck.post, 0).0 else s2;
          match data.tethering
          case None => (s3, true)
          case Some(technology) => (With(s3, Taken(Tethering(technology))), luck.tethering)
  }

  function Given(s: Sync, r: Option<Resource>): Sync {
    match r
    case None => s
    case Some(res) => With(s, Dropped(res))
  }

  function TetheringOf(data: ModeData): Option<Resource> {
    if data.massStorage || data.tethering.None? then None else Some(Tethering(data.tethering.value))
  }

  function NetworkOf(data: ModeData): Option<Resource> {
    if data.massStorage || data.network.None? then None else Some(Network(data.network.value))
  }

  predicate UsesApps(data: ModeData) {
    data.appsync && !data.massStorage
  }

  function Left(s: Sync, data: ModeData): Sync {
    var s1 := Given(s, TetheringOf(data));
    var s2 := if UsesApps(data) then StoppedFrom(s1, 1, 0) else s1;
    var s3 := Given(s2, NetworkOf(data));
    if UsesApps(data) then StoppedAll(s3) else s3
  }

  method EnterDynamicMode(lists: AppLists, data: Option<ModeData>, luck: Luck) returns (ack: bool)
    modifies lists`curr, lists`log
    ensures match data
            case None => !ack && lists.View() == old(lists.View())
            case Some(d) => (lists.View(), ack) == Entered(old(lists.View()), d, luck)
  {
    ack := false;
    if data.None? {
      return;
    }
    var d := data.value;
    if d.massStorage {
      return luck.storage;
    }
    if d.appsync {
      var failed := lists.ActivatePre(d.name, luck.pre);
      if failed {
        return;
      }
    }
    if !luck.gadget {
      return;
    }
    if d.network.Some? {
      var interface := d.network.value;
      ghost var before := lists.View();
      lists.log := lists.log + [Down(interface)];
      ghost var goal := BroughtUp(lists.View(), interface, luck, 0);
      lists.log := lists.log + [Up(interface)];
      var error := !Succeeds(luck.up, 0);
      var i := 0;
      while error && i < 3
        invariant 0 <= i <= 3 && lists.curr == before.apps
        invariant goal == if !error then (lists.View(), true)
                          else if i < 3 && Succeeds(luck.slept, i) then BroughtUp(lists.View(), interface, luck, i + 1)
                          else (lists.View(), false)
      {
        if !Succeeds(luck.slept, i) {
          break;
        }
        lists.log := lists.log + [Up(interface)];
        error := !Succeeds(luck.up, i + 1);
        i := i + 1;
      }
      assert goal == (lists.View(), !error);
      if error {
        return;
      }
    }
    if d.dhcp && !luck.dhcp {
      return;
    }
    if d.appsync {
      var _ := lists.ActivatePost(d.name, luck.post);
    }
    if d.tethering.Some? {
      lists.log := lists.log + [Taken(Tethering(d.tethering.value))];
      if !luck.tethering {
        return;
      }
    }
    ack := true;
  }

  method LeaveDynamicMode(lists: AppLists, data: Option<ModeData>)
    modifies lists`curr, lists`log
    ensures lists.View() == match data
                            case None => old(lists.View())
                            case Some(d) => Left(old(lists.View()), d)
  {
    if data.None? || data.value.massStorage {
      return;
    }
    var d := data.value;
    if d.tethering.Some? {
      lists.log := lists.log + [Dropped(Tethering(d.tethering.value))];
    }
    if d.appsync {
      lists.DeactivatePost();
    }
    if d.network.Some? {
      lists.log := lists.log + [Down(d.network.value)];
    }
    if d.appsync {
      lists.DeactivateAll(false);
    }
  }
}
