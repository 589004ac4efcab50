/** Mode names and the mode mapping table (src/usb_moded-modes.h, src/usb_moded-common.c). */
module Modes {
  import opened Basics

  /** The mode names the program itself knows; every other configured name is Named. */
  datatype Mode =
    | Undefined | Busy | DedicatedCharger | ChargingFallback | Ask | Charging
    | MassStorage | Developer | Mtp | Host | ConnectionSharing | Diag | Adb | PcSuite
    | Named(name: string)

  function ModeName(m: Mode): string {
    match m
    case Undefined => "undefined"
    case Busy => "busy"
    case DedicatedCharger => "dedicated_charger"
    case ChargingFallback => "charging_only_fallback"
    case Ask => "ask"
    case Charging => "charging_only"
    case MassStorage => "mass_storage"
    case Developer => "developer_mode"
    case Mtp => "mtp_mode"
    case Host => "host_mode"
    case ConnectionSharing => "connection_sharing"
    case Diag => "diag_mode"
    case Adb => "adb_mode"
    case PcSuite => "pc_suite"
    case Named(n) => n
  }

  const KNOWN_MODES: seq<Mode> :=
    [Undefined, Busy, DedicatedCharger, ChargingFallback, Ask, Charging, MassStorage,
     Developer, Mtp, Host, ConnectionSharing, Diag, Adb, PcSuite]

  function ModeFromNameAt(name: string, i: nat): (m: Mode)
    requires i <= |KNOWN_MODES|
    ensures ModeName(m) == name
    decreases |KNOWN_MODES| - i
  {
    if i == |KNOWN_MODES| then Named(name)
    else if ModeName(KNOWN_MODES[i]) == name then KNOWN_MODES[i]
    else ModeFromNameAt(name, i + 1)
  }

  /** The mode a configured name denotes. */
  function ModeFromName(name: string): (m: Mode)
    ensures ModeName(m) == name
  {
    ModeFromNameAt(name, 0)
  }

  lemma NamesDiffer(a: Mode, b: Mode)
    requires !a.Named? && !b.Named? && ModeName(a) == ModeName(b)
    ensures a == b
  {
    assert |ModeName(a)| == |ModeName(b)| && ModeName(a)[0] == ModeName(b)[0];
  }

  lemma KnownIndex(m: Mode) returns (i: nat)
    requires !m.Named?
    ensures i < |KNOWN_MODES| && KNOWN_MODES[i] == m
  {
    i := match m
      case Undefined => 0 case Busy => 1 case DedicatedCharger => 2 case ChargingFallback => 3
      case Ask => 4 case Charging => 5 case MassStorage => 6 case Developer => 7
      case Mtp => 8 case Host => 9 case ConnectionSharing => 10 case Diag => 11
      case Adb => 12 case PcSuite => 13;
  }

  lemma {:induction false} KnownIsFound(name: string, i: nat, k: nat)
    requires i <= k < |KNOWN_MODES| && ModeName(KNOWN_MODES[k]) == name
    ensures !ModeFromNameAt(name, i).Named?
    decreases k - i
  {
    if i < k {
      KnownIsFound(name, i + 1, k);
    }
  }

  /** A mode is read back from its name, unless it is a configured one with a name the program itself knows. */
  lemma NameRoundTrip(m: Mode)
    ensures ModeFromName(ModeName(m)) == m <==> !(m.Named? && exists k: Mode :: !k.Named? && ModeName(k) == m.name)
  {
    var r := ModeFromName(ModeName(m));
    if k: Mode :| !k.Named? && ModeName(k) == ModeName(m) {
      var i := KnownIndex(k);
      KnownIsFound(ModeName(m), 0, i);
      NamesDiffer(r, k);
    } else {
      assert r.Named?;
    }
  }

  /** Modes whose activation never exposes device data. */
  predicate IsStatic(m: Mode) {
    m.Undefined? || m.DedicatedCharger? || m.ChargingFallback? || m.Charging?
  }

  datatype Mapping = Mapping(internalMode: Mode, hardwareMode: Option<Mode>, externalMode: Option<Mode>)

  const MODE_MAPPING: seq<Mapping> := [
    Mapping(Undefined, Some(Charging), None),
    Mapping(Ask, Some(Charging), None),
    Mapping(MassStorage, None, None),
    Mapping(Developer, None, None),
    Mapping(Mtp, None, None),
    Mapping(Host, None, None),
    Mapping(ConnectionSharing, None, None),
    Mapping(Diag, None, None),
    Mapping(Adb, None, None),
    Mapping(PcSuite, None, None),
    Mapping(Charging, Some(Charging), None),
    Mapping(ChargingFallback, Some(Charging), None),
    Mapping(DedicatedCharger, Some(Charging), None)
  ]

  /** How the gadget is programmed for a logical mode. */
  function HardwareMode(m: Mode): Mode {
    if IsStatic(m) || m.Ask? then Charging else m
  }

  /** How a logical mode is announced over D-Bus. */
  function ExternalMode(m: Mode): Mode { m }

  method MapModeToHardware(internalMode: Mode) returns (hardwareMode: Mode)
    ensures hardwareMode == HardwareMode(internalMode)
  {
    var found: Option<Mode> := None;
    var i := 0;
    while i < |MODE_MAPPING|
      invariant 0 <= i <= |MODE_MAPPING|
      invariant found.None?
      invariant forall k :: 0 <= k < i ==> MODE_MAPPING[k].internalMode != internalMode
    {
      if MODE_MAPPING[i].internalMode == internalMode {
        found := MODE_MAPPING[i].hardwareMode;
        break;
      }
      i := i + 1;
    }
    if i == |MODE_MAPPING| {
      assert MODE_MAPPING[0].internalMode != internalMode && MODE_MAPPING[1].internalMode != internalMode;
      assert MODE_MAPPING[10].internalMode != internalMode && MODE_MAPPING[11].internalMode != internalMode;
      assert MODE_MAPPING[12].internalMode != internalMode;
    }
    hardwareMode := found.GetOr(internalMode);
  }

  /** No entry of the table renames a mode for D-Bus, so the announced name is the internal one. */
  method MapModeToExternal(internalMode: Mode) returns (externalMode: Mode)
    ensures externalMode == ExternalMode(internalMode)
  {
    var found: Option<Mode> := None;
    var i := 0;
    while i < |MODE_MAPPING|
      invariant 0 <= i <= |MODE_MAPPING|
      invariant found.None?
    {
      if MODE_MAPPING[i].internalMode == internalMode {
        found := MODE_MAPPING[i].externalMode;
        break;
      }
      i := i + 1;
    }
    externalMode := found.GetOr(internalMode);
  }
}
