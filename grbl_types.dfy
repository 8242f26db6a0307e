/** The values the GRBL client hands out: settings, positions, status reports and the
    events it emits. */
module GrblTypes {

  /** One line of the `$$` listing: a setting number, its value and what it means. */
  datatype GrblSetting = GrblSetting(id: int, value: real, description: string)

  /** A machine or work position; every coordinate starts at 0. */
  datatype Position = Position(x: real, y: real, z: real)

  const Origin := Position(0.0, 0.0, 0.0)

  /** One status report. Counters and overrides are 32-bit in the machine's own report;
      here they are unbounded. */
  datatype GrblStatus = GrblStatus(
    state: string,
    machinePos: Position,
    workPos: Position,
    feedRate: real,
    spindleSpeed: real,
    feedOverride: int,
    rapidOverride: int,
    spindleOverride: int,
    inputPins: string,
    bufferPlannerAvail: int,
    bufferRxAvail: int)

  /** The override percentage a status starts with. */
  const DefaultOverride := 100

  /** A default-constructed status: empty state, both positions at the origin, no feed or
      spindle speed, overrides at 100 and empty buffers. */
  const FreshStatus := GrblStatus("", Origin, Origin, 0.0, 0.0,
                                  DefaultOverride, DefaultOverride, DefaultOverride, "", 0, 0)

  /** The decimals the client prints coordinates, feeds and setting values with
      (std::fixed with std::setprecision(3)). */
  const Decimals: nat := 3

  /** Default arguments of the client's public operations. */
  const DefaultPort := ""
  const DefaultBaud := 115200
  const DefaultCommandTimeout := 5000

  /** What the client tells its event handler, in the order it does so. */
  datatype Event =
    | Connected(port: string, version: string)
    | Disconnected(port: string)
    | HomingComplete
    | FeedHoldSent
    | CycleStartSent
    | ResetSent
    | Unlocked
    | SettingChanged(id: int, value: real)
  {
    /** The event's type name. */
    function Kind(): (k: string)
      ensures |k| > 5 && k[..5] == "grbl_"
    {
      match this
      case Connected(_, _) => "grbl_connected"
      case Disconnected(_) => "grbl_disconnected"
      case HomingComplete => "grbl_homing_complete"
      case FeedHoldSent => "grbl_feed_hold"
      case CycleStartSent => "grbl_cycle_start"
      case ResetSent => "grbl_reset"
      case Unlocked => "grbl_unlocked"
      case SettingChanged(_, _) => "grbl_setting_changed"
    }
  }

  /** The type name tells the kinds of event apart: two events have the same name exactly
      when they are of the same kind. */
  lemma KindsDistinct(a: Event, b: Event)
    ensures a.Kind() == b.Kind() <==>
              || (a.Connected? && b.Connected?) || (a.Disconnected? && b.Disconnected?)
              || (a.HomingComplete? && b.HomingComplete?) || (a.FeedHoldSent? && b.FeedHoldSent?)
              || (a.CycleStartSent? && b.CycleStartSent?) || (a.ResetSent? && b.ResetSent?)
              || (a.Unlocked? && b.Unlocked?) || (a.SettingChanged? && b.SettingChanged?)
  {
  }
}
