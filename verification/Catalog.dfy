/** Modes, faults and commands, as both ends number them (common/protocol/state.hpp). */
module Catalog {
  datatype Mode = BOOT | STANDBY | DETUMBLE | POINTING | DOWNLINK | SAFE

  datatype Trigger = PowerOn | Nominal | FaultEntry | FaultCleared | Timeout | Command

  datatype Severity = Warning | Degraded | Critical

  const FAULTS := 13
  const COMMANDS := 7
  const RESOLUTIONS := 3

  type Fault = f: int | 0 <= f < FAULTS

  const COMMAND_LINK_LOSS: Fault := 0
  const ACCEL_GYRO_DROPOUT: Fault := 1
  const MAG_DROPOUT: Fault := 2
  const POWER_DROPOUT: Fault := 3
  const UNDERVOLTAGE: Fault := 4
  const OVERVOLTAGE: Fault := 5
  const OVERCURRENT: Fault := 6
  const TEMP_DROPOUT: Fault := 7
  const UNDERTEMPERATURE: Fault := 8
  const OVERTEMPERATURE: Fault := 9
  const WHEEL_DROPOUT: Fault := 10
  const CAMERA_DROPOUT: Fault := 11
  const WHEEL_SATURATED: Fault := 12

  const NOOP := 0
  const SET_MODE := 1
  const CLEAR_FAULT := 2
  const CAPTURE_IMAGE := 3
  const SET_HEADING := 4
  // 5 asks for a telemetry frame, which changes nothing here
  const PULSE_WHEEL := 6

  /** A mode's wire value, which is its place in the list. */
  function ModeOf(id: nat): (m: Mode)
    requires id < 6
  {
    match id
    case 0 => BOOT
    case 1 => STANDBY
    case 2 => DETUMBLE
    case 3 => POINTING
    case 4 => DOWNLINK
    case _ => SAFE
  }

  const LOG_CAPACITY := 32

  /** What a ring of LOG_CAPACITY entries keeps of everything pushed into it. */
  function Recent<T>(all: seq<T>): (r: seq<T>)
    ensures |r| <= LOG_CAPACITY
  {
    if |all| > LOG_CAPACITY then all[|all| - LOG_CAPACITY..] else all
  }

  /** A push onto the ring: the oldest entry goes when it is full. */
  function RingPush<T>(ring: seq<T>, x: T): seq<T> {
    if |ring| < LOG_CAPACITY then ring + [x] else ring[1..] + [x]
  }

  lemma RingKeepsRecent<T>(all: seq<T>, x: T)
    ensures RingPush(Recent(all), x) == Recent(all + [x])
  {
  }

  /** The last LOG_CAPACITY entries are all still in the ring. */
  lemma RecentHolds<T(!new)>(all: seq<T>, i: nat)
    requires |all| - LOG_CAPACITY <= i < |all|
    ensures all[i] in Recent(all)
  {
    var ring := Recent(all);
    assert ring[i - (|all| - |ring|)] == all[i];
  }
}
