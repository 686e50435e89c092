/** The per-device presence automaton of presence.py, on values. */
module Presence {
  import opened Orders

  datatype PresenceState = Absent | Present

  datatype Transition = Transition(deviceId: int, state: PresenceState)

  datatype Thresholds = Thresholds(appear: int, disappear: int, rssi: int, cooldown: int, pruneAfter: int)
  {
    predicate Legal() { appear >= 1 && disappear >= 1 && cooldown >= 0 }

    /** No device stays in memory this many windows after it was last heard. */
    function MemoryBound(): int { Max(pruneAfter, disappear + Max(1, cooldown)) }
  }

  datatype DeviceState = DeviceState(
    state: PresenceState, hits: nat, misses: nat, cooldownRemaining: nat, presentEmitted: bool)

  const FRESH := DeviceState(Absent, 0, 0, 0, false)

  function Tick(d: DeviceState): DeviceState {
    if d.cooldownRemaining > 0 then d.(cooldownRemaining := d.cooldownRemaining - 1) else d
  }

  /** What one window makes of a device: its next state, what it announces,
      and whether it is dropped from memory afterwards. */
  datatype Outcome = Outcome(next: DeviceState, emitted: Option<PresenceState>, forget: bool)

  function MaybePresent(c: Thresholds, d: DeviceState): Outcome {
    if d.state.Present? || d.hits < c.appear then Outcome(d, None, false)
    else if d.cooldownRemaining == 0 then
      Outcome(d.(state := Present, hits := 0, presentEmitted := true), Some(Present), false)
    else
      Outcome(d.(state := Present, hits := 0, presentEmitted := false), None, false)
  }

  function MaybeAbsent(c: Thresholds, d: DeviceState): Outcome
    requires c.Legal()
  {
    if d.state.Absent? || d.misses < c.disappear then Outcome(d, None, ShouldPrune(c, d))
    else
      var gone := d.(state := Absent, cooldownRemaining := c.cooldown, presentEmitted := false);
      if d.presentEmitted then Outcome(gone, Some(Absent), false) else Outcome(gone, None, ShouldPrune(c, gone))
  }

  predicate ShouldPrune(c: Thresholds, d: DeviceState) {
    d.state.Absent? && d.misses >= c.pruneAfter && d.cooldownRemaining == 0
  }

  /** One window for one device: `hit` says whether it was heard loudly enough. */
  function Window(c: Thresholds, d: DeviceState, hit: bool): Outcome
    requires c.Legal()
  {
    if hit then MaybePresent(c, Tick(d).(hits := d.hits + 1, misses := 0))
    else MaybeAbsent(c, Tick(d).(misses := d.misses + 1, hits := 0))
  }
}
