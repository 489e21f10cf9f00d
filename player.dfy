/** The player's constants and the two pure steps of movePlayer: the signed step along an axis and
    the clamp that keeps the player's box inside the unit square. */
module Player {

  const PlayerWidth: real := 0.05
  const PlayerHeight: real := 0.05
  const PlayerSpeed: real := 0.01

  /** Where the player starts, and where resetGame puts it back. */
  const StartX: real := 0.5
  const StartY: real := 1.0

  /** The pre-clamp displacement (pos - neg) * player_speed along one axis, each C flag read as the
      integer 0 or 1. */
  function Step(pos: bool, neg: bool): (d: real)
    ensures pos == neg ==> d == 0.0
    ensures pos && !neg ==> d == PlayerSpeed
    ensures !pos && neg ==> d == -PlayerSpeed
  {
    ((if pos then 1 else 0) - (if neg then 1 else 0)) as real * PlayerSpeed
  }

  /** The two-branch clamp of movePlayer: too far right (or down) snaps to 1 - extent, otherwise
      a negative coordinate snaps to 0. */
  function Clamp(v: real, extent: real): (c: real)
    ensures extent <= 1.0 ==> 0.0 <= c <= 1.0 - extent
    ensures 0.0 <= v <= 1.0 - extent ==> c == v
    ensures c == v || c == 0.0 || c == 1.0 - extent
  {
    if v > 1.0 - extent then 1.0 - extent
    else if v < 0.0 then 0.0
    else v
  }

  /** Clamping an in-range coordinate again changes nothing. */
  lemma ClampIdempotent(v: real, extent: real)
    requires extent <= 1.0
    ensures Clamp(Clamp(v, extent), extent) == Clamp(v, extent)
  {
  }

  /** Whatever the vertical flags, the first move after a reset pulls y = 1.0 back to 0.95. */
  lemma StartYPulledBack(up: bool, down: bool)
    ensures Clamp(StartY + Step(up, down), PlayerHeight) == 1.0 - PlayerHeight
  {
  }
}
