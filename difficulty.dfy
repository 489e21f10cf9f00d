/** The spawn-probability controller of tryCreateObstacle: a spawn halves obstacle_gen_prob (floored
    at the minimum), a rejection multiplies it by 1.5 (capped at the maximum). */
module Difficulty {

  const InitObstacleGenProbability: real := 0.001
  const MinObstacleGenProbability: real := 0.001
  const MaxObstacleGenProbability: real := 0.05
  const ObstacleGenProbDecrMult: real := 0.50
  const ObstacleGenProbIncrMult: real := 1.50

  predicate InRange(p: real) {
    MinObstacleGenProbability <= p <= MaxObstacleGenProbability
  }

  /** The probability after a successful spawn. */
  function DecreaseProbability(p: real): (q: real)
    ensures MinObstacleGenProbability <= q
    ensures InRange(p) ==> InRange(q)
    ensures MinObstacleGenProbability <= p ==> q <= p
    ensures MinObstacleGenProbability < p ==> q < p
    ensures p * ObstacleGenProbDecrMult >= MinObstacleGenProbability ==> q == p * ObstacleGenProbDecrMult
  {
    var q := p * ObstacleGenProbDecrMult;
    if q < MinObstacleGenProbability then MinObstacleGenProbability else q
  }

  /** The probability after a rejected attempt. */
  function IncreaseProbability(p: real): (q: real)
    ensures q <= MaxObstacleGenProbability
    ensures InRange(p) ==> InRange(q)
    ensures 0.0 <= p <= MaxObstacleGenProbability ==> p <= q
    ensures 0.0 < p < MaxObstacleGenProbability ==> p < q
    ensures p * ObstacleGenProbIncrMult <= MaxObstacleGenProbability ==> q == p * ObstacleGenProbIncrMult
  {
    var q := p * ObstacleGenProbIncrMult;
    if q > MaxObstacleGenProbability then MaxObstacleGenProbability else q
  }

  /** The controller's update for one attempt. */
  function NextProbability(spawned: bool, p: real): (q: real)
    ensures InRange(p) ==> InRange(q)
    ensures InRange(p) && spawned ==> q <= p
    ensures InRange(p) && !spawned ==> p <= q
  {
    if spawned then DecreaseProbability(p) else IncreaseProbability(p)
  }

  /** Neither update is strict at its own bound: the controller can stay at either end. */
  lemma FixedAtBounds()
    ensures DecreaseProbability(MinObstacleGenProbability) == MinObstacleGenProbability
    ensures IncreaseProbability(MaxObstacleGenProbability) == MaxObstacleGenProbability
  {
  }

  /** Any run of attempts, from any in-range start, keeps the probability in range. */
  function RunController(p: real, outcomes: seq<bool>): (q: real)
    ensures InRange(p) ==> InRange(q)
    decreases |outcomes|
  {
    if |outcomes| == 0 then p else RunController(NextProbability(outcomes[0], p), outcomes[1..])
  }
}
