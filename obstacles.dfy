/** The obstacle record and the 25-slot table, as values: a slot is Some obstacle or None (the C
    NULL). The functions here specify what createObstacle and moveObstacles do to the table;
    the lemmas relate them to the number of occupied slots, which obstacle_count must equal. */
module Obstacles {
  import opened Random

  const MaxNumOfObstacles: nat := 25

  const MinObstacleSize: real := 0.05
  const MaxObstacleSize: real := 0.1
  const MinObstacleSpeed: real := 0.001
  const MaxObstacleSpeed: real := 0.01

  datatype Option<T> = None | Some(value: T)

  datatype Obstacle = Obstacle(x: real, y: real, size: real, speed: real)

  type Slot = Option<Obstacle>

  /** The ranges every live obstacle keeps: x where it was drawn, its top at or above 1 - size
      (else it would have been freed), its size and speed where they were drawn. */
  predicate WellFormed(o: Obstacle) {
    0.0 <= o.x <= 1.0 &&
    0.0 <= o.y <= 1.0 - o.size &&
    MinObstacleSize <= o.size <= MaxObstacleSize &&
    MinObstacleSpeed <= o.speed <= MaxObstacleSpeed
  }

  predicate AllWellFormed(s: seq<Slot>) {
    forall i :: 0 <= i < |s| && s[i].Some? ==> WellFormed(s[i].value)
  }

  // ---------------------------------------------------------------
  // Counting occupied slots

  function Indicator(b: bool): nat {
    if b then 1 else 0
  }

  /** The number of non-null slots. */
  function Occupied(s: seq<Slot>): (n: nat)
    ensures n <= |s|
  {
    if |s| == 0 then 0 else Occupied(s[..|s| - 1]) + Indicator(s[|s| - 1].Some?)
  }

  /** Every slot is taken exactly when the count reaches the table size. */
  lemma {:induction false} OccupiedFull(s: seq<Slot>)
    ensures Occupied(s) == |s| <==> forall i :: 0 <= i < |s| ==> s[i].Some?
  {
    if |s| > 0 {
      var init := s[..|s| - 1];
      OccupiedFull(init);
      assert forall i :: 0 <= i < |init| ==> init[i] == s[i];
    }
  }

  /** No slot is taken exactly when the count is zero. */
  lemma {:induction false} OccupiedEmpty(s: seq<Slot>)
    ensures Occupied(s) == 0 <==> forall i :: 0 <= i < |s| ==> s[i].None?
  {
    if |s| > 0 {
      var init := s[..|s| - 1];
      OccupiedEmpty(init);
      assert forall i :: 0 <= i < |init| ==> init[i] == s[i];
    }
  }

  /** Overwriting one slot changes the count by what left and what arrived. */
  lemma {:induction false} OccupiedUpdate(s: seq<Slot>, k: nat, v: Slot)
    requires k < |s|
    ensures Occupied(s[k := v]) + Indicator(s[k].Some?) == Occupied(s) + Indicator(v.Some?)
  {
    var t := s[k := v];
    if k == |s| - 1 {
      assert t[..|t| - 1] == s[..|s| - 1];
    } else {
      OccupiedUpdate(s[..|s| - 1], k, v);
      assert t[..|t| - 1] == s[..|s| - 1][k := v];
    }
  }

  // ---------------------------------------------------------------
  // createObstacle

  /** The obstacle createObstacle builds from its three draws, taken in the order x, size, speed. */
  function NewObstacle(rx: real, rsize: real, rspeed: real): (o: Obstacle)
    ensures IsFraction(rx) && IsFraction(rsize) && IsFraction(rspeed) ==> WellFormed(o)
    ensures o.y == 0.0
  {
    Obstacle(GenRandDouble(0.0, 1.0, rx), 0.0,
             GenRandDouble(MinObstacleSize, MaxObstacleSize, rsize),
             GenRandDouble(MinObstacleSpeed, MaxObstacleSpeed, rspeed))
  }

  /** The lowest-indexed null slot, if there is one. */
  function FirstFree(s: seq<Slot>): (k: Option<nat>)
    ensures k.Some? ==> k.value < |s| && s[k.value].None? && forall j :: 0 <= j < k.value ==> s[j].Some?
    ensures k.None? ==> forall j :: 0 <= j < |s| ==> s[j].Some?
  {
    if |s| == 0 then None
    else if s[0].None? then Some(0)
    else match FirstFree(s[1..])
      case None => None
      case Some(k) => Some(k + 1)
  }

  /** The table after createObstacle with obstacle o: o in the first free slot, or no change. */
  function Place(s: seq<Slot>, o: Obstacle): (r: seq<Slot>)
    ensures |r| == |s|
  {
    match FirstFree(s)
    case None => s
    case Some(k) => s[k := Some(o)]
  }

  /** Placing fills exactly the first free slot, so the count goes up by one; on a full table
      nothing changes. */
  lemma PlaceEffect(s: seq<Slot>, o: Obstacle)
    ensures |Place(s, o)| == |s|
    ensures FirstFree(s).None? <==> Occupied(s) == |s|
    ensures FirstFree(s).None? ==> Place(s, o) == s
    ensures FirstFree(s).Some? ==> Occupied(Place(s, o)) == Occupied(s) + 1
    ensures FirstFree(s).Some? ==>
      Place(s, o)[FirstFree(s).value] == Some(o) &&
      forall j :: 0 <= j < |s| && j != FirstFree(s).value ==> Place(s, o)[j] == s[j]
  {
    OccupiedFull(s);
    match FirstFree(s)
    case None =>
    case Some(k) => OccupiedUpdate(s, k, Some(o));
  }

  lemma PlaceWellFormed(s: seq<Slot>, o: Obstacle)
    requires AllWellFormed(s) && WellFormed(o)
    ensures AllWellFormed(Place(s, o))
  {
  }

  // ---------------------------------------------------------------
  // moveObstacles

  /** One slot after moveObstacles: an obstacle falls by its own speed and is freed once its top
      is below 1 - size; a null slot stays null. */
  function AdvanceSlot(s: Slot): (r: Slot)
    ensures s.None? ==> r.None?
    ensures r.Some? ==> s.Some? && r.value == s.value.(y := s.value.y + s.value.speed)
    ensures r.Some? ==> r.value.y <= 1.0 - r.value.size
    ensures s.Some? && r.None? ==> s.value.y + s.value.speed > 1.0 - s.value.size
    ensures s.Some? && WellFormed(s.value) && r.Some? ==> WellFormed(r.value)
  {
    match s
    case None => None
    case Some(o) =>
      var moved := o.(y := o.y + o.speed);
      if moved.y > 1.0 - moved.size then None else Some(moved)
  }

  /** The slot is freed by this move. */
  predicate Exits(s: Slot) {
    s.Some? && AdvanceSlot(s).None?
  }

  /** The whole table after moveObstacles: the reference definition MoveObstacles' loop is proved
      equal to. */
  function AdvanceAll(s: seq<Slot>): (r: seq<Slot>)
    ensures |r| == |s|
    ensures forall i :: 0 <= i < |s| ==> r[i] == AdvanceSlot(s[i])
  {
    seq(|s|, i requires 0 <= i < |s| => AdvanceSlot(s[i]))
  }

  /** The number of slots moveObstacles frees, which is also the score it adds. */
  function ExitCount(s: seq<Slot>): (n: nat)
    ensures n <= Occupied(s)
  {
    if |s| == 0 then 0 else ExitCount(s[..|s| - 1]) + Indicator(Exits(s[|s| - 1]))
  }

  /** Every freed slot takes one off the count: the count after the move plus the freed slots is
      the count before. */
  lemma {:induction false} AdvanceAllCount(s: seq<Slot>)
    ensures Occupied(AdvanceAll(s)) + ExitCount(s) == Occupied(s)
  {
    if |s| > 0 {
      var init := s[..|s| - 1];
      AdvanceAllCount(init);
      assert AdvanceAll(s)[..|s| - 1] == AdvanceAll(init);
    }
  }

  lemma AdvanceAllWellFormed(s: seq<Slot>)
    requires AllWellFormed(s)
    ensures AllWellFormed(AdvanceAll(s))
  {
  }

  /** Moving an empty table leaves it empty and frees nothing. */
  lemma {:induction false} AdvanceEmpty(s: seq<Slot>)
    requires forall i :: 0 <= i < |s| ==> s[i].None?
    ensures AdvanceAll(s) == s && ExitCount(s) == 0
  {
    if |s| > 0 {
      AdvanceEmpty(s[..|s| - 1]);
    }
  }
}
