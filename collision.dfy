/** Collision detection: the integer box-overlap test pairCollision and the pixel boxes that
    checkCollision builds from the player's and an obstacle's unit-square coordinates. */
module Collision {
  import opened Player
  import opened Obstacles

  /** Window size in pixels, and the uniform scale for an obstacle's side: (800 + 600) / 2.0. */
  const WindowX: real := 800.0
  const WindowY: real := 600.0
  const ObstacleScale: real := (WindowX + WindowY) / 2.0

  /** The C cast (int) v of a double: rounds toward zero. */
  function Trunc(v: real): (n: int)
    ensures 0.0 <= v ==> 0 <= n && n as real <= v < n as real + 1.0
    ensures v < 0.0 ==> n <= 0 && n as real - 1.0 < v <= n as real
  {
    if v >= 0.0 then v.Floor else -((-v).Floor)
  }

  /** pairCollision on boxes (top, bottom, left, right): each early return of the C code is one
      way the boxes can be apart. */
  function PairCollision(topA: int, bottomA: int, leftA: int, rightA: int,
                         topB: int, bottomB: int, leftB: int, rightB: int): (hit: bool)
    ensures hit <==> bottomA > topB && topA < bottomB && rightA > leftB && leftA < rightB
  {
    if bottomA <= topB then false
    else if topA >= bottomB then false
    else if rightA <= leftB then false
    else if leftA >= rightB then false
    else true
  }

  lemma PairCollisionSymmetric(topA: int, bottomA: int, leftA: int, rightA: int,
                               topB: int, bottomB: int, leftB: int, rightB: int)
    ensures PairCollision(topA, bottomA, leftA, rightA, topB, bottomB, leftB, rightB)
         == PairCollision(topB, bottomB, leftB, rightB, topA, bottomA, leftA, rightA)
  {
  }

  /** Boxes that only share an edge do not collide. */
  lemma SharedEdgeIsNoCollision(topA: int, bottomA: int, leftA: int, rightA: int,
                                topB: int, bottomB: int, leftB: int, rightB: int)
    requires rightA == leftB || leftA == rightB || bottomA == topB || topA == bottomB
    ensures !PairCollision(topA, bottomA, leftA, rightA, topB, bottomB, leftB, rightB)
  {
  }

  datatype Box = Box(top: int, bottom: int, left: int, right: int)

  /** The player's pixel box, each edge truncated on its own as in checkCollision. */
  function PlayerBox(px: real, py: real): (b: Box)
    ensures 0.0 <= px ==> 0 <= b.left && b.right - b.left == 40
    ensures 0.0 <= py ==> 0 <= b.top && b.bottom - b.top == 30
  {
    Box(Trunc(py * WindowY), Trunc(py * WindowY + PlayerHeight * WindowY),
        Trunc(px * WindowX), Trunc(px * WindowX + PlayerWidth * WindowX))
  }

  /** An obstacle's pixel box: a square whose truncated side is added to its truncated corner. */
  function ObstacleBox(o: Obstacle): (b: Box)
    ensures b.bottom - b.top == b.right - b.left
    ensures WellFormed(o) ==> 35 <= b.right - b.left <= 70 && 0 <= b.left <= 800 && 0 <= b.top <= 600
  {
    var x := Trunc(o.x * WindowX);
    var y := Trunc(o.y * WindowY);
    var size := Trunc(o.size * ObstacleScale);
    Box(y, y + size, x, x + size)
  }

  /** Truncation moves a value by less than one. */
  lemma TruncNear(v: real)
    ensures v - 1.0 < Trunc(v) as real < v + 1.0
  {
  }

  /** The test checkCollision applies to one live obstacle. */
  predicate Hits(px: real, py: real, o: Obstacle) {
    var p := PlayerBox(px, py);
    var b := ObstacleBox(o);
    PairCollision(p.top, p.bottom, p.left, p.right, b.top, b.bottom, b.left, b.right)
  }

  /** In pixel coordinates of the window, a hit means the player's rectangle and the obstacle's
      square overlap up to the pixel or two the truncations can lose; an overlap wider than that
      margin is always a hit. */
  lemma HitIsOverlap(px: real, py: real, o: Obstacle)
    ensures Hits(px, py, o) ==>
      o.x * WindowX - 1.0 < px * WindowX + PlayerWidth * WindowX &&
      px * WindowX < o.x * WindowX + o.size * ObstacleScale + 2.0 &&
      o.y * WindowY - 1.0 < py * WindowY + PlayerHeight * WindowY &&
      py * WindowY < o.y * WindowY + o.size * ObstacleScale + 2.0
    ensures (o.x * WindowX + 2.0 <= px * WindowX + PlayerWidth * WindowX &&
             px * WindowX + 3.0 <= o.x * WindowX + o.size * ObstacleScale &&
             o.y * WindowY + 2.0 <= py * WindowY + PlayerHeight * WindowY &&
             py * WindowY + 3.0 <= o.y * WindowY + o.size * ObstacleScale) ==> Hits(px, py, o)
  {
    PlayerBoxEdges(px, py);
    ObstacleBoxEdges(o);
    AxisOverlap(px * WindowX, px * WindowX + PlayerWidth * WindowX, o.x * WindowX, o.size * ObstacleScale);
    AxisOverlap(py * WindowY, py * WindowY + PlayerHeight * WindowY, o.y * WindowY, o.size * ObstacleScale);
  }

  /** The player's box edge by edge: an unfolding of PlayerBox that keeps HitIsOverlap's proof cheap. */
  lemma PlayerBoxEdges(px: real, py: real)
    ensures PlayerBox(px, py) == Box(Trunc(py * WindowY), Trunc(py * WindowY + PlayerHeight * WindowY),
                                     Trunc(px * WindowX), Trunc(px * WindowX + PlayerWidth * WindowX))
  {
  }

  /** An obstacle's box edge by edge: an unfolding of ObstacleBox that keeps HitIsOverlap's proof cheap. */
  lemma ObstacleBoxEdges(o: Obstacle)
    ensures ObstacleBox(o).top == Trunc(o.y * WindowY)
    ensures ObstacleBox(o).bottom == Trunc(o.y * WindowY) + Trunc(o.size * ObstacleScale)
    ensures ObstacleBox(o).left == Trunc(o.x * WindowX)
    ensures ObstacleBox(o).right == Trunc(o.x * WindowX) + Trunc(o.size * ObstacleScale)
  {
  }

  /** One axis of HitIsOverlap: the player spans [lo, hi], the obstacle starts at start with side
      side, and each value is truncated before the integer comparison. */
  lemma AxisOverlap(lo: real, hi: real, start: real, side: real)
    ensures Trunc(hi) > Trunc(start) && Trunc(lo) < Trunc(start) + Trunc(side) ==>
            start - 1.0 < hi && lo < start + side + 2.0
    ensures start + 2.0 <= hi && lo + 3.0 <= start + side ==>
            Trunc(hi) > Trunc(start) && Trunc(lo) < Trunc(start) + Trunc(side)
  {
    TruncNear(lo);
    TruncNear(hi);
    TruncNear(start);
    TruncNear(side);
  }

  /** Some live slot of the table collides with the player. */
  predicate Collides(px: real, py: real, s: seq<Slot>) {
    exists i :: 0 <= i < |s| && s[i].Some? && Hits(px, py, s[i].value)
  }

  /** A collision needs a live obstacle, so a table whose count is zero never collides. */
  lemma CollisionNeedsObstacle(px: real, py: real, s: seq<Slot>)
    ensures Collides(px, py, s) ==> Occupied(s) > 0
  {
    OccupiedEmpty(s);
  }

  lemma EmptyTableNoCollision(px: real, py: real, s: seq<Slot>)
    requires forall i :: 0 <= i < |s| ==> s[i].None?
    ensures !Collides(px, py, s)
  {
  }
}
