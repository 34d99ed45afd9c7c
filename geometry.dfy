/** Axis-aligned rectangles, the bird's collision box and the collision search. */
module Geometry {
  import opened Config

  /** An integer rectangle: left edge, top edge, width, height. */
  datatype Rect = Rect(x: int, y: int, w: int, h: int)

  /** Strict axis-aligned overlap: touching edges do not overlap, a collision
      needs positive overlap on both axes. */
  predicate Overlaps(a: Rect, b: Rect) {
    a.x < b.x + b.w && a.x + a.w > b.x && a.y < b.y + b.h && a.y + a.h > b.y
  }

  /** Conversion of the bird's real position to the integer rectangle
      coordinate: truncation toward zero. */
  function RectCoord(v: real): (r: int)
    ensures 0.0 <= v ==> r as real <= v < r as real + 1.0
    ensures v < 0.0 ==> r as real - 1.0 < v <= r as real
  {
    if v >= 0.0 then v.Floor else -((-v).Floor)
  }

  /** The bird's collision box for vertical position y. */
  function BirdRect(y: real): (r: Rect)
    ensures r.x == BirdX && r.w == BirdSize && r.h == BirdSize
    ensures r.y == RectCoord(y)
  {
    Rect(BirdX, RectCoord(y), BirdSize, BirdSize)
  }

  /** The bird at height y hits some pipe. */
  predicate Collides(y: real, pipes: seq<Rect>) {
    exists i :: 0 <= i < |pipes| && Overlaps(BirdRect(y), pipes[i])
  }

  /** Scan the pipes in order and stop at the first one the bird's box overlaps. */
  method CheckCollision(y: real, pipes: seq<Rect>) returns (hit: bool)
    ensures hit <==> Collides(y, pipes)
  {
    var bird := BirdRect(y);
    var i := 0;
    while i < |pipes|
      invariant 0 <= i <= |pipes|
      invariant forall k :: 0 <= k < i ==> !Overlaps(bird, pipes[k])
    {
      if Overlaps(bird, pipes[i]) {
        return true;
      }
      i := i + 1;
    }
    return false;
  }

  /** Scenario of a bird against one top/bottom pair: the bird is safe exactly when
      it does not reach the pipes horizontally, or its box lies inside the gap,
      or it is entirely above or entirely below the field. */
  lemma {:induction false} PairCollision(top: Rect, bottom: Rect, y: real)
    requires top.x == bottom.x && top.w == bottom.w == PipeWidth
    requires top.y == 0 && bottom.y == top.h + PipeGap && bottom.y + bottom.h == Height
    ensures Overlaps(BirdRect(y), top) || Overlaps(BirdRect(y), bottom)
        <==> (BirdX < top.x + PipeWidth && BirdX + BirdSize > top.x &&
              ((-BirdSize < RectCoord(y) < top.h) ||
               (top.h + PipeGap - BirdSize < RectCoord(y) < Height)))
  {
  }
}
