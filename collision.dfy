/** The bird-versus-pipe test of one frame.  The bird is treated as an
    axis-aligned square of side BirdSize centred on (BirdX, y). */
module Collision {
  import opened Entities

  function BirdLeft(): real { BirdX - BirdSize / 2.0 }
  function BirdRight(): real { BirdX + BirdSize / 2.0 }
  function BirdTop(y: real): real { y - BirdSize / 2.0 }
  function BirdBottom(y: real): real { y + BirdSize / 2.0 }

  /** A rectangle given by its edges, with top < bottom on screen. */
  datatype Box = Box(left: real, right: real, top: real, bottom: real)

  /** Two open intervals share a point; intervals that only touch do not. */
  predicate Overlap(lo1: real, hi1: real, lo2: real, hi2: real)
  {
    lo1 < hi2 && lo2 < hi1
  }

  predicate BoxesOverlap(a: Box, b: Box)
  {
    Overlap(a.left, a.right, b.left, b.right) && Overlap(a.top, a.bottom, b.top, b.bottom)
  }

  function BirdBox(y: real): Box
  {
    Box(BirdLeft(), BirdRight(), BirdTop(y), BirdBottom(y))
  }

  /** The barrier from the top of the play area down to the gap. */
  function UpperBarrier(p: Pipe): Box
  {
    Box(p.x, p.x + PipeWidth, 0.0, p.height)
  }

  /** The barrier from the bottom of the gap down to the floor. */
  function LowerBarrier(p: Pipe): Box
  {
    Box(p.x, p.x + PipeWidth, p.height + PipeGap, CanvasHeight)
  }

  /** The bird pokes above the ceiling or below the floor. */
  predicate LeavesWorld(y: real)
  {
    BirdTop(y) < 0.0 || BirdBottom(y) > CanvasHeight
  }

  /** checkCollision: the pipe test followed by the ceiling/floor test.
      It holds exactly when the bird's box overlaps one of the pipe's two
      barriers or leaves the play area (touching edges do not count). */
  function CheckCollision(y: real, pipe: Pipe): (hit: bool)
    ensures hit <==>
      BoxesOverlap(BirdBox(y), UpperBarrier(pipe)) ||
      BoxesOverlap(BirdBox(y), LowerBarrier(pipe)) ||
      LeavesWorld(y)
  {
    var birdRight := BirdX + BirdSize / 2.0;
    var birdLeft := BirdX - BirdSize / 2.0;
    var birdTop := y - BirdSize / 2.0;
    var birdBottom := y + BirdSize / 2.0;
    if birdRight > pipe.x && birdLeft < pipe.x + PipeWidth
       && (birdTop < pipe.height || birdBottom > pipe.height + PipeGap)
    then true
    else birdTop < 0.0 || birdBottom > CanvasHeight
  }

  /** A bird inside the play area whose box is flush with the pipe's left
      or right edge does not collide with it. */
  lemma FlushSidesDoNotCollide(y: real, pipe: Pipe)
    requires !LeavesWorld(y)
    requires BirdRight() == pipe.x || BirdLeft() == pipe.x + PipeWidth
    ensures !CheckCollision(y, pipe)
  {
  }

  /** A bird inside the play area whose top edge is flush with the bottom
      of the upper barrier, and which does not reach the lower barrier,
      does not collide; the same holds one step lower for the floor. */
  lemma FlushGapEdgesDoNotCollide(y: real, pipe: Pipe)
    requires !LeavesWorld(y)
    requires BirdTop(y) == pipe.height || BirdBottom(y) == pipe.height + PipeGap
    requires pipe.height <= BirdTop(y) && BirdBottom(y) <= pipe.height + PipeGap
    ensures !CheckCollision(y, pipe)
  {
  }

  /** The ceiling and the floor count even when the pipe is far away,
      as long as a pipe is being tested at all. */
  lemma BoundsCollideWithAnyPipe(y: real, pipe: Pipe)
    requires LeavesWorld(y)
    ensures CheckCollision(y, pipe)
  {
  }
}
