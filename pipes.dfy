/** Pipe creation, spawning, and what one frame does to the list of live
    pipes: scroll, retire, credit and test for collision, scanning from the
    newest pipe (the last index) towards the oldest. */
module Pipes {
  import opened Entities
  import opened Collision

  // ---------------------------------------------------------------
  // Creation and spawning
  // ---------------------------------------------------------------

  /** What every freshly created pipe looks like. */
  predicate FreshPipe(p: Pipe)
  {
    p.x == CanvasWidth && !p.passed && MinPipeHeight <= p.height < MaxPipeHeight
  }

  /** createPipe, with r the value drawn from Math.random (0 <= r < 1). */
  function CreatePipe(r: real): (p: Pipe)
    requires 0.0 <= r < 1.0
    ensures FreshPipe(p)
  {
    var height := r * (MaxPipeHeight - MinPipeHeight) + MinPipeHeight;
    Pipe(CanvasWidth, height, false)
  }

  /** Every height of the allowed range is produced by some draw. */
  lemma EveryHeightIsDrawable(h: real)
    requires MinPipeHeight <= h < MaxPipeHeight
    ensures exists r :: 0.0 <= r < 1.0 && CreatePipe(r).height == h
  {
    var r := (h - MinPipeHeight) / (MaxPipeHeight - MinPipeHeight);
    assert CreatePipe(r).height == h;
  }

  /** The spawn test of updateGame: strictly more than the interval since
      the last spawn, in milliseconds. */
  predicate SpawnDue(now: int, lastSpawn: int)
  {
    now - lastSpawn > PipeSpawnInterval
  }

  /** The pipe list after the spawn step: one fresh pipe appended when the
      spawn is due, the list untouched otherwise. */
  function Spawned(pipes: seq<Pipe>, lastSpawn: int, now: int, r: real): (ps: seq<Pipe>)
    requires 0.0 <= r < 1.0
    ensures |ps| == |pipes| + (if SpawnDue(now, lastSpawn) then 1 else 0)
    ensures ps[..|pipes|] == pipes
    ensures SpawnDue(now, lastSpawn) ==> FreshPipe(ps[|pipes|])
  {
    if SpawnDue(now, lastSpawn) then pipes + [CreatePipe(r)] else pipes
  }

  // ---------------------------------------------------------------
  // One pipe in one frame
  // ---------------------------------------------------------------

  function Scrolled(p: Pipe): Pipe
  {
    p.(x := p.x - ScrollSpeed)
  }

  /** The retirement test, on the pipe as it is before this frame. */
  predicate Retired(p: Pipe)
  {
    Scrolled(p).x + PipeWidth < 0.0
  }

  /** The scoring test: a pipe not yet credited whose trailing edge has,
      after scrolling, moved left of the bird's centre. */
  predicate Crossed(p: Pipe)
  {
    !p.passed && Scrolled(p).x + PipeWidth < BirdX
  }

  /** A pipe that survives this frame and earns a point in it. */
  predicate Scores(p: Pipe)
  {
    !Retired(p) && Crossed(p)
  }

  /** A surviving pipe as it leaves this frame: 2 further left, and marked
      passed if it has just been credited.  The flag only goes from false
      to true, and only for a pipe whose trailing edge is behind the bird. */
  function Advanced(p: Pipe): (q: Pipe)
    ensures q.x == p.x - ScrollSpeed && q.height == p.height
    ensures p.passed ==> q.passed
    ensures q.passed && !p.passed ==> q.x + PipeWidth < BirdX
    ensures q.passed != p.passed <==> Crossed(p)
  {
    var s := Scrolled(p);
    if Crossed(p) then s.(passed := true) else s
  }

  /** The pipe, once scrolled, ends the frame by colliding with the bird at
      height y (only pipes that are not retired are tested). */
  function Hits(p: Pipe, y: real): (hit: bool)
    ensures hit ==> !Retired(p)
    ensures hit ==> LeavesWorld(y) || Overlap(BirdLeft(), BirdRight(), p.x - ScrollSpeed, p.x - ScrollSpeed + PipeWidth)
    ensures !Retired(p) && LeavesWorld(y) ==> hit
  {
    !Retired(p) && CheckCollision(y, Advanced(p))
  }

  // ---------------------------------------------------------------
  // A run of pipes in one frame, when no collision stops it
  // ---------------------------------------------------------------

  /** The pipes that are kept, each advanced, in their original order. */
  function Survivors(ps: seq<Pipe>): (r: seq<Pipe>)
    ensures |r| <= |ps|
  {
    if ps == [] then []
    else (if Retired(ps[0]) then [] else [Advanced(ps[0])]) + Survivors(ps[1..])
  }

  /** The points the pipes earn in this frame. */
  function ScoreGain(ps: seq<Pipe>): nat
  {
    if ps == [] then 0
    else (if Scores(ps[0]) then 1 else 0) + ScoreGain(ps[1..])
  }

  /** How many pipes carry the passed flag. */
  function PassedCount(ps: seq<Pipe>): nat
  {
    if ps == [] then 0
    else (if ps[0].passed then 1 else 0) + PassedCount(ps[1..])
  }

  /** How many retired pipes carried the passed flag. */
  function RetiredPassed(ps: seq<Pipe>): nat
  {
    if ps == [] then 0
    else (if Retired(ps[0]) && ps[0].passed then 1 else 0) + RetiredPassed(ps[1..])
  }

  /** The highest index whose pipe hits the bird, or -1 when none does:
      the loop runs from the last index down, so this is where it stops. */
  function LastHit(ps: seq<Pipe>, y: real): (j: int)
    ensures -1 <= j < |ps|
    ensures 0 <= j ==> Hits(ps[j], y)
    ensures forall k :: j < k < |ps| ==> !Hits(ps[k], y)
  {
    if ps == [] then -1
    else if Hits(ps[|ps| - 1], y) then |ps| - 1
    else LastHit(ps[..|ps| - 1], y)
  }

  /** What the pipe loop of one frame produces. */
  datatype Sweep = Sweep(pipes: seq<Pipe>, gain: nat, collided: bool)

  /** The pipe loop of updateGame over ps with the bird at height y: when
      the pipe at index j collides, ps[..j] is left untouched and only
      ps[j..] has been advanced, retired and credited. */
  function SweepPipes(ps: seq<Pipe>, y: real): (s: Sweep)
    ensures s.collided <==> exists k :: 0 <= k < |ps| && Hits(ps[k], y)
    ensures !s.collided ==> s.pipes == Survivors(ps) && s.gain == ScoreGain(ps)
  {
    var j := LastHit(ps, y);
    if j < 0 then Sweep(Survivors(ps), ScoreGain(ps), false)
    else Sweep(ps[..j] + Survivors(ps[j..]), ScoreGain(ps[j..]), true)
  }

  // ---------------------------------------------------------------
  // Lemmas
  // ---------------------------------------------------------------

  /** Order: the survivors of an earlier run of pipes come before those
      of a later run, so surviving pipes keep their relative order. */
  lemma {:induction false} SurvivorsAppend(a: seq<Pipe>, b: seq<Pipe>)
    ensures Survivors(a + b) == Survivors(a) + Survivors(b)
  {
    if a == [] {
      assert a + b == b;
    } else {
      assert (a + b)[0] == a[0] && (a + b)[1..] == a[1..] + b;
      SurvivorsAppend(a[1..], b);
      var head := if Retired(a[0]) then [] else [Advanced(a[0])];
      calc {
        Survivors(a + b);
        head + Survivors(a[1..] + b);
        head + (Survivors(a[1..]) + Survivors(b));
        (head + Survivors(a[1..])) + Survivors(b);
      }
    }
  }

  /** Retirement: a pipe comes out of the frame, advanced, exactly when it
      is not retired, and nothing else comes out. */
  lemma {:induction false} SurvivorsMembers(ps: seq<Pipe>)
    ensures forall k :: 0 <= k < |ps| && !Retired(ps[k]) ==> Advanced(ps[k]) in Survivors(ps)
    ensures forall q :: q in Survivors(ps) ==>
      exists k :: 0 <= k < |ps| && !Retired(ps[k]) && q == Advanced(ps[k])
  {
    if ps != [] {
      SurvivorsMembers(ps[1..]);
      var head := if Retired(ps[0]) then [] else [Advanced(ps[0])];
      assert Survivors(ps) == head + Survivors(ps[1..]);
      forall k | 1 <= k < |ps| ensures ps[k] == ps[1..][k - 1] { }
      forall q | q in Survivors(ps)
        ensures exists k :: 0 <= k < |ps| && !Retired(ps[k]) && q == Advanced(ps[k])
      {
        if q !in head {
          var k :| 0 <= k < |ps[1..]| && !Retired(ps[1..][k]) && q == Advanced(ps[1..][k]);
          assert ps[k + 1] == ps[1..][k];
        }
      }
    }
  }

  /** Every pipe that survives a frame still has its trailing edge on
      screen, and its height is unchanged. */
  lemma {:induction false} SurvivorsOnScreen(ps: seq<Pipe>)
    ensures forall q :: q in Survivors(ps) ==> q.x + PipeWidth >= 0.0
    ensures forall q :: q in Survivors(ps) ==> exists p :: p in ps && q.height == p.height
  {
    if ps != [] {
      SurvivorsOnScreen(ps[1..]);
      assert forall p :: p in ps[1..] ==> p in ps;
    }
  }

  /** Score accounting for a frame: the passed flags that survive plus
      those that retire equal the flags carried in plus the points earned,
      so every point corresponds to exactly one flag raised. */
  lemma {:induction false} ScoreAccounting(ps: seq<Pipe>)
    ensures PassedCount(Survivors(ps)) + RetiredPassed(ps) == PassedCount(ps) + ScoreGain(ps)
  {
    if ps != [] {
      ScoreAccounting(ps[1..]);
      var head := if Retired(ps[0]) then [] else [Advanced(ps[0])];
      PassedCountAppend(head, Survivors(ps[1..]));
    }
  }

  lemma {:induction false} PassedCountAppend(a: seq<Pipe>, b: seq<Pipe>)
    ensures PassedCount(a + b) == PassedCount(a) + PassedCount(b)
  {
    if a != [] {
      assert (a + b)[0] == a[0] && (a + b)[1..] == a[1..] + b;
      PassedCountAppend(a[1..], b);
      assert PassedCount(a + b) == (if a[0].passed then 1 else 0) + PassedCount(a[1..] + b);
    } else {
      assert a + b == b;
    }
  }

  /** A pipe that is already passed never earns a point. */
  lemma {:induction false} PassedPipesEarnNothing(ps: seq<Pipe>)
    requires forall k :: 0 <= k < |ps| ==> ps[k].passed
    ensures ScoreGain(ps) == 0
  {
    if ps != [] {
      PassedPipesEarnNothing(ps[1..]);
    }
  }

  /** While no collision has happened the passed flag means exactly
      "trailing edge left of the bird"; a frame keeps that true. */
  predicate PassedMeansBehind(ps: seq<Pipe>)
  {
    forall k :: 0 <= k < |ps| ==> (ps[k].passed <==> ps[k].x + PipeWidth < BirdX)
  }

  lemma {:induction false} SurvivorsKeepPassedMeansBehind(ps: seq<Pipe>)
    requires PassedMeansBehind(ps)
    ensures PassedMeansBehind(Survivors(ps))
  {
    if ps != [] {
      assert PassedMeansBehind(ps[1..]) by {
        assert forall k :: 0 <= k < |ps| - 1 ==> ps[1..][k] == ps[k + 1];
      }
      SurvivorsKeepPassedMeansBehind(ps[1..]);
      var head := if Retired(ps[0]) then [] else [Advanced(ps[0])];
      assert Survivors(ps) == head + Survivors(ps[1..]);
      assert PassedMeansBehind(head);
    }
  }

  // ---------------------------------------------------------------
  // A single pipe over many frames
  // ---------------------------------------------------------------

  /** How often a pipe earns a point over n consecutive frames. */
  function TimesScored(p: Pipe, n: nat): nat
    decreases n
  {
    if n == 0 then 0
    else (if Scores(p) then 1 else 0) + TimesScored(Advanced(p), n - 1)
  }

  lemma {:induction false} PassedPipeNeverScores(p: Pipe, n: nat)
    requires p.passed
    ensures TimesScored(p, n) == 0
    decreases n
  {
    if n > 0 {
      PassedPipeNeverScores(Advanced(p), n - 1);
    }
  }

  /** At-most-once scoring: however many frames a pipe lives through, it
      earns at most one point, and none once its flag is set. */
  lemma {:induction false} ScoredAtMostOnce(p: Pipe, n: nat)
    ensures TimesScored(p, n) <= 1
    ensures p.passed ==> TimesScored(p, n) == 0
    decreases n
  {
    if n > 0 {
      if Scores(p) {
        PassedPipeNeverScores(Advanced(p), n - 1);
      } else {
        ScoredAtMostOnce(Advanced(p), n - 1);
        if p.passed {
          PassedPipeNeverScores(p, n);
        }
      }
    }
  }

  /** Two frames in which the trailing edge crosses the bird's x exactly
      once give exactly one point. */
  lemma CrossingOnceScoresOnce()
    ensures TimesScored(Pipe(-9.0, 200.0, false), 2) == 1
  {
    var p := Pipe(-9.0, 200.0, false);
    assert Scores(p);
    assert Advanced(p).passed;
    PassedPipeNeverScores(Advanced(p), 1);
  }

  // ---------------------------------------------------------------
  // The whole pipe loop
  // ---------------------------------------------------------------

  /** The first index the loop has processed: 0 without a collision, the
      colliding index otherwise. */
  function ProcessedFrom(ps: seq<Pipe>, y: real): (from: nat)
    ensures from <= |ps|
  {
    var j := LastHit(ps, y);
    if j < 0 then 0 else j
  }

  /** A frame's collision: exactly when some live pipe hits; the pipes
      below the colliding index are left as they were, the one at it and
      those above it are retired or advanced. */
  lemma SweepCollision(ps: seq<Pipe>, y: real)
    ensures var s := SweepPipes(ps, y); var from := ProcessedFrom(ps, y);
      && (s.collided ==> Hits(ps[from], y) && s.pipes[..from] == ps[..from])
      && (forall k :: from < k < |ps| ==> !Hits(ps[k], y))
      && s.pipes == ps[..from] + Survivors(ps[from..])
      && s.gain == ScoreGain(ps[from..])
  {
    var s := SweepPipes(ps, y);
    if !s.collided {
      assert ps[..0] == [] && ps[0..] == ps;
    }
  }

  /** Score accounting for the loop as a whole: the points of a frame are
      the flags raised by it, among the pipes it processed. */
  lemma SweepAccounting(ps: seq<Pipe>, y: real)
    ensures var s := SweepPipes(ps, y); var from := ProcessedFrom(ps, y);
      PassedCount(s.pipes) + RetiredPassed(ps[from..]) == PassedCount(ps) + s.gain
  {
    var from := ProcessedFrom(ps, y);
    SweepCollision(ps, y);
    ScoreAccounting(ps[from..]);
    PassedCountAppend(ps[..from], Survivors(ps[from..]));
    assert ps == ps[..from] + ps[from..];
    PassedCountAppend(ps[..from], ps[from..]);
  }

  /** Replacing the middle element of a three-part sequence. */
  lemma UpdateMiddle(a: seq<Pipe>, x: Pipe, b: seq<Pipe>, q: Pipe)
    ensures (a + [x] + b)[|a| := q] == a + [q] + b
  {
  }

  /** Removing the middle element of a three-part sequence. */
  lemma RemoveMiddle(a: seq<Pipe>, x: Pipe, b: seq<Pipe>)
    ensures (a + [x] + b)[..|a|] + (a + [x] + b)[|a| + 1..] == a + b
  {
    var s := a + [x] + b;
    assert s[..|a|] == a;
    assert s[|a| + 1..] == b;
  }

  /** No pipe at index i or above hits the bird. */
  predicate NoHitFrom(ps: seq<Pipe>, i: nat, y: real)
  {
    forall k :: i <= k < |ps| ==> !Hits(ps[k], y)
  }

  /** The sweep when the pipe at index j is the highest one that hits. */
  lemma SweepStopsAt(ps: seq<Pipe>, y: real, j: nat)
    requires j < |ps| && Hits(ps[j], y)
    requires NoHitFrom(ps, j + 1, y)
    ensures SweepPipes(ps, y) == Sweep(ps[..j] + Survivors(ps[j..]), ScoreGain(ps[j..]), true)
  {
    assert LastHit(ps, y) == j;
  }

  /** The sweep when no pipe hits. */
  lemma SweepRunsThrough(ps: seq<Pipe>, y: real)
    requires NoHitFrom(ps, 0, y)
    ensures SweepPipes(ps, y) == Sweep(Survivors(ps), ScoreGain(ps), false)
  {
    assert LastHit(ps, y) == -1;
  }

  /** One iteration of the descending pipe loop, on the pipe p at index i
      of the list ps the loop started with: the part above i is done. */
  lemma SweepStepRetire(ps: seq<Pipe>, i: nat)
    requires i < |ps| && Retired(ps[i])
    ensures Survivors(ps[i..]) == Survivors(ps[i + 1..])
    ensures ScoreGain(ps[i..]) == ScoreGain(ps[i + 1..])
  {
    assert ps[i..][0] == ps[i] && ps[i..][1..] == ps[i + 1..];
  }

  lemma SweepStepKeep(ps: seq<Pipe>, i: nat)
    requires i < |ps| && !Retired(ps[i])
    ensures Survivors(ps[i..]) == [Advanced(ps[i])] + Survivors(ps[i + 1..])
    ensures ScoreGain(ps[i..]) == ScoreGain(ps[i + 1..]) + (if Crossed(ps[i]) then 1 else 0)
    ensures ps[..i] + Survivors(ps[i..]) == ps[..i] + [Advanced(ps[i])] + Survivors(ps[i + 1..])
  {
    assert ps[i..][0] == ps[i] && ps[i..][1..] == ps[i + 1..];
  }

  /** With no live pipe hit, every pipe left after the frame has its
      trailing edge on screen. */
  lemma NoCollisionAllOnScreen(ps: seq<Pipe>, y: real)
    requires !SweepPipes(ps, y).collided
    ensures forall k :: 0 <= k < |SweepPipes(ps, y).pipes| ==> SweepPipes(ps, y).pipes[k].x + PipeWidth >= 0.0
  {
    SurvivorsOnScreen(ps);
  }

  /** With no pipes at all there is no collision, even for a bird far
      outside the play area: the bounds are only tested per pipe. */
  lemma NoPipesNoCollision(y: real)
    ensures !SweepPipes([], y).collided
  {
  }
}
