/** The game's state as one value, what one frame of updateGame does to
    it, and the invariant that every operation of the game keeps. */
module World {
  import opened Entities
  import opened Collision
  import opened Pipes
  import opened Unlocks

  /** Every field of the game object that the simulation reads or writes. */
  datatype World = World(
    gameStarted: bool,
    gameOver: bool,
    score: nat,
    highScore: int,
    currentCharacter: nat,
    birdColor: string,
    birdY: real,
    velocity: real,
    pipes: seq<Pipe>,
    lastPipeSpawn: int,
    characters: seq<Character>)

  /** The phase the two flags encode.  The flags never return to the menu
      phase: only the screen does, which is not simulation state. */
  datatype Phase = Menu | Playing | GameOver

  function PhaseOf(w: World): (ph: Phase)
    ensures ph == Menu <==> !w.gameStarted
    ensures ph == Playing <==> w.gameStarted && !w.gameOver
  {
    if !w.gameStarted then Menu else if w.gameOver then GameOver else Playing
  }

  /** A pipe as createPipe makes it and scrolling keeps it: height in the
      allowed range, left edge at most the canvas width, trailing edge not
      yet past the left border. */
  predicate PipeInRange(p: Pipe)
  {
    MinPipeHeight <= p.height < MaxPipeHeight && p.x <= CanvasWidth && p.x + PipeWidth >= 0.0
  }

  ghost predicate AllInRange(ps: seq<Pipe>)
  {
    forall k :: 0 <= k < |ps| ==> PipeInRange(ps[k])
  }

  /** The game state invariant. */
  ghost predicate Inv(w: World)
  {
    && SameCatalog(w.characters)
    && w.currentCharacter < |w.characters|
    && w.characters[w.currentCharacter].unlocked
    && w.birdColor == Colors[w.currentCharacter]
    && (forall k :: 0 <= k < |w.characters| && w.characters[k].unlockScore <= w.score ==> w.characters[k].unlocked)
    && AllInRange(w.pipes)
    && (!w.gameOver ==> PassedMeansBehind(w.pipes))
  }

  /** The game as the constructor leaves it, given the high score read
      from storage (None when absent or not a number). */
  function Initial(storedHighScore: Option<int>): (w: World)
    ensures PhaseOf(w) == Menu && w.score == 0 && w.pipes == []
    ensures w.highScore == if storedHighScore.Some? then storedHighScore.value else 0
    ensures w.currentCharacter < |w.characters| && w.characters[w.currentCharacter].unlocked
  {
    World(false, false, 0,
          match storedHighScore case Some(h) => h case None => 0,
          0, Colors[0], BirdStartY, 0.0, [], 0, InitialCharacters)
  }

  lemma InitialSatisfiesInv(storedHighScore: Option<int>)
    ensures Inv(Initial(storedHighScore))
  {
  }

  /** The physics of a frame: gravity, then the move. */
  function Fall(w: World): World
  {
    w.(velocity := w.velocity + Gravity, birdY := w.birdY + (w.velocity + Gravity))
  }

  /** The spawn test of a frame, at clock time `now` with random draw r. */
  function Spawn(w: World, now: int, r: real): World
    requires 0.0 <= r < 1.0
  {
    w.(pipes := Spawned(w.pipes, w.lastPipeSpawn, now, r),
       lastPipeSpawn := if SpawnDue(now, w.lastPipeSpawn) then now else w.lastPipeSpawn)
  }

  /** The pipe loop of a frame; a collision ends the run and raises the
      high score to the run's score if that is higher. */
  function SweepWorld(w: World): World
  {
    var s := SweepPipes(w.pipes, w.birdY);
    var score := w.score + s.gain;
    w.(pipes := s.pipes,
       score := score,
       characters := UnlockedAfterGain(w.characters, w.score, score),
       gameOver := w.gameOver || s.collided,
       highScore := if s.collided && score > w.highScore then score else w.highScore)
  }

  /** One call of updateGame at time `now` with random draw r: gravity,
      then the spawn test, then the pipe loop. */
  function Step(w: World, now: int, r: real): (w': World)
    requires 0.0 <= r < 1.0
    ensures w'.gameStarted == w.gameStarted
    ensures w'.currentCharacter == w.currentCharacter && w'.birdColor == w.birdColor
    ensures w'.score >= w.score && w'.highScore >= w.highScore
    ensures w.gameOver ==> w'.gameOver
    ensures |w'.characters| == |w.characters|
  {
    SweepWorld(Spawn(Fall(w), now, r))
  }

  /** Step written out field by field, for a known outcome of the sweep. */
  lemma StepFields(w: World, now: int, r: real, s: Sweep)
    requires 0.0 <= r < 1.0
    requires s == SweepPipes(Spawned(w.pipes, w.lastPipeSpawn, now, r), w.birdY + (w.velocity + Gravity))
    ensures Step(w, now, r) == World(
      w.gameStarted, w.gameOver || s.collided, w.score + s.gain,
      if s.collided && w.score + s.gain > w.highScore then w.score + s.gain else w.highScore,
      w.currentCharacter, w.birdColor,
      w.birdY + (w.velocity + Gravity), w.velocity + Gravity, s.pipes,
      if SpawnDue(now, w.lastPipeSpawn) then now else w.lastPipeSpawn,
      UnlockedAfterGain(w.characters, w.score, w.score + s.gain))
  {
  }

  // ---------------------------------------------------------------
  // Frame lemmas
  // ---------------------------------------------------------------

  /** Physics: velocity grows by gravity first and then moves the bird. */
  lemma StepMovesBird(w: World, now: int, r: real)
    requires 0.0 <= r < 1.0
    ensures Step(w, now, r).velocity == w.velocity + Gravity
    ensures Step(w, now, r).birdY == w.birdY + Step(w, now, r).velocity
  {
  }

  /** Spawning: the spawn timestamp moves to now exactly when the spawn is
      due; otherwise no pipe is added and the pipe count can only drop. */
  lemma StepSpawns(w: World, now: int, r: real)
    requires 0.0 <= r < 1.0
    ensures Step(w, now, r).lastPipeSpawn == if SpawnDue(now, w.lastPipeSpawn) then now else w.lastPipeSpawn
    ensures |Step(w, now, r).pipes| <= |w.pipes| + (if SpawnDue(now, w.lastPipeSpawn) then 1 else 0)
  {
    var ps := Spawned(w.pipes, w.lastPipeSpawn, now, r);
    var y := w.birdY + (w.velocity + Gravity);
    StepFields(w, now, r, SweepPipes(ps, y));
    SweepCollision(ps, y);
    var from := ProcessedFrom(ps, y);
  }

  /** Game over and high score: the run ends in this frame exactly when a
      live pipe hits; the high score becomes the larger of itself and the
      score, and never drops. */
  lemma StepEndsRun(w: World, now: int, r: real)
    requires 0.0 <= r < 1.0
    requires !w.gameOver
    ensures var ps := Spawned(w.pipes, w.lastPipeSpawn, now, r);
      var w' := Step(w, now, r);
      && (w'.gameOver <==> exists k :: 0 <= k < |ps| && Hits(ps[k], w'.birdY))
      && w'.highScore == (if w'.gameOver && w'.score > w.highScore then w'.score else w.highScore)
      && w'.highScore >= w.highScore
  {
  }

  /** Phases across a frame: the flags never lead back to the menu, a
      finished run stays finished, and a run being played ends exactly
      when a live pipe hits. */
  lemma StepPhases(w: World, now: int, r: real)
    requires 0.0 <= r < 1.0
    ensures var w' := Step(w, now, r);
      && (PhaseOf(w) == Menu <==> PhaseOf(w') == Menu)
      && (PhaseOf(w) == GameOver ==> PhaseOf(w') == GameOver)
      && (PhaseOf(w) == Playing ==>
            (PhaseOf(w') == GameOver <==>
               var ps := Spawned(w.pipes, w.lastPipeSpawn, now, r);
               exists k :: 0 <= k < |ps| && Hits(ps[k], w'.birdY)))
  {
    if PhaseOf(w) == Playing {
      StepEndsRun(w, now, r);
    }
  }

  /** Unlocks never go backwards in a frame, every entry whose threshold
      the new score meets is unlocked afterwards, and every other entry
      keeps its flag. */
  lemma StepUnlocks(w: World, now: int, r: real)
    requires 0.0 <= r < 1.0
    requires Inv(w)
    ensures var w' := Step(w, now, r);
      && |w'.characters| == |w.characters|
      && (forall k :: 0 <= k < |w.characters| ==>
            w'.characters[k].name == w.characters[k].name &&
            w'.characters[k].unlockScore == w.characters[k].unlockScore)
      && (forall k :: 0 <= k < |w.characters| && w.characters[k].unlocked ==> w'.characters[k].unlocked)
      && (forall k :: 0 <= k < |w.characters| && w.characters[k].unlockScore <= w'.score ==> w'.characters[k].unlocked)
      && (forall k :: 0 <= k < |w.characters| && w.characters[k].unlockScore > w'.score ==>
            w'.characters[k].unlocked == w.characters[k].unlocked)
  {
    var w' := Step(w, now, r);
    if w'.score != w.score {
      UnlockedSpec(w.characters, w'.score);
    }
  }

  /** Every operation of a frame keeps the game state invariant. */
  lemma StepPreservesInv(w: World, now: int, r: real)
    requires 0.0 <= r < 1.0
    requires Inv(w)
    ensures Inv(Step(w, now, r))
  {
    StepUnlocks(w, now, r);
    StepKeepsPipesInRange(w, now, r);
    if !Step(w, now, r).gameOver {
      StepKeepsPassedMeansBehind(w, now, r);
    }
  }

  lemma SpawnedKeeps(pipes: seq<Pipe>, lastSpawn: int, now: int, r: real)
    requires 0.0 <= r < 1.0
    ensures AllInRange(pipes) ==> AllInRange(Spawned(pipes, lastSpawn, now, r))
    ensures PassedMeansBehind(pipes) ==> PassedMeansBehind(Spawned(pipes, lastSpawn, now, r))
  {
    var ps := Spawned(pipes, lastSpawn, now, r);
    if SpawnDue(now, lastSpawn) {
      assert ps == pipes + [ps[|pipes|]];
    } else {
      assert ps == pipes;
    }
  }

  lemma StepKeepsPipesInRange(w: World, now: int, r: real)
    requires 0.0 <= r < 1.0
    requires AllInRange(w.pipes)
    ensures AllInRange(Step(w, now, r).pipes)
  {
    var w1 := Spawn(Fall(w), now, r);
    assert Step(w, now, r).pipes == SweepPipes(w1.pipes, w1.birdY).pipes;
    SpawnedKeeps(w.pipes, w.lastPipeSpawn, now, r);
    SweepKeepsInRange(w1.pipes, w1.birdY);
  }

  lemma SweepKeepsInRange(ps: seq<Pipe>, y: real)
    requires AllInRange(ps)
    ensures AllInRange(SweepPipes(ps, y).pipes)
  {
    var from := ProcessedFrom(ps, y);
    SweepCollision(ps, y);
    SurvivorsInRange(ps[from..]);
    assert AllInRange(ps[..from]);
    assert AllInRange(ps[..from] + Survivors(ps[from..]));
  }

  lemma StepKeepsPassedMeansBehind(w: World, now: int, r: real)
    requires 0.0 <= r < 1.0
    requires PassedMeansBehind(w.pipes)
    requires !Step(w, now, r).gameOver
    ensures PassedMeansBehind(Step(w, now, r).pipes)
  {
    var ps := Spawned(w.pipes, w.lastPipeSpawn, now, r);
    var y := w.birdY + (w.velocity + Gravity);
    SpawnedKeeps(w.pipes, w.lastPipeSpawn, now, r);
    assert !SweepPipes(ps, y).collided;
    SurvivorsKeepPassedMeansBehind(ps);
  }

  lemma {:induction false} SurvivorsInRange(ps: seq<Pipe>)
    requires AllInRange(ps)
    ensures AllInRange(Survivors(ps))
  {
    if ps != [] {
      assert AllInRange(ps[1..]) by {
        assert forall k :: 0 <= k < |ps| - 1 ==> ps[1..][k] == ps[k + 1];
      }
      SurvivorsInRange(ps[1..]);
      var head := if Retired(ps[0]) then [] else [Advanced(ps[0])];
      assert Survivors(ps) == head + Survivors(ps[1..]);
      assert AllInRange(head);
    }
  }

  // ---------------------------------------------------------------
  // Scenarios
  // ---------------------------------------------------------------

  /** A run just started (the state startGame leaves) at a real clock
      time: the first frame spawns one pipe, scrolls it once and the bird
      survives. */
  lemma FirstFrameSpawnsOnePipe(w: World, now: int, r: real)
    requires 0.0 <= r < 1.0
    requires now > PipeSpawnInterval
    requires !w.gameOver && w.pipes == [] && w.birdY == BirdStartY
    requires w.velocity == 0.0 && w.lastPipeSpawn == 0
    ensures var w' := Step(w, now, r);
      && w'.pipes == [Advanced(CreatePipe(r))]
      && w'.pipes[0].x == CanvasWidth - ScrollSpeed
      && !w'.gameOver && w'.score == w.score && w'.lastPipeSpawn == now
  {
    var p := CreatePipe(r);
    var y := BirdStartY + Gravity;
    assert !Hits(p, y);
    assert Spawned([], 0, now, r) == [p];
    assert LastHit([p], y) == -1;
    assert Survivors([p]) == [Advanced(p)];
    assert ScoreGain([p]) == 0;
    assert SweepPipes([p], y) == Sweep([Advanced(p)], 0, false);
  }

  /** A bird at y = 0 moving up at 1 per frame: the next frame has
      velocity -0.5 and y = -0.5, so its top is above the ceiling and the
      run ends, even though the only pipe is far to the right. */
  lemma CeilingEndsRun(w: World, now: int)
    requires w.birdY == 0.0 && w.velocity == -1.0 && !w.gameOver
    requires w.pipes == [Pipe(300.0, 200.0, false)] && w.lastPipeSpawn == now
    ensures var w' := Step(w, now, 0.0);
      && w'.velocity == -0.5 && w'.birdY == -0.5 && w'.gameOver
      && w'.pipes == [Advanced(Pipe(300.0, 200.0, false))]
  {
    var p := Pipe(300.0, 200.0, false);
    assert Hits(p, -0.5);
    assert LastHit([p], -0.5) == 0;
    assert [p][0..] == [p] && [p][..0] == [];
    assert Survivors([p]) == [Advanced(p)];
  }

  /** With no live pipe the ceiling and floor are never tested: a bird far
      below the floor does not end the run. */
  lemma NoPipeNoBounds(w: World, now: int)
    requires w.birdY == 900.0 && w.velocity == 0.0 && !w.gameOver
    requires w.pipes == [] && w.lastPipeSpawn == now
    ensures var w' := Step(w, now, 0.0);
      && LeavesWorld(w'.birdY) && !w'.gameOver
  {
  }
}
