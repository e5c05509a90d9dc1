/** The Game object: its fields, the frame update, the unlock check, the
    run lifecycle and the input handlers' effect on the state. */
module GameEngine {
  import opened Entities
  import opened Collision
  import opened Pipes
  import opened Unlocks
  import opened World

  /** The snapshot after the pipe loop, from the loop's field-wise outcome. */
  lemma SweptSnapshot(g: Game, w: World)
    requires var s := SweepPipes(w.pipes, w.birdY);
      && g.pipes == s.pipes && g.score == w.score + s.gain
      && g.characters == UnlockedAfterGain(w.characters, w.score, g.score)
      && g.gameOver == (w.gameOver || s.collided)
      && g.highScore == (if s.collided && g.score > w.highScore then g.score else w.highScore)
      && g.gameStarted == w.gameStarted && g.currentCharacter == w.currentCharacter
      && g.birdColor == w.birdColor && g.birdY == w.birdY && g.velocity == w.velocity
      && g.lastPipeSpawn == w.lastPipeSpawn
    ensures g.Snapshot() == SweepWorld(w)
  {
  }

  class Game {
    var gameStarted: bool
    var gameOver: bool
    var score: nat
    var highScore: int
    var currentCharacter: nat
    var birdColor: string
    var birdY: real
    var velocity: real
    var pipes: seq<Pipe>
    var lastPipeSpawn: int
    var characters: seq<Character>

    /** The simulation state held in the fields. */
    ghost function Snapshot(): World
      reads this
    {
      World(gameStarted, gameOver, score, highScore, currentCharacter, birdColor,
            birdY, velocity, pipes, lastPipeSpawn, characters)
    }

    ghost predicate Valid()
      reads this
    {
      Inv(Snapshot())
    }

    /** The constructor's state; storedHighScore is what the saved high
        score parses to (None when missing or not a number). */
    constructor (storedHighScore: Option<int>)
      ensures Valid()
      ensures Snapshot() == Initial(storedHighScore)
    {
      gameStarted := false;
      gameOver := false;
      score := 0;
      highScore := match storedHighScore case Some(h) => h case None => 0;
      currentCharacter := 0;
      birdColor := Colors[0];
      birdY := BirdStartY;
      velocity := 0.0;
      pipes := [];
      lastPipeSpawn := 0;
      characters := InitialCharacters;
      new;
      InitialSatisfiesInv(storedHighScore);
    }

    /** The impulse of the key and click handlers: once a run has been
        started (game over included) the velocity becomes exactly
        JumpForce, whatever it was; before that nothing changes. */
    method Flap()
      requires Valid()
      modifies this`velocity
      ensures Valid()
      ensures velocity == if gameStarted then JumpForce else old(velocity)
    {
      if gameStarted {
        velocity := JumpForce;
      }
    }

    /** The keydown handler: only the Space key flaps. */
    method OnKeyDown(code: string)
      requires Valid()
      modifies this`velocity
      ensures Valid()
      ensures velocity == if code == "Space" && gameStarted then JumpForce else old(velocity)
    {
      if code == "Space" {
        Flap();
      }
    }

    /** The canvas click handler. */
    method OnCanvasClick()
      requires Valid()
      modifies this`velocity
      ensures Valid()
      ensures velocity == if gameStarted then JumpForce else old(velocity)
    {
      Flap();
    }

    /** updateCharacterColors: the bird takes the colour of the selected
        catalog index. */
    method UpdateCharacterColors()
      requires currentCharacter < |Colors|
      modifies this`birdColor
      ensures birdColor == Colors[currentCharacter]
    {
      birdColor := Colors[currentCharacter];
    }

    /** A click on a catalog entry: only unlocked entries react, and they
        select that entry and its colour. */
    method SelectCharacter(index: nat)
      requires Valid()
      modifies this`currentCharacter, this`birdColor
      ensures Valid()
      ensures if index < |characters| && characters[index].unlocked
              then currentCharacter == index && birdColor == Colors[index]
              else currentCharacter == old(currentCharacter) && birdColor == old(birdColor)
    {
      if index < |characters| && characters[index].unlocked {
        currentCharacter := index;
        UpdateCharacterColors();
      }
    }

    /** startGame: a fresh run, whatever state the previous one ended in;
        the high score, the catalog and the selected character carry over. */
    method StartGame()
      requires Valid()
      modifies this`gameStarted, this`gameOver, this`score, this`pipes,
               this`birdY, this`velocity, this`lastPipeSpawn
      ensures Valid()
      ensures PhaseOf(Snapshot()) == Playing
      ensures gameStarted && !gameOver && score == 0 && pipes == []
      ensures birdY == BirdStartY && velocity == 0.0 && lastPipeSpawn == 0
    {
      gameStarted := true;
      gameOver := false;
      score := 0;
      pipes := [];
      birdY := BirdStartY;
      velocity := 0.0;
      lastPipeSpawn := 0;
    }

    /** checkUnlocks: unlock, in catalog order, every locked entry whose
        threshold the current score meets. */
    method CheckUnlocks()
      modifies this`characters
      ensures characters == Unlocked(old(characters), score)
    {
      ghost var c0 := characters;
      var k := 0;
      while k < |characters|
        invariant 0 <= k <= |characters| == |c0|
        invariant characters[..k] == Unlocked(c0, score)[..k]
        invariant forall j :: k <= j < |c0| ==> characters[j] == c0[j]
      {
        UnlockedAt(c0, score, k);
        if !characters[k].unlocked && score >= characters[k].unlockScore {
          characters := characters[k := characters[k].(unlocked := true)];
        }
        k := k + 1;
      }
      assert characters == characters[..k];
    }

    /** One pass of updateGame's pipe loop over pipe i: scroll it; drop it
        if it has left the screen; otherwise score it if the bird has just
        passed it (running checkUnlocks after the point) and test it for a
        collision, which ends the run and saves the high score. */
    method VisitPipe(i: nat) returns (hit: bool)
      requires i < |pipes|
      modifies this`pipes, this`score, this`characters, this`gameOver, this`highScore
      ensures var p := old(pipes[i]);
        if Retired(p) then
          && pipes == old(pipes[..i]) + old(pipes[i + 1..])
          && score == old(score) && characters == old(characters)
          && !hit && gameOver == old(gameOver) && highScore == old(highScore)
        else
          && pipes == old(pipes[..i]) + [Advanced(p)] + old(pipes[i + 1..])
          && score == old(score) + (if Crossed(p) then 1 else 0)
          && characters == (if Crossed(p) then Unlocked(old(characters), score) else old(characters))
          && hit == CheckCollision(birdY, Advanced(p))
          && gameOver == (old(gameOver) || hit)
          && highScore == if hit && score > old(highScore) then score else old(highScore)
    {
      ghost var a, p, b := pipes[..i], pipes[i], pipes[i + 1..];
      assert pipes == a + [p] + b;
      UpdateMiddle(a, p, b, Scrolled(p));
      pipes := pipes[i := pipes[i].(x := pipes[i].x - ScrollSpeed)];

      // A pipe whose trailing edge has left the screen is dropped
      if pipes[i].x + PipeWidth < 0.0 {
        RemoveMiddle(a, Scrolled(p), b);
        pipes := pipes[..i] + pipes[i + 1..];
        return false;
      }

      // Credit the bird once for a pipe it has just got past
      if !pipes[i].passed && pipes[i].x + PipeWidth < BirdX {
        UpdateMiddle(a, Scrolled(p), b, Advanced(p));
        pipes := pipes[i := pipes[i].(passed := true)];
        score := score + 1;
        CheckUnlocks();
      }

      // A hit ends the run and raises the high score to the score if it is higher
      hit := CheckCollision(birdY, pipes[i]);
      if hit {
        gameOver := true;
        if score > highScore {
          highScore := score;
        }
      }
    }

    /** The pipe loop of updateGame, newest pipe first: the frame stops at
        the first pipe the bird hits. */
    method SweepPipesLoop()
      modifies this`pipes, this`score, this`characters, this`gameOver, this`highScore
      ensures var s := SweepPipes(old(pipes), birdY);
        && pipes == s.pipes
        && score == old(score) + s.gain
        && characters == UnlockedAfterGain(old(characters), old(score), score)
        && gameOver == (old(gameOver) || s.collided)
        && highScore == if s.collided && score > old(highScore) then score else old(highScore)
    {
      ghost var p0, s0, c0 := pipes, score, characters;
      for i := |pipes| downto 0
        invariant pipes == p0[..i] + Survivors(p0[i..])
        invariant score == s0 + ScoreGain(p0[i..])
        invariant characters == UnlockedAfterGain(c0, s0, score)
        invariant NoHitFrom(p0, i, birdY)
        invariant gameOver == old(gameOver) && highScore == old(highScore)
      {
        ghost var p, done, s := p0[i], Survivors(p0[i + 1..]), score;
        assert p0[..i + 1] == p0[..i] + [p];
        assert pipes == p0[..i] + [p] + done;
        assert pipes[..i] == p0[..i] && pipes[i] == p && pipes[i + 1..] == done;
        var hit := VisitPipe(i);
        if Retired(p) {
          SweepStepRetire(p0, i);
        } else {
          SweepStepKeep(p0, i);
          if Crossed(p) {
            UnlockedAfterPoint(c0, s0, s);
          }
        }
        if hit {
          SweepStopsAt(p0, birdY, i);
          return;
        }
      }
      assert p0[0..] == p0 && p0[..0] == [];
      SweepRunsThrough(p0, birdY);
    }

    /** The pipe loop as a step of the whole state. */
    method SweepFrame()
      modifies this`pipes, this`score, this`characters, this`gameOver, this`highScore
      ensures Snapshot() == SweepWorld(old(Snapshot()))
    {
      ghost var w := Snapshot();
      SweepPipesLoop();
      SweptSnapshot(this, w);
    }

    /** The spawn test of updateGame: a new pipe enters at the right edge
        once more than the spawn interval has passed since the last one. */
    method SpawnPipe(now: int, r: real)
      requires 0.0 <= r < 1.0
      modifies this`pipes, this`lastPipeSpawn
      ensures Snapshot() == Spawn(old(Snapshot()), now, r)
    {
      var currentTime := now;
      if currentTime - lastPipeSpawn > PipeSpawnInterval {
        pipes := pipes + [CreatePipe(r)];
        lastPipeSpawn := currentTime;
      }
    }

    /** updateGame: one frame at clock time `now` with random draw r. */
    method UpdateGame(now: int, r: real)
      requires 0.0 <= r < 1.0
      modifies this
      ensures velocity == old(velocity) + Gravity && birdY == old(birdY) + velocity
      ensures Snapshot() == Step(old(Snapshot()), now, r)
    {
      ghost var w0 := Snapshot();
      velocity := velocity + Gravity;
      birdY := birdY + velocity;
      assert Snapshot() == Fall(w0);
      SpawnPipe(now, r);
      SweepFrame();
    }

    /** gameLoop: a frame is simulated only while a run is being played,
        and another frame is requested exactly when the run goes on. */
    method GameLoop(now: int, r: real) returns (nextFrame: bool)
      requires Valid()
      requires 0.0 <= r < 1.0
      modifies this
      ensures Valid()
      ensures old(PhaseOf(Snapshot())) == Playing ==> Snapshot() == Step(old(Snapshot()), now, r)
      ensures old(PhaseOf(Snapshot())) != Playing ==> Snapshot() == old(Snapshot())
      ensures nextFrame <==> PhaseOf(Snapshot()) == Playing
    {
      if !gameStarted {
        return false;
      }
      if !gameOver {
        ghost var w0 := Snapshot();
        UpdateGame(now, r);
        StepPreservesInv(w0, now, r);
      }
      nextFrame := !gameOver;
    }
  }
}
