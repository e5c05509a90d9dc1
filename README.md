# Flappy-bird game engine in Dafny

This project models the simulation engine of the browser game in
`js/game.js`: the `Game` object's state, the per-frame update `updateGame`
and its collision test `checkCollision`, pipe creation, the score, the high
score and character unlocks (`checkUnlocks`), the run lifecycle
(`startGame`, the `gameLoop` guard), the flap handlers, and selecting a
character. The clock (`Date.now()`) and the random draw (`Math.random()`)
are parameters `now: int` and `r: real` with `0 <= r < 1`. Coordinates and
velocities are exact reals, with y growing downwards as on the canvas.

Files and modules:

- `entities.dfy` (`Entities`): the constants of the constructor, the `Pipe`
  and `Character` values, the initial catalog and the colour table.
- `collision.dfy` (`Collision`): `checkCollision` as a function, proved
  equal to an open-box overlap test against the pipe's two barriers, or the
  bird leaving the play area.
- `pipes.dfy` (`Pipes`): `createPipe`, the spawn step, and what one frame
  does to the pipe list. `SweepPipes` is the reference definition of the
  pipe loop: scroll, retire, credit, and stop at the first hit. It comes
  with lemmas on order, retirement, at-most-once scoring and score
  accounting.
- `unlocks.dfy` (`Unlocks`): `checkUnlocks` over the catalog, and why the
  calls made after each point of a frame add up to one call with the final
  score.
- `world.dfy` (`World`): the game state as one value `World`, the invariant
  `Inv`, and `Step`, the specification of one `updateGame` call. `Step` is
  the composition `Fall`, then `Spawn`, then `SweepWorld`. Its lemmas cover
  the physics, spawning, ending a run, unlocks, and preservation of `Inv`.
- `game.dfy` (`GameEngine`): the `Game` class with the source's fields. The
  pipe list and the catalog are `seq` fields that the methods reassign.
  - `UpdateGame` mutates the fields step by step.
  - Its pipe loop runs `for i := n downto 0`, the same descending index as
    the source, with one pass of the body in `VisitPipe`.
  - It is proved to leave the state `Step` describes.

The model follows the code also where it behaves differently from what a
first reading of the game suggests:

- Ceiling and floor are tested only inside the per-pipe `checkCollision`
  (js/game.js:240, 256). With no live pipe, a bird outside the play area
  does not end the run (`World.NoPipeNoBounds`). The ceiling and floor
  count only while some pipe is tested.
- Pipes are scanned newest first. After a collision the loop returns, so
  pipes at lower indices are not scrolled in that frame
  (`Pipes.SweepCollision`).
- The score check comes before the collision check, so a pipe can earn a
  point in the same frame it ends the run.
- `gameStarted` is never cleared, so flaps after game over still set the
  velocity (`GameEngine.Game.Flap`). Impulses are accepted after game over
  too.
- The return to the menu after a game over only switches screens. Both
  flags stay set until `startGame`, so `PhaseOf` has no transition back to
  `Menu`.
- `startGame` resets the run in any state, not only from the menu.

## Model

| member | source | states |
|---|---|---|
| Collision.CheckCollision | js/game.js:226-241 | true exactly when the bird's box overlaps the upper or lower barrier of the pipe with strict inequalities, or its top is above 0 or its bottom below the canvas height |
| Collision.FlushSidesDoNotCollide | js/game.js:233 | a bird inside the play area whose box only touches a pipe's left or right edge does not collide |
| Collision.FlushGapEdgesDoNotCollide | js/game.js:234 | a bird inside the gap whose top or bottom is flush with a barrier does not collide |
| Collision.BoundsCollideWithAnyPipe | js/game.js:239-240 | leaving the play area is a collision whichever pipe is tested |
| Pipes.CreatePipe | js/game.js:155-165 | a new pipe is at x = canvas width, not passed, and has 50 <= height < canvas height - gap - 50 for every draw 0 <= r < 1 |
| Pipes.EveryHeightIsDrawable | js/game.js:156-158 | every height of that range comes from some draw r |
| Pipes.Spawned | js/game.js:249-253 | when the spawn is due exactly one fresh pipe is appended, and otherwise the list is unchanged; existing pipes are kept as a prefix |
| Pipes.Advanced | js/game.js:258-268 | a surviving pipe moves exactly 2 left and keeps its height; `passed` changes exactly when the pipe is crossed, only from false to true, and only when its trailing edge is left of the bird |
| Pipes.LastHit | js/game.js:256-274 | the descending loop stops at the highest index whose pipe hits, and no pipe above it hits; -1 when none does |
| Pipes.SweepPipes | js/game.js:256-284 | the loop collides exactly when some live pipe hits; without a collision the result is every non-retired pipe advanced, plus the points earned |
| Pipes.Hits | js/game.js:261-274 | only a pipe that is not retired can end the frame; a hit needs the bird to leave the play area or to overlap the scrolled pipe horizontally; a live pipe always hits a bird outside the play area |
| Pipes.Survivors | js/game.js:256-264 | scrolling and splicing never lengthens the pipe list |
| Pipes.SurvivorsAppend | js/game.js:256-264 | removal keeps order: the survivors of a concatenation are the concatenation of the survivors |
| Pipes.SurvivorsMembers | js/game.js:258-264 | a pipe comes out of the frame, advanced, exactly when its scrolled trailing edge is not left of 0, and nothing else comes out |
| Pipes.SurvivorsOnScreen | js/game.js:261-264 | every surviving pipe has x + width >= 0 and the height of some input pipe |
| Pipes.ScoreAccounting | js/game.js:267-269 | passed flags that survive plus those retired equal the flags carried in plus the points earned, so each point raises exactly one flag |
| Pipes.PassedPipesEarnNothing | js/game.js:267 | pipes that are all already passed earn no point |
| Pipes.SurvivorsKeepPassedMeansBehind | js/game.js:258-268 | if `passed` means "trailing edge left of the bird" before the frame, it still does after |
| Pipes.PassedPipeNeverScores | js/game.js:267-268 | a passed pipe earns nothing over any number of frames |
| Pipes.ScoredAtMostOnce | js/game.js:267-269 | over any number of frames a pipe earns at most one point, and none once passed |
| Pipes.CrossingOnceScoresOnce | js/game.js:267-269 | a pipe whose trailing edge crosses the bird's x during two frames earns exactly one point |
| Pipes.ProcessedFrom | js/game.js:256-282 | the lowest index the loop processes is at most the list length |
| Pipes.SweepCollision | js/game.js:256-284 | after the loop, the pipes below the colliding index are untouched and the rest are retired or advanced; the points come only from the processed pipes |
| Pipes.SweepAccounting | js/game.js:256-284 | the points of a frame equal the passed flags raised among the processed pipes |
| Pipes.SweepStopsAt | js/game.js:274-283 | when index j is the highest hit, the frame keeps `ps[..j]` as it was and processes `ps[j..]` |
| Pipes.SweepRunsThrough | js/game.js:256-284 | when no pipe hits, the frame processes the whole list |
| Pipes.SweepStepRetire | js/game.js:261-263 | a retired pipe adds nothing to the survivors or the score |
| Pipes.SweepStepKeep | js/game.js:266-271 | a kept pipe adds its advanced self in place, and one point exactly when crossed |
| Pipes.NoCollisionAllOnScreen | js/game.js:258-264 | without a collision every pipe left after the frame has x + width >= 0 |
| Pipes.NoPipesNoCollision | js/game.js:240-256 | with no pipes the loop never reports a collision |
| Unlocks.Unlock | js/game.js:289-290 | one entry keeps its name and threshold, and is unlocked afterwards exactly when it was unlocked already or its threshold is at most the score |
| Unlocks.Unlocked | js/game.js:287-294 | unlocking the catalog keeps its length |
| Unlocks.UnlockedAt | js/game.js:288-290 | entry k after checkUnlocks is entry k looked at once |
| Unlocks.UnlockedSpec | js/game.js:287-294 | names and thresholds are kept, nothing re-locks, every entry whose threshold the score meets is unlocked, and entries above the score keep their flag |
| Unlocks.UnlockedAbsorbs | js/game.js:287-294 | unlocking at s1 and then at s2 >= s1 equals unlocking at s2 |
| Unlocks.UnlockedIdempotent | js/game.js:287-294 | a second checkUnlocks at the same score changes nothing |
| Unlocks.UnlockedMonotone | js/game.js:287-294 | a higher score unlocks at least what a lower one does |
| Unlocks.UnlockedAfterPoint | js/game.js:269-270 | one more point followed by checkUnlocks equals the catalog for the larger frame gain |
| Unlocks.BlueBirdUnlocksAtTen | js/game.js:36 | the threshold-10 entry is locked at score 9 and unlocked at 10 |
| World.Initial | js/game.js:9-45 | the constructed game is in the menu with score 0 and no pipes, its high score is the stored value or 0, and its selected character is unlocked |
| World.Step | js/game.js:243-285 | a frame never changes the started flag, the selected character or its colour, never lowers the score or the high score, never revives a finished run, and keeps the catalog's length |
| World.InitialSatisfiesInv | js/game.js:9-45 | the constructed game satisfies the state invariant |
| World.StepMovesBird | js/game.js:245-246 | velocity' = velocity + 0.5 and then y' = y + velocity' |
| World.StepSpawns | js/game.js:249-253 | lastPipeSpawn becomes now exactly when the strict spawn test holds; the pipe count grows by at most that one pipe |
| World.StepEndsRun | js/game.js:274-277 | a running game ends in a frame exactly when some live pipe hits; the high score becomes the larger of itself and the score, so it never drops |
| World.StepPhases | js/game.js:243-285 | a frame never leads to or from the menu phase, a finished run stays finished, and a run being played ends exactly when some live pipe hits |
| World.StepUnlocks | js/game.js:266-294 | over a frame, catalog names and thresholds are kept, no entry re-locks, every entry whose threshold the new score meets is unlocked, and every entry above the new score keeps its flag |
| World.StepPreservesInv | js/game.js:243-285 | a frame keeps the state invariant |
| World.SpawnedKeeps | js/game.js:249-253 | spawning keeps pipes in range, and keeps `passed` meaning "behind the bird" |
| World.StepKeepsPipesInRange | js/game.js:249-264 | after a frame every pipe still has an allowed height, x <= canvas width and x + width >= 0 |
| World.SweepKeepsInRange | js/game.js:256-284 | the pipe loop keeps pipes in range |
| World.StepKeepsPassedMeansBehind | js/game.js:258-268 | a frame that ends without a collision keeps `passed` meaning "behind the bird" |
| World.SurvivorsInRange | js/game.js:258-264 | surviving pipes stay in range |
| World.FirstFrameSpawnsOnePipe | js/game.js:243-285 | the first frame of a fresh run at a real clock time spawns one pipe, scrolls it to x = 398, and the bird survives |
| World.CeilingEndsRun | js/game.js:240-246 | a bird at y = 0 moving up at 1 reaches velocity -0.5 and y = -0.5 and the run ends, the one pipe being far away |
| World.NoPipeNoBounds | js/game.js:240-256 | with no pipe, a bird below the floor does not end the run |
| GameEngine.Game.constructor | js/game.js:2-45 | the constructed state is `Initial` of the stored high score, and it satisfies the invariant |
| GameEngine.Game.Flap | js/game.js:53-65 | once a run has been started, game over included, velocity becomes exactly -8; before that nothing changes |
| GameEngine.Game.OnKeyDown | js/game.js:53-59 | only the Space key flaps |
| GameEngine.Game.OnCanvasClick | js/game.js:61-65 | a click flaps |
| GameEngine.Game.UpdateCharacterColors | js/game.js:98-104 | the bird takes the colour of the selected index |
| GameEngine.Game.SelectCharacter | js/game.js:87-92 | an unlocked index inside the catalog selects that entry and its colour; anything else is a no-op; the invariant holds |
| GameEngine.Game.StartGame | js/game.js:142-153 | the game is playing: started, not over, score 0, no pipes, y = 300, velocity 0, lastPipeSpawn 0; the rest carries over and the invariant holds |
| GameEngine.Game.CheckUnlocks | js/game.js:287-294 | the catalog becomes `Unlocked` of the old catalog at the current score |
| GameEngine.Game.VisitPipe | js/game.js:257-283 | one pass of the loop body: a retired pipe is spliced out; otherwise the pipe is advanced in place, scored once if crossed with checkUnlocks after the point, and tested, and a hit ends the run and raises the high score |
| GameEngine.Game.SweepPipesLoop | js/game.js:256-284 | the descending loop leaves pipes, score, catalog, game-over flag and high score as `SweepPipes` says |
| GameEngine.Game.SweepFrame | js/game.js:256-284 | the whole state after the pipe loop is `SweepWorld` of the state before |
| GameEngine.Game.SpawnPipe | js/game.js:249-253 | the state after the spawn test is `Spawn` of the state before |
| GameEngine.Game.UpdateGame | js/game.js:243-285 | the new state is `Step` of the old state, with velocity' = velocity + 0.5 and y' = y + velocity' |
| GameEngine.Game.GameLoop | js/game.js:296-312 | a frame is simulated only while playing, nothing changes otherwise, another frame is requested exactly when the run goes on, and the invariant holds |

## Left out

- Drawing (`drawBird`, `drawPipes`, `drawScore`, `clearRect`) has no effect on the state.
- Screen switching (`showMenu`, `showSettings`, `showCharacters`) and listener wiring are DOM work.
- The grid rebuild in `loadCharacters` is DOM work, including the rebuild that `checkUnlocks` triggers after each unlock. Only the click handler's state change is modelled, as `SelectCharacter`.
- Storage: only the parsed value is modelled. The constructor takes `Option<int>`, and `None` stands for a missing or non-numeric value. Writing the new high score to storage is left out.
- `createPartyPopper` is DOM, random confetti and a timer.
- Scheduling is left out: `requestAnimationFrame`, and the 1.5 s timer that shows the menu. One frame is one `GameLoop` call. Several frame chains started by repeated `startGame` calls are not modelled.
- IEEE-754 rounding is not modelled; the numbers are exact reals.
- GameEngine.Game.UpdateGame: its contract does not mention `Valid()`. Preservation of the invariant is `World.StepPreservesInv` applied to its `Step` equation, and `GameEngine.Game.GameLoop`, its only caller, carries it.
