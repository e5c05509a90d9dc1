/** The constants and value types of the game: the play area, the bird,
    the pipes and the character catalog.  Coordinates are exact reals
    (y grows downwards, as on an HTML canvas). */
module Entities {

  datatype Option<T> = None | Some(value: T)

  // Play area (js/game.js:5-6)
  const CanvasWidth: real := 400.0
  const CanvasHeight: real := 600.0

  // Bird (js/game.js:16-24); x never changes during a run
  const BirdX: real := 50.0
  const BirdStartY: real := 300.0
  const Gravity: real := 0.5
  const JumpForce: real := -8.0
  const BirdSize: real := 30.0

  // Pipes (js/game.js:27-31, 156-157, 258)
  const PipeWidth: real := 60.0
  const PipeGap: real := 150.0
  const PipeSpawnInterval: int := 2000
  const MinPipeHeight: real := 50.0
  const MaxPipeHeight: real := CanvasHeight - PipeGap - MinPipeHeight
  const ScrollSpeed: real := 2.0

  /** A pipe pair: its left edge `x`, the bottom of its upper barrier
      `height` (the gap spans height .. height + PipeGap), and whether the
      bird has already been credited for it. */
  datatype Pipe = Pipe(x: real, height: real, passed: bool)

  /** An entry of the character catalog; `unlockScore` is the run score
      that unlocks it. */
  datatype Character = Character(name: string, unlockScore: nat, unlocked: bool)

  /** The catalog as the game is constructed (js/game.js:34-45). */
  const InitialCharacters: seq<Character> := [
    Character("Red Bird", 0, true),
    Character("Blue Bird", 10, false),
    Character("Golden Bird", 20, false),
    Character("Robot Bird", 30, false),
    Character("Ninja Bird", 40, false),
    Character("Rainbow Bird", 50, false),
    Character("Ghost Bird", 60, false),
    Character("Dragon Bird", 70, false),
    Character("Phoenix Bird", 80, false),
    Character("Space Bird", 100, false)
  ]

  /** Bird colour per catalog index (js/game.js:99-102). */
  const Colors: seq<string> := [
    "#FF0000", "#0000FF", "#FFD700", "#808080", "#000000",
    "#FF69B4", "#8A2BE2", "#228B22", "#FFA500", "#4169E1"
  ]

  /** The catalog still has the declared names and thresholds; only the
      unlocked flags may differ from the initial catalog. */
  ghost predicate SameCatalog(cs: seq<Character>)
  {
    && |cs| == |InitialCharacters|
    && forall k :: 0 <= k < |cs| ==>
         cs[k].name == InitialCharacters[k].name && cs[k].unlockScore == InitialCharacters[k].unlockScore
  }
}
