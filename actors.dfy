/** The three kinds of actor (classes `Player`, `Coin` and `Lava`), their
    fixed sizes and their spawn constructors (`create`). */
module Actors {
  import opened Wrappers
  import opened Vectors

  /** An actor value. Every update in the game builds a new actor object,
      so an actor is modelled as an immutable value. The `size` field of
      each class is a constant of the class and is given by `Size()`. */
  datatype Actor =
    | Player(pos: Vec, speed: Vec)
    | Coin(pos: Vec, basePos: Vec, wobble: real)
    | Lava(pos: Vec, speed: Vec, reset: Option<Vec>)
  {
    /** The bounding-box size each constructor assigns to `this.size`. */
    function Size(): (s: Vec)
      ensures s.x > 0.0 && s.y > 0.0
    {
      match this
      case Player(_, _) => Vec(0.8, 1.5)
      case Coin(_, _, _) => Vec(0.6, 0.6)
      case Lava(_, _, _) => Vec(1.0, 1.0)
    }
  }

  /** The arrow keys the simulation reads (`keys.ArrowLeft`, ...). */
  datatype Keys = Keys(left: bool, right: bool, up: bool)

  /** `Player.create`: the player appears 1.5 above its marker cell, at rest. */
  function PlayerCreate(pos: Vec): (a: Actor)
    ensures a.Player? && a.pos == Vec(pos.x, pos.y - 1.5) && a.speed == Vec(0.0, 0.0)
  {
    Player(pos.Plus(Vec(0.0, -1.5)), Vec(0.0, 0.0))
  }

  /** `Coin.create`: the coin rests at its base position. The initial wobble
      phase is `Math.random() * Math.PI * 2` in the game; here the caller
      supplies it. */
  function CoinCreate(pos: Vec, wobble: real): (a: Actor)
    ensures a.Coin? && a.pos == pos && a.basePos == pos && a.wobble == wobble
  {
    Coin(pos, pos, wobble)
  }

  /** `Lava.create`: `'='` moves right at 2, `'|'` moves down at 2, and any
      other character (the level only passes `'v'`) is a drip that moves
      down at 3 and resets to its spawn position. */
  function LavaCreate(pos: Vec, ch: char): (a: Actor)
    ensures a.Lava? && a.pos == pos
    ensures ch == '=' ==> a.speed == Vec(2.0, 0.0) && a.reset == None
    ensures ch == '|' ==> a.speed == Vec(0.0, 2.0) && a.reset == None
    ensures ch != '=' && ch != '|' ==> a.speed == Vec(0.0, 3.0) && a.reset == Some(pos)
  {
    if ch == '=' then Lava(pos, Vec(2.0, 0.0), None)
    else if ch == '|' then Lava(pos, Vec(0.0, 2.0), None)
    else Lava(pos, Vec(0.0, 3.0), Some(pos))
  }

  /** Some actor of the list is a player (what `State.player` needs to
      find one). */
  predicate HasPlayer(actors: seq<Actor>) {
    exists i :: 0 <= i < |actors| && actors[i].Player?
  }
}
