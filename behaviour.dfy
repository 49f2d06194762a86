/** Per-actor behaviour: `Player.update`, `Coin.update` and `Lava.update`,
    and the dispatch `actor.update(time, state, keys)`. Each update reads
    only the level of the state it is given. */
module Behaviour {
  import opened Wrappers
  import opened Vectors
  import opened Actors
  import opened Levels
  import opened Collision

  const PlayerXSpeed: real := 7.0
  const Gravity: real := 30.0
  const JumpSpeed: real := 17.0
  const WobbleSpeed: real := 8.0
  const WobbleDist: real := 0.07

  // ---------------------------------------------------------------------
  // Player

  /** The horizontal speed the arrow keys ask for: 0, less 7 for Left,
      plus 7 for Right. */
  function WalkSpeed(keys: Keys): (v: real)
    ensures v == -PlayerXSpeed || v == 0.0 || v == PlayerXSpeed
    ensures v == 0.0 <==> keys.left == keys.right
    ensures v < 0.0 <==> keys.left && !keys.right
  {
    (if keys.left then -PlayerXSpeed else 0.0) + (if keys.right then PlayerXSpeed else 0.0)
  }

  /** The first lines of `Player.update`: the arrow keys set the speed the
      player asks for. */
  method KeySpeed(keys: Keys) returns (xSpeed: real)
    ensures xSpeed == WalkSpeed(keys)
  {
    xSpeed := 0.0;
    if keys.left {
      xSpeed := xSpeed - PlayerXSpeed;
    }
    if keys.right {
      xSpeed := xSpeed + PlayerXSpeed;
    }
  }

  /** Where the horizontal wall check puts the player: moved along x from
      the old position at the speed the keys ask for. */
  function CandidateX(p: Actor, time: real, keys: Keys): Vec {
    p.pos.Plus(Vec(WalkSpeed(keys) * time, 0.0))
  }

  /** Where the vertical wall check puts the player: moved along y from the
      OLD position (not from the horizontally moved one) at the speed
      gravity gives. */
  function CandidateY(p: Actor, time: real): Vec
    requires p.Player?
  {
    p.pos.Plus(Vec(0.0, (p.speed.y + Gravity * time) * time))
  }

  /** The horizontal speed `Player.update` settles on: the speed the keys
      ask for, or 0 when the horizontally moved candidate touches a wall. */
  ghost function NextXSpeed(level: Level, p: Actor, time: real, keys: Keys): real {
    if Touching(level, CandidateX(p, time, keys), p.Size(), Wall) then 0.0 else WalkSpeed(keys)
  }

  /** The vertical speed `Player.update` settles on: the old speed plus
      gravity, or, when the vertically moved candidate touches a wall, the
      jump speed upwards if Up is held while falling and 0 otherwise. */
  ghost function NextYSpeed(level: Level, p: Actor, time: real, keys: Keys): real
    requires p.Player?
  {
    var fall := p.speed.y + Gravity * time;
    if !Touching(level, CandidateY(p, time), p.Size(), Wall) then fall
    else if keys.up && fall > 0.0 then -JumpSpeed
    else 0.0
  }

  /** The player with speed (xSpeed, ySpeed), moved first along x and then
      along y by that speed times `time`. */
  function Moved(p: Actor, time: real, xSpeed: real, ySpeed: real): Actor {
    Player(p.pos.Plus(Vec(xSpeed * time, 0.0)).Plus(Vec(0.0, ySpeed * time)), Vec(xSpeed, ySpeed))
  }

  /** The player `Player.update` returns: both wall checks are made against
      the level, and the result applies both resolved moves. */
  ghost function PlayerNext(level: Level, p: Actor, time: real, keys: Keys): Actor
    requires p.Player?
  {
    Moved(p, time, NextXSpeed(level, p, time, keys), NextYSpeed(level, p, time, keys))
  }

  /** The horizontal half of `Player.update`: the keys set the speed, and a
      wall at the horizontally moved position cancels it. */
  method HorizontalSpeed(level: Level, p: Actor, time: real, keys: Keys) returns (xSpeed: real)
    requires p.Player?
    ensures xSpeed == NextXSpeed(level, p, time, keys)
  {
    xSpeed := KeySpeed(keys);
    var posX := Player(p.pos.Plus(Vec(xSpeed * time, 0.0)), p.speed);
    assert posX.pos == CandidateX(p, time, keys) && posX.Size() == p.Size();
    var hitX := Touches(level, posX, Wall);
    if hitX {
      xSpeed := 0.0;
    }
  }

  /** The vertical half of `Player.update`: gravity accelerates the player,
      and a wall at the vertically moved position stops it or, with Up held
      while falling, makes it jump. */
  method VerticalSpeed(level: Level, p: Actor, time: real, keys: Keys) returns (ySpeed: real)
    requires p.Player?
    ensures ySpeed == NextYSpeed(level, p, time, keys)
  {
    ySpeed := p.speed.y + Gravity * time;
    var posY := Player(p.pos.Plus(Vec(0.0, ySpeed * time)), p.speed);
    assert posY.pos == CandidateY(p, time) && posY.Size() == p.Size();
    var hitY := Touches(level, posY, Wall);
    if hitY {
      if keys.up && ySpeed > 0.0 {
        ySpeed := -JumpSpeed;
      } else {
        ySpeed := 0.0;
      }
    }
  }

  /** `Player.update`. The JavaScript writes the new speeds into the speed
      object the old player shares with the new one; the model returns a
      fresh speed and leaves that aliasing out. */
  method PlayerUpdate(level: Level, p: Actor, time: real, keys: Keys) returns (r: Actor)
    requires p.Player?
    ensures r == PlayerNext(level, p, time, keys)
  {
    var pos := p.pos;
    var xSpeed := HorizontalSpeed(level, p, time, keys);
    pos := pos.Plus(Vec(xSpeed * time, 0.0));
    var ySpeed := VerticalSpeed(level, p, time, keys);
    pos := pos.Plus(Vec(0.0, ySpeed * time));
    r := Player(pos, Vec(xSpeed, ySpeed));
  }

  /** The horizontal rule of `Player.update`: the new horizontal speed is
      -7, 0 or 7; it is 0 when both or neither of Left and Right are held,
      and 0 when the horizontally moved candidate touches a wall. */
  lemma PlayerHorizontal(level: Level, p: Actor, time: real, keys: Keys)
    requires p.Player?
    ensures var r := PlayerNext(level, p, time, keys);
      var want := WalkSpeed(keys);
      var hitX := Touching(level, CandidateX(p, time, keys), p.Size(), Wall);
      && CandidateX(p, time, keys) == Vec(p.pos.x + want * time, p.pos.y)
      && r.Player?
      && (r.speed.x == -7.0 || r.speed.x == 0.0 || r.speed.x == 7.0)
      && (keys.left == keys.right ==> r.speed.x == 0.0)
      && r.speed.x == (if hitX then 0.0 else want)
  {
  }

  /** The vertical rule of `Player.update`: gravity adds `30 * time`; when
      the vertically moved candidate touches a wall the speed becomes -17
      if Up is held while moving down, and 0 otherwise. */
  lemma PlayerVertical(level: Level, p: Actor, time: real, keys: Keys)
    requires p.Player?
    ensures var r := PlayerNext(level, p, time, keys);
      var fall := p.speed.y + Gravity * time;
      var hitY := Touching(level, CandidateY(p, time), p.Size(), Wall);
      && CandidateY(p, time) == Vec(p.pos.x, p.pos.y + fall * time)
      && r.Player?
      && (!hitY ==> r.speed.y == fall)
      && (hitY && keys.up && fall > 0.0 ==> r.speed.y == -17.0)
      && (hitY && !(keys.up && fall > 0.0) ==> r.speed.y == 0.0)
  {
  }

  /** `Player.update` moves the player by its new speed on both axes. */
  lemma PlayerMoves(level: Level, p: Actor, time: real, keys: Keys)
    requires p.Player?
    ensures var r := PlayerNext(level, p, time, keys);
      r.Player? && r.pos == Vec(p.pos.x + r.speed.x * time, p.pos.y + r.speed.y * time)
  {
    var xSpeed, ySpeed := NextXSpeed(level, p, time, keys), NextYSpeed(level, p, time, keys);
    var moved := Moved(p, time, xSpeed, ySpeed);
    assert moved.pos == Vec(p.pos.x + xSpeed * time, p.pos.y + ySpeed * time);
  }

  /** A player whose feet are on the top edge of a wall cell, and who is at
      rest or falling, does not sink into it: with a positive time step its
      vertical speed becomes 0, or the jump speed when Up is held. */
  lemma PlayerLandsOnWall(level: Level, p: Actor, time: real, keys: Keys, row: int)
    requires p.Player? && time > 0.0 && p.speed.y >= 0.0
    requires (p.speed.y + Gravity * time) * time < 2.5
    requires p.pos.y + 1.5 == row as real
    requires Block(level, Floor(p.pos.x), row) == Some(Wall)
    ensures var r := PlayerNext(level, p, time, keys);
      && r.speed.y == (if keys.up then -JumpSpeed else 0.0)
      && r.pos.y == p.pos.y + r.speed.y * time
  {
    var fall := p.speed.y + Gravity * time;
    assert fall * time > 0.0 by {
      assert fall > 0.0;
    }
    var cand := CandidateY(p, time);
    FloorCeil(p.pos.x);
    FloorCeil(p.pos.x + 0.8);
    FloorCeil(cand.y);
    FloorCeil(cand.y + 1.5);
    assert CellMatches(level, cand, p.Size(), Wall, Floor(p.pos.x), row);
  }

  // ---------------------------------------------------------------------
  // Coin

  /** `Coin.update`: advances the wobble phase and places the coin at its
      base position shifted vertically by `sin(wobble) * 0.07`. `sin`
      stands for `Math.sin`, about which nothing is assumed. */
  function CoinUpdate(c: Actor, time: real, sin: real -> real): (r: Actor)
    requires c.Coin?
    ensures r.Coin? && r.basePos == c.basePos && r.wobble == c.wobble + WobbleSpeed * time
    ensures r.pos == Vec(c.basePos.x, c.basePos.y + sin(r.wobble) * WobbleDist)
  {
    var wobble := c.wobble + time * WobbleSpeed;
    var offset := sin(wobble) * WobbleDist;
    Coin(c.basePos.Plus(Vec(0.0, offset)), c.basePos, wobble)
  }

  /** The sum of a sequence of time steps. */
  function Sum(times: seq<real>): real {
    if |times| == 0 then 0.0 else times[0] + Sum(times[1..])
  }

  /** The coin after one update per time step. */
  function CoinAfter(c: Actor, times: seq<real>, sin: real -> real): Actor
    requires c.Coin?
    decreases |times|
  {
    if |times| == 0 then c else CoinAfter(CoinUpdate(c, times[0], sin), times[1..], sin)
  }

  /** However many updates a coin goes through, its base position does not
      move and its phase has advanced by 8 per unit of time. */
  lemma {:induction false} CoinKeepsBase(c: Actor, times: seq<real>, sin: real -> real)
    requires c.Coin?
    ensures var r := CoinAfter(c, times, sin);
      r.Coin? && r.basePos == c.basePos && r.wobble == c.wobble + WobbleSpeed * Sum(times)
    decreases |times|
  {
    if |times| > 0 {
      CoinKeepsBase(CoinUpdate(c, times[0], sin), times[1..], sin);
    }
  }

  // ---------------------------------------------------------------------
  // Lava

  /** The lava `Lava.update` returns: it moves by `speed * time`; when the
      moved box touches a wall, a drip jumps back to its reset position
      and any other lava stays put and reverses. */
  ghost function LavaNext(level: Level, l: Actor, time: real): Actor
    requires l.Lava?
  {
    var moved := l.pos.Plus(l.speed.Times(time));
    if !Touching(level, moved, l.Size(), Wall) then Actor.Lava(moved, l.speed, l.reset)
    else if l.reset.Some? then Actor.Lava(l.reset.value, l.speed, l.reset)
    else Actor.Lava(l.pos, l.speed.Times(-1.0), l.reset)
  }

  /** `Lava.update`. */
  method LavaUpdate(level: Level, l: Actor, time: real) returns (r: Actor)
    requires l.Lava?
    ensures r == LavaNext(level, l, time)
  {
    var pos, speed := l.pos, l.speed;
    pos := pos.Plus(speed.Times(time));
    var hit := Touches(level, Actor.Lava(pos, speed, l.reset), Wall);
    if hit {
      if l.reset.Some? {
        pos := l.reset.value;
      } else {
        pos := l.pos;
        speed := speed.Times(-1.0);
      }
    }
    r := Actor.Lava(pos, speed, l.reset);
  }

  /** The three cases of `Lava.update`; `reset` is always kept. */
  lemma LavaRules(level: Level, l: Actor, time: real)
    requires l.Lava?
    ensures var r := LavaNext(level, l, time);
      var moved := l.pos.Plus(l.speed.Times(time));
      var hit := Touching(level, moved, l.Size(), Wall);
      && moved == Vec(l.pos.x + l.speed.x * time, l.pos.y + l.speed.y * time)
      && r.Lava? && r.reset == l.reset
      && (!hit ==> r.pos == moved && r.speed == l.speed)
      && (hit && l.reset.Some? ==> r.pos == l.reset.value && r.speed == l.speed)
      && (hit && l.reset.None? ==> r.pos == l.pos && r.speed == Vec(-l.speed.x, -l.speed.y))
  {
  }

  /** The lava after one update per time step. */
  ghost function LavaAfter(level: Level, l: Actor, times: seq<real>): Actor
    requires l.Lava?
    decreases |times|
  {
    if |times| == 0 then l
    else
      LavaRules(level, l, times[0]);
      LavaAfter(level, LavaNext(level, l, times[0]), times[1..])
  }

  /** A drip keeps its reset position and its speed through any number of
      updates. */
  lemma {:induction false} DripKeepsReset(level: Level, l: Actor, times: seq<real>)
    requires l.Lava? && l.reset.Some?
    ensures var r := LavaAfter(level, l, times);
      r.Lava? && r.reset == l.reset && r.speed == l.speed
    decreases |times|
  {
    if |times| > 0 {
      LavaRules(level, l, times[0]);
      DripKeepsReset(level, LavaNext(level, l, times[0]), times[1..]);
    }
  }

  /** A drip spawned by `'v'` at `spawn`, however far it has moved, returns
      exactly to `spawn` on the update in which it touches a wall. */
  lemma DripReturnsToSpawn(level: Level, spawn: Vec, times: seq<real>, time: real)
    ensures var l := LavaAfter(level, LavaCreate(spawn, 'v'), times);
      && l.Lava? && l.speed == Vec(0.0, 3.0)
      && (Touching(level, l.pos.Plus(l.speed.Times(time)), l.Size(), Wall) ==>
            LavaNext(level, l, time).pos == spawn)
  {
    DripKeepsReset(level, LavaCreate(spawn, 'v'), times);
  }

  // ---------------------------------------------------------------------
  // Dispatch

  /** `actor.update(time, state, keys)` for an actor of any class. */
  ghost function ActorNext(level: Level, a: Actor, time: real, keys: Keys, sin: real -> real): (r: Actor)
    ensures r.Player? == a.Player? && r.Coin? == a.Coin? && r.Lava? == a.Lava?
    ensures a.Coin? ==> r.basePos == a.basePos
    ensures a.Lava? ==> r.reset == a.reset
  {
    match a
    case Player(_, _) => PlayerNext(level, a, time, keys)
    case Coin(_, _, _) => CoinUpdate(a, time, sin)
    case Lava(_, _, _) => LavaRules(level, a, time); LavaNext(level, a, time)
  }

  /** The dynamic dispatch of `update` on the actor's class. */
  method UpdateActor(level: Level, a: Actor, time: real, keys: Keys, sin: real -> real) returns (r: Actor)
    ensures r == ActorNext(level, a, time, keys, sin)
  {
    match a {
      case Player(_, _) =>
        r := PlayerUpdate(level, a, time, keys);
      case Coin(_, _, _) =>
        r := CoinUpdate(a, time, sin);
      case Lava(_, _, _) =>
        r := LavaUpdate(level, a, time);
    }
  }
}
