/** Collision detection: `State.touches` (an actor's grid footprint
    against one cell kind) and `overlap` (strict box intersection of two
    actors). */
module Collision {
  import opened Wrappers
  import opened Vectors
  import opened Actors
  import opened Levels

  /** `Math.floor`. */
  function Floor(r: real): int {
    r.Floor
  }

  /** `Math.ceil`. */
  function Ceil(r: real): int {
    -((-r).Floor)
  }

  /** The value `touches` compares with the cell kind at grid position
      (x, y): `"wall"` outside `[0, width) x [0, height)`, otherwise
      `rows[y][x]`, which is `undefined` (None) past the end of a short row. */
  function Block(level: Level, x: int, y: int): Option<Cell> {
    if x < 0 || y < 0 || x >= level.Width() || y >= level.Height() then Some(Wall)
    else if x < |level.rows[y]| then Some(level.rows[y][x])
    else None
  }

  /** Cell (x, y) is in the floor/ceil footprint `touches` scans for the
      box at `pos` with extent `size`. */
  predicate InFootprint(pos: Vec, size: Vec, x: int, y: int) {
    && Floor(pos.y) <= y < Ceil(pos.y + size.y)
    && Floor(pos.x) <= x < Ceil(pos.x + size.x)
  }

  /** Cell (x, y) is in the footprint and holds the cell kind `t`. */
  predicate CellMatches(level: Level, pos: Vec, size: Vec, t: Cell, x: int, y: int) {
    InFootprint(pos, size, x, y) && Block(level, x, y) == Some(t)
  }

  /** Some cell of the footprint holds the cell kind `t`. */
  ghost predicate Touching(level: Level, pos: Vec, size: Vec, t: Cell) {
    exists y: int, x: int :: CellMatches(level, pos, size, t, x, y)
  }

  /** `State.touches`: scans the footprint row by row and returns at the
      first cell of kind `t`. */
  method Touches(level: Level, actor: Actor, t: Cell) returns (r: bool)
    ensures r == Touching(level, actor.pos, actor.Size(), t)
  {
    var pos, size := actor.pos, actor.Size();
    var xStart, xEnd := Floor(pos.x), Ceil(pos.x + size.x);
    var yStart, yEnd := Floor(pos.y), Ceil(pos.y + size.y);
    var y := yStart;
    while y < yEnd
      invariant yStart <= y
      invariant forall j, i :: yStart <= j < y && xStart <= i < xEnd ==> Block(level, i, j) != Some(t)
      decreases yEnd - y
    {
      var x := xStart;
      while x < xEnd
        invariant xStart <= x
        invariant forall i :: xStart <= i < x ==> Block(level, i, y) != Some(t)
        decreases xEnd - x
      {
        var block := Block(level, x, y);
        if block == Some(t) {
          assert CellMatches(level, pos, size, t, x, y);
          return true;
        }
        x := x + 1;
      }
      y := y + 1;
    }
    return false;
  }

  /** `overlap`: the two boxes intersect in a region of positive area. */
  function Overlap(a: Actor, b: Actor): bool {
    BoxesOverlap(a.pos, a.Size(), b.pos, b.Size())
  }

  /** The comparison `overlap` makes, on boxes given by corner and size. */
  function BoxesOverlap(p1: Vec, s1: Vec, p2: Vec, s2: Vec): bool {
    p1.x < p2.x + s2.x && p2.x < p1.x + s1.x && p1.y < p2.y + s2.y && p2.y < p1.y + s1.y
  }

  // ---------------------------------------------------------------------
  // Properties of the two tests.

  /** `overlap` does not depend on the order of its arguments. */
  lemma OverlapSymmetric(a: Actor, b: Actor)
    ensures Overlap(a, b) == Overlap(b, a)
  {
  }

  /** Boxes that only share an edge do not overlap: the comparisons are strict. */
  lemma EdgeContactIsNoOverlap(a: Actor, b: Actor)
    requires a.pos.x + a.Size().x == b.pos.x || a.pos.y + a.Size().y == b.pos.y
    ensures !Overlap(a, b) && !Overlap(b, a)
  {
  }

  /** `Math.floor` and `Math.ceil` bracket their argument. */
  lemma FloorCeil(r: real)
    ensures Floor(r) as real <= r < Floor(r) as real + 1.0
    ensures Ceil(r) as real - 1.0 < r <= Ceil(r) as real
  {
  }

  /** On one axis, cell k lies in the footprint `[floor(lo), ceil(lo + ext))`
      exactly when the open unit interval `(k, k + 1)` meets `(lo, lo + ext)`. */
  lemma FootprintAxis(lo: real, ext: real, k: int)
    ensures (Floor(lo) <= k < Ceil(lo + ext)) == (k as real < lo + ext && lo < k as real + 1.0)
  {
    FloorCeil(lo);
    FloorCeil(lo + ext);
  }

  /** The footprint `touches` scans is exactly the set of grid cells whose
      unit square overlaps the box (in the sense of `overlap`): so `touches`
      holds exactly when such a cell holds kind `t`. */
  lemma TouchingIsCellOverlap(level: Level, pos: Vec, size: Vec, t: Cell)
    ensures Touching(level, pos, size, t) <==>
      exists y: int, x: int ::
        BoxesOverlap(pos, size, Vec(x as real, y as real), Vec(1.0, 1.0)) && Block(level, x, y) == Some(t)
  {
    forall y: int, x: int
      ensures CellMatches(level, pos, size, t, x, y) ==
        (BoxesOverlap(pos, size, Vec(x as real, y as real), Vec(1.0, 1.0)) && Block(level, x, y) == Some(t))
    {
      FootprintAxis(pos.x, size.x, x);
      FootprintAxis(pos.y, size.y, y);
    }
  }

  /** A box of positive size that reaches outside the grid on any side
      touches `"wall"`, because cells outside the grid read as wall. */
  lemma OutsideTouchesWall(level: Level, pos: Vec, size: Vec)
    requires size.x > 0.0 && size.y > 0.0
    requires || pos.x < 0.0 || pos.y < 0.0
             || pos.x + size.x > level.Width() as real || pos.y + size.y > level.Height() as real
    ensures Touching(level, pos, size, Wall)
  {
    FloorCeil(pos.x);
    FloorCeil(pos.y);
    FloorCeil(pos.x + size.x);
    FloorCeil(pos.y + size.y);
    var x := if pos.x < 0.0 then Floor(pos.x) else Ceil(pos.x + size.x) - 1;
    var y := if pos.y < 0.0 then Floor(pos.y) else Ceil(pos.y + size.y) - 1;
    if pos.x < 0.0 || pos.x + size.x > level.Width() as real {
      assert CellMatches(level, pos, size, Wall, x, Floor(pos.y));
    } else {
      assert CellMatches(level, pos, size, Wall, Floor(pos.x), y);
    }
  }

  /** In particular every actor with a part at a negative coordinate
      touches `"wall"`. */
  lemma NegativeCoordinateTouchesWall(level: Level, a: Actor)
    requires a.pos.x < 0.0 || a.pos.y < 0.0
    ensures Touching(level, a.pos, a.Size(), Wall)
  {
    OutsideTouchesWall(level, a.pos, a.Size());
  }
}
