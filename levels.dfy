/** The level model: the legend `levelChars` and the `Level` constructor,
    which turns level text into a grid of cells and the list of actors
    it spawns. */
module Levels {
  import opened Wrappers
  import opened Vectors
  import opened Actors

  /** The grid cell kinds `"empty"`, `"wall"` and `"lava"`. */
  datatype Cell = Empty | Wall | Lava

  /** The actor classes the legend names. */
  datatype ActorClass = PlayerClass | CoinClass | LavaClass

  /** A legend entry is either a cell kind (a string in `levelChars`) or
      an actor class whose `create` spawns an actor. */
  datatype Entry = Terrain(cell: Cell) | Spawner(kind: ActorClass)

  /** `levelChars`. */
  const LevelChars: map<char, Entry> := map[
    '.' := Terrain(Empty), '#' := Terrain(Wall), '+' := Terrain(Cell.Lava),
    '@' := Spawner(PlayerClass), 'o' := Spawner(CoinClass),
    '=' := Spawner(LavaClass), 'v' := Spawner(LavaClass), '|' := Spawner(LavaClass)]

  /** A row-major grid. `this.rows` always has a row, because splitting a
      string always yields at least one piece. */
  type Rows = r: seq<seq<Cell>> | |r| > 0 witness [[]]

  /** A parsed level. `height` is the number of rows and `width` the length
      of row 0; rows are not checked to have equal length. */
  datatype Level = Level(rows: Rows, actors: seq<Actor>) {
    function Height(): nat { |rows| }
    function Width(): nat { |rows[0]| }
  }

  /** The construction failure: `type.create` on `undefined` throws for a
      character that is not in the legend. */
  datatype ParseError = UnknownCharacter(ch: char, x: nat, y: nat)

  // ---------------------------------------------------------------------
  // Text handling: `trim()` and `split("\n")`.

  /** The characters `String.prototype.trim` removes: ECMAScript
      WhiteSpace and LineTerminator code points. */
  predicate IsSpace(c: char) {
    var n := c as int;
    n == 0x09 || n == 0x0A || n == 0x0B || n == 0x0C || n == 0x0D || n == 0x20 ||
    n == 0xA0 || n == 0x1680 || (0x2000 <= n <= 0x200A) || n == 0x2028 || n == 0x2029 ||
    n == 0x202F || n == 0x205F || n == 0x3000 || n == 0xFEFF
  }

  /** Drops leading white space. */
  function TrimStart(s: string): (r: string)
    ensures |r| <= |s| && r == s[|s| - |r|..]
    ensures forall i :: 0 <= i < |s| - |r| ==> IsSpace(s[i])
    ensures |r| > 0 ==> !IsSpace(r[0])
    decreases |s|
  {
    if |s| > 0 && IsSpace(s[0]) then TrimStart(s[1..]) else s
  }

  /** Drops trailing white space. */
  function TrimEnd(s: string): (r: string)
    ensures |r| <= |s| && r == s[..|r|]
    ensures forall i :: |r| <= i < |s| ==> IsSpace(s[i])
    ensures |r| > 0 ==> !IsSpace(r[|r| - 1])
    decreases |s|
  {
    if |s| > 0 && IsSpace(s[|s| - 1]) then TrimEnd(s[..|s| - 1]) else s
  }

  /** `trim()`. */
  function Trim(s: string): string {
    TrimEnd(TrimStart(s))
  }

  /** `Trim(s)` is the infix of `s` left between its leading and trailing
      white space, and it neither starts nor ends with white space. */
  lemma TrimIsInfix(s: string)
    ensures var r, i := Trim(s), |s| - |TrimStart(s)|;
      && i + |r| <= |s| && r == s[i..i + |r|]
      && (forall k :: 0 <= k < i ==> IsSpace(s[k]))
      && (forall k :: i + |r| <= k < |s| ==> IsSpace(s[k]))
      && (|r| > 0 ==> !IsSpace(r[0]) && !IsSpace(r[|r| - 1]))
  {
    var t := TrimStart(s);
    var r := TrimEnd(t);
    var i := |s| - |t|;
    assert t == s[i..];
    assert r == t[..|r|];
    assert r == s[i..i + |r|];
    forall k | i + |r| <= k < |s|
      ensures IsSpace(s[k])
    {
      assert s[k] == t[k - i];
    }
    if |r| > 0 {
      assert r[0] == t[0];
    }
  }

  /** `split("\n")`: the pieces between line feeds, empty pieces included. */
  function Split(s: string): (r: seq<string>)
    ensures |r| >= 1
    ensures forall i :: 0 <= i < |r| ==> '\n' !in r[i]
    decreases |s|
  {
    if |s| == 0 then [""]
    else
      var rest := Split(s[1..]);
      if s[0] == '\n' then [""] + rest
      else [[s[0]] + rest[0]] + rest[1..]
  }

  /** `join("\n")`, the inverse of `Split`. */
  function Join(parts: seq<string>): string
    requires |parts| >= 1
    decreases |parts|
  {
    if |parts| == 1 then parts[0] else parts[0] + "\n" + Join(parts[1..])
  }

  /** Splitting and joining again gives back the text. */
  lemma {:induction false} JoinSplit(s: string)
    ensures Join(Split(s)) == s
    decreases |s|
  {
    if |s| > 0 {
      var rest := Split(s[1..]);
      JoinSplit(s[1..]);
      if s[0] == '\n' {
        assert Join(Split(s)) == "" + "\n" + Join(rest);
        assert s == [s[0]] + s[1..];
      } else if |rest| == 1 {
        assert s == [s[0]] + s[1..];
      } else {
        assert Join(rest) == rest[0] + "\n" + Join(rest[1..]);
        var parts := [[s[0]] + rest[0]] + rest[1..];
        assert parts[1..] == rest[1..];
        assert s == [s[0]] + s[1..];
      }
    }
  }

  /** Splitting a piece without line feeds followed by a line feed. */
  lemma {:induction false} SplitPiece(a: string, b: string)
    requires '\n' !in a
    ensures Split(a + "\n" + b) == [a] + Split(b)
    decreases |a|
  {
    if |a| == 0 {
      assert a + "\n" + b == "\n" + b;
      assert ("\n" + b)[1..] == b;
    } else {
      SplitPiece(a[1..], b);
      assert (a + "\n" + b)[1..] == a[1..] + "\n" + b;
      assert [a[0]] + a[1..] == a;
    }
  }

  /** A piece without line feeds splits to itself. */
  lemma {:induction false} SplitLast(a: string)
    requires '\n' !in a
    ensures Split(a) == [a]
    decreases |a|
  {
    if |a| > 0 {
      SplitLast(a[1..]);
      assert [a[0]] + a[1..] == a;
    }
  }

  /** Joining pieces free of line feeds and splitting again gives the pieces. */
  lemma {:induction false} SplitJoin(parts: seq<string>)
    requires |parts| >= 1
    requires forall i :: 0 <= i < |parts| ==> '\n' !in parts[i]
    ensures Split(Join(parts)) == parts
    decreases |parts|
  {
    if |parts| == 1 {
      SplitLast(parts[0]);
    } else {
      SplitJoin(parts[1..]);
      SplitPiece(parts[0], Join(parts[1..]));
      assert [parts[0]] + parts[1..] == parts;
    }
  }

  /** The rows of characters the constructor reads:
      `level.trim().split("\n").map(l => [...l])`. */
  function Lines(text: string): (lines: seq<string>)
    ensures |lines| >= 1
  {
    Split(Trim(text))
  }

  // ---------------------------------------------------------------------
  // What one character contributes.

  /** `type.create(new Vec(x, y), ch)` for the actor class `c`; `wobble` is
      the coin's random initial phase. */
  function Create(c: ActorClass, pos: Vec, ch: char, wobble: real): Actor {
    match c
    case PlayerClass => PlayerCreate(pos)
    case CoinClass => CoinCreate(pos, wobble)
    case LavaClass => LavaCreate(pos, ch)
  }

  /** The cell a legend character leaves in the grid: its cell kind, or
      `"empty"` under an actor. */
  function CellFor(ch: char): Cell
    requires ch in LevelChars
  {
    match LevelChars[ch]
    case Terrain(cell) => cell
    case Spawner(_) => Empty
  }

  /** The actors the character at column x of row y pushes: one for an
      actor character, none for a cell character. */
  function SpawnAt(ch: char, x: nat, y: nat, wobble: (int, int) -> real): seq<Actor>
    requires ch in LevelChars
  {
    match LevelChars[ch]
    case Terrain(_) => []
    case Spawner(c) => [Create(c, Vec(x as real, y as real), ch, wobble(x, y))]
  }

  /** Every character of the line is in the legend. */
  predicate LineInLegend(line: string) {
    forall x :: 0 <= x < |line| ==> line[x] in LevelChars
  }

  /** Every character of the first n rows is in the legend. */
  predicate RowsInLegend(lines: seq<string>, n: nat)
    requires n <= |lines|
  {
    forall y :: 0 <= y < n ==> LineInLegend(lines[y])
  }

  /** The cells of a row are what the legend makes of its characters. */
  predicate RowOf(cells: seq<Cell>, line: string)
    requires LineInLegend(line)
  {
    |cells| == |line| && forall x :: 0 <= x < |line| ==> cells[x] == CellFor(line[x])
  }

  /** The cells the legend makes of a row. */
  function CellsOf(line: string): (cells: seq<Cell>)
    requires LineInLegend(line)
    ensures RowOf(cells, line)
  {
    seq(|line|, x requires 0 <= x < |line| => CellFor(line[x]))
  }

  /** The actors pushed while mapping the first n characters of row y. */
  function RowSpawns(line: string, y: nat, n: nat, wobble: (int, int) -> real): seq<Actor>
    requires n <= |line|
    requires forall x :: 0 <= x < n ==> line[x] in LevelChars
    decreases n
  {
    if n == 0 then [] else RowSpawns(line, y, n - 1, wobble) + SpawnAt(line[n - 1], n - 1, y, wobble)
  }

  /** The actors pushed while mapping the first n rows, in row-major order. */
  function Spawns(lines: seq<string>, n: nat, wobble: (int, int) -> real): seq<Actor>
    requires n <= |lines| && RowsInLegend(lines, n)
    decreases n
  {
    assert n > 0 ==> LineInLegend(lines[n - 1]);
    if n == 0 then []
    else Spawns(lines, n - 1, wobble) + RowSpawns(lines[n - 1], n - 1, |lines[n - 1]|, wobble)
  }

  // ---------------------------------------------------------------------
  // The `Level` constructor.

  /** `row.map(...)` for row y: maps each character through the legend,
      pushes the actors it spawns onto `actors` and gives the row's cells;
      fails at the first character outside the legend. */
  method ParseRow(line: string, y: nat, wobble: (int, int) -> real, actors: seq<Actor>)
    returns (r: Result<(seq<Cell>, seq<Actor>), ParseError>)
    ensures r.Ok? <==> LineInLegend(line)
    ensures r.Ok? ==> r.value.0 == CellsOf(line) && r.value.1 == actors + RowSpawns(line, y, |line|, wobble)
    ensures r.Err? ==>
      var e := r.error;
      && e.y == y && e.x < |line| && line[e.x] == e.ch && e.ch !in LevelChars
      && LineInLegend(line[..e.x])
  {
    var cells: seq<Cell> := [];
    var pushed := actors;
    var x := 0;
    while x < |line|
      invariant 0 <= x <= |line|
      invariant LineInLegend(line[..x])
      invariant RowOf(cells, line[..x])
      invariant pushed == actors + RowSpawns(line, y, x, wobble)
    {
      var ch := line[x];
      if ch !in LevelChars {
        return Err(UnknownCharacter(ch, x, y));
      }
      match LevelChars[ch] {
        case Terrain(cell) =>
          cells := cells + [cell];
        case Spawner(c) =>
          pushed := pushed + [Create(c, Vec(x as real, y as real), ch, wobble(x, y))];
          cells := cells + [Empty];
      }
      assert line[..x + 1] == line[..x] + [ch];
      x := x + 1;
    }
    assert line[..x] == line;
    assert cells == CellsOf(line);
    r := Ok((cells, pushed));
  }

  /** The cells of the first n rows, one row per line. */
  function Grid(lines: seq<string>, n: nat): (rows: seq<seq<Cell>>)
    requires n <= |lines| && RowsInLegend(lines, n)
    ensures |rows| == n
    decreases n
  {
    if n == 0 then []
    else
      var line := lines[n - 1];
      assert LineInLegend(line);
      Grid(lines, n - 1) + [CellsOf(line)]
  }

  /** Row y of the grid is what the legend makes of line y. */
  lemma {:induction false} GridRows(lines: seq<string>, n: nat, y: nat)
    requires n <= |lines| && RowsInLegend(lines, n) && y < n
    ensures LineInLegend(lines[y]) && RowOf(Grid(lines, n)[y], lines[y])
    decreases n
  {
    if y < n - 1 {
      GridRows(lines, n - 1, y);
    }
  }

  /** The grid and actor list that the constructor builds from the lines. */
  predicate Describes(level: Level, lines: seq<string>, wobble: (int, int) -> real)
    requires RowsInLegend(lines, |lines|)
  {
    && level.Height() == |lines|
    && level.Width() == |lines[0]|
    && (forall y :: 0 <= y < |lines| ==> RowOf(level.rows[y], lines[y]))
    && level.actors == Spawns(lines, |lines|, wobble)
  }

  /** `e` names the first character of the lines, in row-major order,
      that is not in the legend. */
  predicate FirstUnknown(lines: seq<string>, e: ParseError) {
    && e.y < |lines| && e.x < |lines[e.y]| && lines[e.y][e.x] == e.ch && e.ch !in LevelChars
    && RowsInLegend(lines, e.y) && LineInLegend(lines[e.y][..e.x])
  }

  /** `rows.map((row, y) => ...)`: maps every row through `ParseRow`, so
      that the actors are pushed in row-major order; fails at the first
      character outside the legend. */
  method ParseRows(lines: seq<string>, wobble: (int, int) -> real)
    returns (r: Result<(seq<seq<Cell>>, seq<Actor>), ParseError>)
    ensures r.Ok? <==> RowsInLegend(lines, |lines|)
    ensures r.Ok? ==> r.value.0 == Grid(lines, |lines|) && r.value.1 == Spawns(lines, |lines|, wobble)
    ensures r.Err? ==> FirstUnknown(lines, r.error)
  {
    var rows: seq<seq<Cell>> := [];
    var actors: seq<Actor> := [];
    var y := 0;
    while y < |lines|
      invariant 0 <= y <= |lines|
      invariant RowsInLegend(lines, y)
      invariant rows == Grid(lines, y)
      invariant actors == Spawns(lines, y, wobble)
    {
      var row := ParseRow(lines[y], y, wobble, actors);
      if row.Err? {
        return Err(row.error);
      }
      assert Spawns(lines, y + 1, wobble) == actors + RowSpawns(lines[y], y, |lines[y]|, wobble);
      assert Grid(lines, y + 1) == rows + [row.value.0];
      rows := rows + [row.value.0];
      actors := row.value.1;
      y := y + 1;
    }
    r := Ok((rows, actors));
  }

  /** `new Level(text)`: the grid has one row per line of the trimmed
      text, with `"empty"` under every actor, and the actors are spawned
      in row-major order. The first character outside the legend makes the
      constructor throw, which is the error result. */
  method ParseLevel(text: string, wobble: (int, int) -> real) returns (r: Result<Level, ParseError>)
    ensures r.Ok? <==> RowsInLegend(Lines(text), |Lines(text)|)
    ensures r.Ok? ==> Describes(r.value, Lines(text), wobble)
    ensures r.Err? ==> FirstUnknown(Lines(text), r.error)
  {
    var lines := Lines(text);
    var parsed := ParseRows(lines, wobble);
    if parsed.Err? {
      return Err(parsed.error);
    }
    var (rows, actors) := parsed.value;
    forall y | 0 <= y < |lines|
      ensures RowOf(rows[y], lines[y])
    {
      GridRows(lines, |lines|, y);
    }
    r := Ok(Level(rows, actors));
  }

  // ---------------------------------------------------------------------
  // Properties of parsing

  /** The character stands for an actor class in the legend. */
  predicate IsMarker(ch: char) {
    ch in LevelChars && LevelChars[ch].Spawner?
  }

  /** The number of actor characters in a line, counted from the front. */
  function Markers(line: string): nat
    decreases |line|
  {
    if |line| == 0 then 0 else (if IsMarker(line[0]) then 1 else 0) + Markers(line[1..])
  }

  /** Counting a line extended by one character. */
  lemma {:induction false} MarkersSnoc(line: string, ch: char)
    ensures Markers(line + [ch]) == Markers(line) + (if IsMarker(ch) then 1 else 0)
    decreases |line|
  {
    if |line| == 0 {
      assert line + [ch] == [ch];
      assert [ch][1..] == [];
    } else {
      MarkersSnoc(line[1..], ch);
      assert (line + [ch])[1..] == line[1..] + [ch];
    }
  }

  /** Mapping the first n characters of a row pushes exactly one actor per
      actor character among them. */
  lemma {:induction false} RowSpawnsCount(line: string, y: nat, n: nat, wobble: (int, int) -> real)
    requires n <= |line| && LineInLegend(line)
    ensures |RowSpawns(line, y, n, wobble)| == Markers(line[..n])
    decreases n
  {
    if n > 0 {
      RowSpawnsCount(line, y, n - 1, wobble);
      MarkersSnoc(line[..n - 1], line[n - 1]);
      assert line[..n - 1] + [line[n - 1]] == line[..n];
    }
  }

  /** The number of actor characters in the first n lines. */
  function TotalMarkers(lines: seq<string>, n: nat): nat
    requires n <= |lines|
    decreases n
  {
    if n == 0 then 0 else TotalMarkers(lines, n - 1) + Markers(lines[n - 1])
  }

  /** A parsed level holds exactly one actor per actor character. */
  lemma {:induction false} SpawnsCount(lines: seq<string>, n: nat, wobble: (int, int) -> real)
    requires n <= |lines| && RowsInLegend(lines, n)
    ensures |Spawns(lines, n, wobble)| == TotalMarkers(lines, n)
    decreases n
  {
    if n > 0 {
      SpawnsCount(lines, n - 1, wobble);
      var line := lines[n - 1];
      assert LineInLegend(line);
      RowSpawnsCount(line, n - 1, |line|, wobble);
      assert line[..|line|] == line;
    }
  }

  /** An `'@'` at column x of row y spawns a player at (x, y - 1.5) at
      rest, among the actors of the first n > x characters of the row. */
  lemma {:induction false} RowSpawnsPlayer(line: string, y: nat, n: nat, wobble: (int, int) -> real, x: nat)
    requires x < n <= |line| && LineInLegend(line) && line[x] == '@'
    ensures PlayerCreate(Vec(x as real, y as real)) in RowSpawns(line, y, n, wobble)
    decreases n
  {
    if n - 1 > x {
      RowSpawnsPlayer(line, y, n - 1, wobble, x);
    }
  }

  /** A level text with an `'@'` parses to an actor list that holds a
      player, spawned at (x, y - 1.5) at rest. */
  lemma {:induction false} SpawnsPlayer(lines: seq<string>, n: nat, wobble: (int, int) -> real, x: nat, y: nat)
    requires n <= |lines| && RowsInLegend(lines, n)
    requires y < n && x < |lines[y]| && lines[y][x] == '@'
    ensures PlayerCreate(Vec(x as real, y as real)) in Spawns(lines, n, wobble)
    ensures HasPlayer(Spawns(lines, n, wobble))
    decreases n
  {
    var actors := Spawns(lines, n, wobble);
    assert LineInLegend(lines[n - 1]);
    assert actors == Spawns(lines, n - 1, wobble) + RowSpawns(lines[n - 1], n - 1, |lines[n - 1]|, wobble);
    if n - 1 > y {
      SpawnsPlayer(lines, n - 1, wobble, x, y);
    } else {
      assert LineInLegend(lines[y]);
      RowSpawnsPlayer(lines[y], y, |lines[y]|, wobble, x);
    }
    var born := PlayerCreate(Vec(x as real, y as real));
    assert born in actors;
    var i :| 0 <= i < |actors| && actors[i] == born;
    assert actors[i].Player?;
  }

  /** In a parsed level every actor character leaves an `"empty"` cell, and
      every other character leaves its own cell kind. */
  lemma ParsedCells(level: Level, lines: seq<string>, wobble: (int, int) -> real, x: nat, y: nat)
    requires RowsInLegend(lines, |lines|) && Describes(level, lines, wobble)
    requires y < |lines| && x < |lines[y]|
    ensures x < |level.rows[y]|
    ensures IsMarker(lines[y][x]) ==> level.rows[y][x] == Empty
    ensures !IsMarker(lines[y][x]) ==> Terrain(level.rows[y][x]) == LevelChars[lines[y][x]]
  {
    assert LineInLegend(lines[y]);
    assert RowOf(level.rows[y], lines[y]);
  }
}
