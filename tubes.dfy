// A series of tubes: a packet follows the lines of a routing diagram, starting at the only
// `|` on the top row and heading down, turning at corners, collecting the letters it passes
// and counting the cells it visits.

module Tubes {
  import opened Common

  /** The diagram, one string per line. */
  type Diagram = seq<string>

  /** A cell as (row, column). */
  type Position = (int, int)

  /** The heading of the packet; the source numbers them 0 down, 1 left, 2 up, 3 right. */
  datatype Direction = Down | Left | Up | Right

  /** Every row as wide as the first one; the source indexes rows and columns without
      re-checking the width of the row it moves into. */
  predicate Rectangular(lines: Diagram)
  {
    |lines| > 0 && forall r :: 0 <= r < |lines| ==> |lines[r]| == |lines[0]|
  }

  predicate InBounds(lines: Diagram, p: Position)
  {
    0 <= p.0 < |lines| && 0 <= p.1 < |lines[p.0]|
  }

  /** A cell the packet may stand on: inside the diagram and not blank. */
  predicate Open(lines: Diagram, p: Position)
  {
    InBounds(lines, p) && lines[p.0][p.1] != ' '
  }

  /** The character at a cell (`get_character`). */
  function Cell(lines: Diagram, p: Position): (c: char)
    requires InBounds(lines, p)
    ensures Open(lines, p) <==> c != ' '
  {
    lines[p.0][p.1]
  }

  /** The cell one step away in direction `d`. */
  function Neighbour(p: Position, d: Direction): Position
  {
    match d
    case Down => (p.0 + 1, p.1)
    case Left => (p.0, p.1 - 1)
    case Up => (p.0 - 1, p.1)
    case Right => (p.0, p.1 + 1)
  }

  predicate Vertical(d: Direction)
  {
    d == Down || d == Up
  }

  function Opposite(d: Direction): Direction
  {
    match d
    case Down => Up
    case Up => Down
    case Left => Right
    case Right => Left
  }

  /** The first index of `x` in `s` (`str.index`). */
  function FirstIndex(s: string, x: char): (i: nat)
    requires x in s
    ensures i < |s| && s[i] == x && x !in s[..i]
  {
    if s[0] == x then 0 else 1 + FirstIndex(s[1..], x)
  }

  /** What the packet's state is made of: position, heading and the cells counted so far. */
  datatype Walker = Walker(pos: Position, direction: Direction, steps: nat)

  /** The state a diagram starts in: top row, at the first `|`, heading down, one step. */
  function Start(lines: Diagram): (w: Walker)
    requires |lines| > 0 && '|' in lines[0]
    ensures InBounds(lines, w.pos) && w.pos.0 == 0 && Cell(lines, w.pos) == '|' && '|' !in lines[0][..w.pos.1]
    ensures w.direction == Down && w.steps == 1
  {
    Walker((0, FirstIndex(lines[0], '|')), Down, 1)
  }

  /** The test `move` makes on the cell ahead, written out as the source writes it. */
  predicate Blocked(lines: Diagram, w: Walker)
    requires Rectangular(lines) && InBounds(lines, w.pos)
  {
    var q := Neighbour(w.pos, w.direction);
    q.0 < 0 || q.0 == |lines| || q.1 < 0 || q.1 == |lines[q.0]| || Cell(lines, q) == ' '
  }

  lemma BlockedIsClosed(lines: Diagram, w: Walker)
    requires Rectangular(lines) && InBounds(lines, w.pos)
    ensures Blocked(lines, w) <==> !Open(lines, Neighbour(w.pos, w.direction))
  {
  }

  /** `change_direction`: a vertical packet tries left, then right; a horizontal one tries
      up, then down; None when neither side is open. */
  function Turn(lines: Diagram, w: Walker): Option<Direction>
    requires Rectangular(lines) && InBounds(lines, w.pos)
  {
    var (r, c) := w.pos;
    if Vertical(w.direction) then
      if c > 0 && Cell(lines, (r, c - 1)) != ' ' then Some(Left)
      else if c + 1 < |lines[r]| && Cell(lines, (r, c + 1)) != ' ' then Some(Right)
      else None
    else
      if r > 0 && Cell(lines, (r - 1, c)) != ' ' then Some(Up)
      else if r + 1 < |lines| && Cell(lines, (r + 1, c)) != ' ' then Some(Down)
      else None
  }

  /** A turn goes to a side cell that is open, never straight on or back, and the first
      side in the source's order wins; no turn only when both sides are closed. */
  lemma TurnChoice(lines: Diagram, w: Walker)
    requires Rectangular(lines) && InBounds(lines, w.pos)
    ensures Turn(lines, w).Some? ==>
      var d := Turn(lines, w).value;
      Vertical(d) != Vertical(w.direction) && Open(lines, Neighbour(w.pos, d))
    ensures Turn(lines, w) == Some(Right) ==> !Open(lines, Neighbour(w.pos, Left))
    ensures Turn(lines, w) == Some(Down) ==> !Open(lines, Neighbour(w.pos, Up))
    ensures Turn(lines, w).None? <==>
      if Vertical(w.direction) then
        !Open(lines, Neighbour(w.pos, Left)) && !Open(lines, Neighbour(w.pos, Right))
      else
        !Open(lines, Neighbour(w.pos, Up)) && !Open(lines, Neighbour(w.pos, Down))
  {
  }

  /** `move`: step ahead when the cell ahead is open; otherwise turn and try again (the
      retry cannot be blocked, since a turn only picks an open side), or stop. */
  function Step(lines: Diagram, w: Walker): Option<Walker>
    requires Rectangular(lines) && InBounds(lines, w.pos)
    decreases if Blocked(lines, w) then 1 else 0
  {
    if Blocked(lines, w) then
      match Turn(lines, w)
      case None => None
      case Some(d) =>
        TurnChoice(lines, w);
        Step(lines, w.(direction := d))
    else
      Some(Walker(Neighbour(w.pos, w.direction), w.direction, w.steps + 1))
  }

  /** A move lands on the open neighbour in its new heading and counts one step; it keeps
      the heading exactly when the cell ahead was open, turns a quarter otherwise, and
      never reverses. It stops exactly when ahead and both sides are closed. */
  lemma StepMoves(lines: Diagram, w: Walker)
    requires Rectangular(lines) && InBounds(lines, w.pos)
    ensures Step(lines, w).Some? ==>
      var n := Step(lines, w).value;
      n.pos == Neighbour(w.pos, n.direction) && Open(lines, n.pos) && n.steps == w.steps + 1 &&
      (n.direction == w.direction <==> Open(lines, Neighbour(w.pos, w.direction))) &&
      (n.direction != w.direction ==> Vertical(n.direction) != Vertical(w.direction)) &&
      n.direction != Opposite(w.direction)
    ensures Step(lines, w).None? <==>
      !Open(lines, Neighbour(w.pos, w.direction)) && Turn(lines, w).None?
  {
    BlockedIsClosed(lines, w);
    TurnChoice(lines, w);
    if Blocked(lines, w) && Turn(lines, w).Some? {
      BlockedIsClosed(lines, w.(direction := Turn(lines, w).value));
    }
  }

  /** Adds the characters `seen` before a trace. */
  function Continue(seen: seq<char>, t: Option<(seq<char>, Walker)>): Option<(seq<char>, Walker)>
  {
    if t.None? then None else Some((seen + t.value.0, t.value.1))
  }

  /** The characters of the cells the packet lands on, in order, and the state it stops
      in; None when it has not stopped within `fuel` moves. */
  function Trace(lines: Diagram, w: Walker, fuel: nat): Option<(seq<char>, Walker)>
    requires Rectangular(lines) && InBounds(lines, w.pos)
    decreases fuel
  {
    if fuel == 0 then None
    else
      match Step(lines, w)
      case None => Some(([], w))
      case Some(n) =>
        StepMoves(lines, w);
        Continue([Cell(lines, n.pos)], Trace(lines, n, fuel - 1))
  }

  /** One move of a trace: it ends when `Step` stops, and otherwise continues from the
      cell landed on. */
  lemma TraceUnfold(lines: Diagram, w: Walker, fuel: nat)
    requires Rectangular(lines) && InBounds(lines, w.pos) && fuel > 0
    ensures Step(lines, w).None? ==> Trace(lines, w, fuel) == Some(([], w))
    ensures Step(lines, w).Some? ==>
      var n := Step(lines, w).value;
      InBounds(lines, n.pos) &&
      Trace(lines, w, fuel) == Continue([Cell(lines, n.pos)], Trace(lines, n, fuel - 1))
  {
    StepMoves(lines, w);
  }

  lemma ContinueAppend(seen: seq<char>, xs: seq<char>, t: Option<(seq<char>, Walker)>)
    ensures Continue(seen, Continue(xs, t)) == Continue(seen + xs, t)
    ensures Continue([], t) == t
  {
    if t.Some? {
      assert seen + (xs + t.value.0) == (seen + xs) + t.value.0;
      assert [] + t.value.0 == t.value.0;
    }
  }

  /** A finished trace ends where no move is possible, every character in it is a line
      or a letter (never blank), and the step count grows by one per character. */
  lemma {:induction false} TraceEnds(lines: Diagram, w: Walker, fuel: nat)
    requires Rectangular(lines) && InBounds(lines, w.pos)
    ensures Trace(lines, w, fuel).Some? ==>
      var (cs, last) := Trace(lines, w, fuel).value;
      InBounds(lines, last.pos) && Step(lines, last).None? &&
      last.steps == w.steps + |cs| && |cs| < fuel && ' ' !in cs
    decreases fuel
  {
    if fuel > 0 {
      StepMoves(lines, w);
      match Step(lines, w)
      case None =>
      case Some(n) =>
        TraceEnds(lines, n, fuel - 1);
    }
  }

  /** More fuel never changes a finished trace. */
  lemma {:induction false} TraceFuelMonotone(lines: Diagram, w: Walker, fuel: nat, more: nat)
    requires Rectangular(lines) && InBounds(lines, w.pos)
    requires Trace(lines, w, fuel).Some? && fuel <= more
    ensures Trace(lines, w, more) == Trace(lines, w, fuel)
    decreases fuel
  {
    match Step(lines, w)
    case None =>
    case Some(n) =>
      StepMoves(lines, w);
      TraceFuelMonotone(lines, n, fuel - 1, more - 1);
  }

  /** The character at a cell, blank outside the diagram. */
  function CellOr(lines: Diagram, p: Position): char
  {
    if InBounds(lines, p) then lines[p.0][p.1] else ' '
  }

  /** The characters of the `k` cells straight ahead of `p` in direction `d`. */
  function Ahead(lines: Diagram, p: Position, d: Direction, k: nat): seq<char>
    decreases k
  {
    if k == 0 then [] else [CellOr(lines, Neighbour(p, d))] + Ahead(lines, Neighbour(p, d), d, k - 1)
  }

  /** The cell `k` steps from `p` in direction `d`. */
  function Reach(p: Position, d: Direction, k: nat): Position
    decreases k
  {
    if k == 0 then p else Reach(Neighbour(p, d), d, k - 1)
  }

  /** While the cells ahead are open the packet goes straight, one step per cell, and
      ends up `k` cells on with `k` more steps counted. */
  lemma {:induction false} Straight(lines: Diagram, w: Walker, k: nat, fuel: nat, last: Walker, left: nat)
    requires Rectangular(lines) && InBounds(lines, w.pos) && k <= fuel && left == fuel - k
    requires ' ' !in Ahead(lines, w.pos, w.direction, k)
    requires last == Walker(Reach(w.pos, w.direction, k), w.direction, w.steps + k)
    ensures InBounds(lines, last.pos)
    ensures Trace(lines, w, fuel) == Continue(Ahead(lines, w.pos, w.direction, k), Trace(lines, last, left))
    decreases k
  {
    if k == 0 {
      ContinueAppend([], [], Trace(lines, w, fuel));
    } else {
      var q := Neighbour(w.pos, w.direction);
      var n := Walker(q, w.direction, w.steps + 1);
      var rest := Ahead(lines, q, w.direction, k - 1);
      StraightStep(lines, w, fuel);
      var c := Cell(lines, q);
      assert Ahead(lines, w.pos, w.direction, k) == [c] + rest;
      Straight(lines, n, k - 1, fuel - 1, last, left);
      ContinueAppend([c], rest, Trace(lines, last, left));
    }
  }

  /** One step onto the open cell ahead. */
  lemma StraightStep(lines: Diagram, w: Walker, fuel: nat)
    requires Rectangular(lines) && InBounds(lines, w.pos) && 0 < fuel
    requires CellOr(lines, Neighbour(w.pos, w.direction)) != ' '
    ensures InBounds(lines, Neighbour(w.pos, w.direction))
    ensures Trace(lines, w, fuel) ==
      Continue([Cell(lines, Neighbour(w.pos, w.direction))],
               Trace(lines, Walker(Neighbour(w.pos, w.direction), w.direction, w.steps + 1), fuel - 1))
  {
    BlockedIsClosed(lines, w);
    TraceUnfold(lines, w, fuel);
  }

  /** At a blocked corner the packet turns and then goes straight. */
  lemma Corner(lines: Diagram, w: Walker, d: Direction, k: nat, fuel: nat, last: Walker, left: nat)
    requires Rectangular(lines) && InBounds(lines, w.pos) && 0 < k <= fuel && left == fuel - k
    requires Blocked(lines, w) && Turn(lines, w) == Some(d)
    requires ' ' !in Ahead(lines, w.pos, d, k)
    requires last == Walker(Reach(w.pos, d, k), d, w.steps + k)
    ensures InBounds(lines, last.pos)
    ensures Trace(lines, w, fuel) == Continue(Ahead(lines, w.pos, d, k), Trace(lines, last, left))
  {
    var t := w.(direction := d);
    assert Step(lines, w) == Step(lines, t);
    TraceUnfold(lines, w, fuel);
    TraceUnfold(lines, t, fuel);
    Straight(lines, t, k, fuel, last, left);
  }

  /** The text `go` collects: every character except the line pieces `|`, `-` and `+`. */
  function Letters(cs: seq<char>): seq<char>
  {
    if cs == [] then []
    else if cs[0] == '|' || cs[0] == '-' || cs[0] == '+' then Letters(cs[1..])
    else [cs[0]] + Letters(cs[1..])
  }

  lemma {:induction false} LettersAppend(xs: seq<char>, ys: seq<char>)
    ensures Letters(xs + ys) == Letters(xs) + Letters(ys)
  {
    if xs == [] {
      assert xs + ys == ys;
    } else {
      assert (xs + ys)[1..] == xs[1..] + ys;
      LettersAppend(xs[1..], ys);
    }
  }

  /** Only characters of the path are kept, and never a line piece. */
  lemma {:induction false} LettersDrop(cs: seq<char>)
    ensures |Letters(cs)| <= |cs|
    ensures forall x :: x in Letters(cs) ==> x in cs && x != '|' && x != '-' && x != '+'
  {
    if cs != [] {
      LettersDrop(cs[1..]);
    }
  }

  /** Every character that is not a line piece is kept. */
  lemma {:induction false} LettersKeep(cs: seq<char>, x: char)
    requires x in cs && x != '|' && x != '-' && x != '+'
    ensures x in Letters(cs)
  {
    if cs[0] != x {
      LettersKeep(cs[1..], x);
    }
  }

  /** The routing diagram of the puzzle's example, row by row. */
  predicate IsExample(lines: Diagram)
  {
    |lines| == 6 &&
    lines[0] == "     |          " &&
    lines[1] == "     |  +--+    " &&
    lines[2] == "     A  |  C    " &&
    lines[3] == " F---|--|-E---+ " &&
    lines[4] == "     |  |  |  D " &&
    lines[5] == "     +B-+  +--+ "
  }

  /** The same diagram cell by cell, one predicate per row. */
  predicate ExampleCells(lines: Diagram)
  {
    |lines| == 6 && Row0(lines[0]) && Row1(lines[1]) && Row2(lines[2]) &&
    Row3(lines[3]) && Row4(lines[4]) && Row5(lines[5])
  }

  predicate Row0(row: string)
  {
    |row| == 16 &&
    row[0] == ' ' && row[1] == ' ' && row[2] == ' ' && row[3] == ' ' &&
    row[4] == ' ' && row[5] == '|' && row[6] == ' ' && row[7] == ' ' &&
    row[8] == ' ' && row[9] == ' ' && row[10] == ' ' && row[11] == ' ' &&
    row[12] == ' ' && row[13] == ' ' && row[14] == ' ' && row[15] == ' '
  }

  predicate Row1(row: string)
  {
    |row| == 16 &&
    row[0] == ' ' && row[1] == ' ' && row[2] == ' ' && row[3] == ' ' &&
    row[4] == ' ' && row[5] == '|' && row[6] == ' ' && row[7] == ' ' &&
    row[8] == '+' && row[9] == '-' && row[10] == '-' && row[11] == '+' &&
    row[12] == ' ' && row[13] == ' ' && row[14] == ' ' && row[15] == ' '
  }

  predicate Row2(row: string)
  {
    |row| == 16 &&
    row[0] == ' ' && row[1] == ' ' && row[2] == ' ' && row[3] == ' ' &&
    row[4] == ' ' && row[5] == 'A' && row[6] == ' ' && row[7] == ' ' &&
    row[8] == '|' && row[9] == ' ' && row[10] == ' ' && row[11] == 'C' &&
    row[12] == ' ' && row[13] == ' ' && row[14] == ' ' && row[15] == ' '
  }

  predicate Row3(row: string)
  {
    |row| == 16 &&
    row[0] == ' ' && row[1] == 'F' && row[2] == '-' && row[3] == '-' &&
    row[4] == '-' && row[5] == '|' && row[6] == '-' && row[7] == '-' &&
    row[8] == '|' && row[9] == '-' && row[10] == 'E' && row[11] == '-' &&
    row[12] == '-' && row[13] == '-' && row[14] == '+' && row[15] == ' '
  }

  predicate Row4(row: string)
  {
    |row| == 16 &&
    row[0] == ' ' && row[1] == ' ' && row[2] == ' ' && row[3] == ' ' &&
    row[4] == ' ' && row[5] == '|' && row[6] == ' ' && row[7] == ' ' &&
    row[8] == '|' && row[9] == ' ' && row[10] == ' ' && row[11] == '|' &&
    row[12] == ' ' && row[13] == ' ' && row[14] == 'D' && row[15] == ' '
  }

  predicate Row5(row: string)
  {
    |row| == 16 &&
    row[0] == ' ' && row[1] == ' ' && row[2] == ' ' && row[3] == ' ' &&
    row[4] == ' ' && row[5] == '+' && row[6] == 'B' && row[7] == '-' &&
    row[8] == '+' && row[9] == ' ' && row[10] == ' ' && row[11] == '+' &&
    row[12] == '-' && row[13] == '-' && row[14] == '+' && row[15] == ' '
  }

  lemma Row0Cells(row: string)
    requires row == "     |          "
    ensures Row0(row)
  {
  }

  lemma Row1Cells(row: string)
    requires row == "     |  +--+    "
    ensures Row1(row)
  {
  }

  lemma Row2Cells(row: string)
    requires row == "     A  |  C    "
    ensures Row2(row)
  {
  }

  lemma Row3Cells(row: string)
    requires row == " F---|--|-E---+ "
    ensures Row3(row)
  {
  }

  lemma Row4Cells(row: string)
    requires row == "     |  |  |  D "
    ensures Row4(row)
  {
  }

  lemma Row5Cells(row: string)
    requires row == "     +B-+  +--+ "
    ensures Row5(row)
  {
  }

  lemma ExampleHasCells(lines: Diagram)
    requires IsExample(lines)
    ensures ExampleCells(lines)
  {
    Row0Cells(lines[0]);
    Row1Cells(lines[1]);
    Row2Cells(lines[2]);
    Row3Cells(lines[3]);
    Row4Cells(lines[4]);
    Row5Cells(lines[5]);
  }

  lemma ExampleRectangular(lines: Diagram)
    requires ExampleCells(lines)
    ensures Rectangular(lines) && '|' in lines[0] && FirstIndex(lines[0], '|') == 5
  {
    assert lines[0][5] == '|';
    assert lines[0][..5] == "     ";
  }

  lemma ExampleLeg1(lines: Diagram, fuel: nat)
    requires ExampleCells(lines) && 5 <= fuel
    ensures Rectangular(lines) && InBounds(lines, Walker((0, 5), Down, 1).pos)
    ensures Trace(lines, Walker((0, 5), Down, 1), fuel) ==
      Continue("|A||+", Trace(lines, Walker((5, 5), Down, 6), fuel - 5))
  {
    ExampleRectangular(lines);
    assert Ahead(lines, (4, 5), Down, 1) == "+";
    assert Ahead(lines, (3, 5), Down, 2) == "|+";
    assert Ahead(lines, (2, 5), Down, 3) == "||+";
    assert Ahead(lines, (1, 5), Down, 4) == "A||+";
    assert Ahead(lines, (0, 5), Down, 5) == "|A||+";
    Straight(lines, Walker((0, 5), Down, 1), 5, fuel, Walker((5, 5), Down, 6), fuel - 5);
  }

  lemma ExampleLeg2(lines: Diagram, fuel: nat)
    requires ExampleCells(lines) && 3 <= fuel
    ensures Rectangular(lines) && InBounds(lines, Walker((5, 5), Down, 6).pos)
    ensures Trace(lines, Walker((5, 5), Down, 6), fuel) ==
      Continue("B-+", Trace(lines, Walker((5, 8), Right, 9), fuel - 3))
  {
    ExampleRectangular(lines);
    assert Ahead(lines, (5, 7), Right, 1) == "+";
    assert Ahead(lines, (5, 6), Right, 2) == "-+";
    assert Ahead(lines, (5, 5), Right, 3) == "B-+";
    assert Blocked(lines, Walker((5, 5), Down, 6));
    assert Turn(lines, Walker((5, 5), Down, 6)) == Some(Right);
    Corner(lines, Walker((5, 5), Down, 6), Right, 3, fuel, Walker((5, 8), Right, 9), fuel - 3);
  }

  lemma ExampleLeg3(lines: Diagram, fuel: nat)
    requires ExampleCells(lines) && 4 <= fuel
    ensures Rectangular(lines) && InBounds(lines, Walker((5, 8), Right, 9).pos)
    ensures Trace(lines, Walker((5, 8), Right, 9), fuel) ==
      Continue("|||+", Trace(lines, Walker((1, 8), Up, 13), fuel - 4))
  {
    ExampleRectangular(lines);
    assert Ahead(lines, (2, 8), Up, 1) == "+";
    assert Ahead(lines, (3, 8), Up, 2) == "|+";
    assert Ahead(lines, (4, 8), Up, 3) == "||+";
    assert Ahead(lines, (5, 8), Up, 4) == "|||+";
    assert Blocked(lines, Walker((5, 8), Right, 9));
    assert Turn(lines, Walker((5, 8), Right, 9)) == Some(Up);
    Corner(lines, Walker((5, 8), Right, 9), Up, 4, fuel, Walker((1, 8), Up, 13), fuel - 4);
  }

  lemma ExampleLeg4(lines: Diagram, fuel: nat)
    requires ExampleCells(lines) && 3 <= fuel
    ensures Rectangular(lines) && InBounds(lines, Walker((1, 8), Up, 13).pos)
    ensures Trace(lines, Walker((1, 8), Up, 13), fuel) ==
      Continue("--+", Trace(lines, Walker((1, 11), Right, 16), fuel - 3))
  {
    ExampleRectangular(lines);
    assert Ahead(lines, (1, 10), Right, 1) == "+";
    assert Ahead(lines, (1, 9), Right, 2) == "-+";
    assert Ahead(lines, (1, 8), Right, 3) == "--+";
    assert Blocked(lines, Walker((1, 8), Up, 13));
    assert Turn(lines, Walker((1, 8), Up, 13)) == Some(Right);
    Corner(lines, Walker((1, 8), Up, 13), Right, 3, fuel, Walker((1, 11), Right, 16), fuel - 3);
  }

  lemma ExampleLeg5(lines: Diagram, fuel: nat)
    requires ExampleCells(lines) && 4 <= fuel
    ensures Rectangular(lines) && InBounds(lines, Walker((1, 11), Right, 16).pos)
    ensures Trace(lines, Walker((1, 11), Right, 16), fuel) ==
      Continue("C-|+", Trace(lines, Walker((5, 11), Down, 20), fuel - 4))
  {
    ExampleRectangular(lines);
    assert Ahead(lines, (4, 11), Down, 1) == "+";
    assert Ahead(lines, (3, 11), Down, 2) == "|+";
    assert Ahead(lines, (2, 11), Down, 3) == "-|+";
    assert Ahead(lines, (1, 11), Down, 4) == "C-|+";
    assert Blocked(lines, Walker((1, 11), Right, 16));
    assert Turn(lines, Walker((1, 11), Right, 16)) == Some(Down);
    Corner(lines, Walker((1, 11), Right, 16), Down, 4, fuel, Walker((5, 11), Down, 20), fuel - 4);
  }

  lemma ExampleLeg6(lines: Diagram, fuel: nat)
    requires ExampleCells(lines) && 3 <= fuel
    ensures Rectangular(lines) && InBounds(lines, Walker((5, 11), Down, 20).pos)
    ensures Trace(lines, Walker((5, 11), Down, 20), fuel) ==
      Continue("--+", Trace(lines, Walker((5, 14), Right, 23), fuel - 3))
  {
    ExampleRectangular(lines);
    assert Ahead(lines, (5, 13), Right, 1) == "+";
    assert Ahead(lines, (5, 12), Right, 2) == "-+";
    assert Ahead(lines, (5, 11), Right, 3) == "--+";
    assert Blocked(lines, Walker((5, 11), Down, 20));
    assert Turn(lines, Walker((5, 11), Down, 20)) == Some(Right);
    Corner(lines, Walker((5, 11), Down, 20), Right, 3, fuel, Walker((5, 14), Right, 23), fuel - 3);
  }

  lemma ExampleLeg7(lines: Diagram, fuel: nat)
    requires ExampleCells(lines) && 2 <= fuel
    ensures Rectangular(lines) && InBounds(lines, Walker((5, 14), Right, 23).pos)
    ensures Trace(lines, Walker((5, 14), Right, 23), fuel) ==
      Continue("D+", Trace(lines, Walker((3, 14), Up, 25), fuel - 2))
  {
    ExampleRectangular(lines);
    assert Ahead(lines, (4, 14), Up, 1) == "+";
    assert Ahead(lines, (5, 14), Up, 2) == "D+";
    assert Blocked(lines, Walker((5, 14), Right, 23));
    assert Turn(lines, Walker((5, 14), Right, 23)) == Some(Up);
    Corner(lines, Walker((5, 14), Right, 23), Up, 2, fuel, Walker((3, 14), Up, 25), fuel - 2);
  }

  lemma ExampleLeg8(lines: Diagram, fuel: nat)
    requires ExampleCells(lines) && 3 <= fuel
    ensures Rectangular(lines) && InBounds(lines, Walker((3, 14), Up, 25).pos)
    ensures Trace(lines, Walker((3, 14), Up, 25), fuel) ==
      Continue("---", Trace(lines, Walker((3, 11), Left, 28), fuel - 3))
  {
    ExampleRectangular(lines);
    assert Ahead(lines, (3, 12), Left, 1) == "-";
    assert Ahead(lines, (3, 13), Left, 2) == "--";
    assert Ahead(lines, (3, 14), Left, 3) == "---";
    assert Blocked(lines, Walker((3, 14), Up, 25));
    assert Turn(lines, Walker((3, 14), Up, 25)) == Some(Left);
    Corner(lines, Walker((3, 14), Up, 25), Left, 3, fuel, Walker((3, 11), Left, 28), fuel - 3);
  }

  lemma ExampleLeg9(lines: Diagram, fuel: nat)
    requires ExampleCells(lines) && 4 <= fuel
    ensures Rectangular(lines) && InBounds(lines, Walker((3, 11), Left, 28).pos)
    ensures Trace(lines, Walker((3, 11), Left, 28), fuel) ==
      Continue("E-|-", Trace(lines, Walker((3, 7), Left, 32), fuel - 4))
  {
    ExampleRectangular(lines);
    assert Ahead(lines, (3, 8), Left, 1) == "-";
    assert Ahead(lines, (3, 9), Left, 2) == "|-";
    assert Ahead(lines, (3, 10), Left, 3) == "-|-";
    assert Ahead(lines, (3, 11), Left, 4) == "E-|-";
    Straight(lines, Walker((3, 11), Left, 28), 4, fuel, Walker((3, 7), Left, 32), fuel - 4);
  }

  lemma ExampleLeg10(lines: Diagram, fuel: nat)
    requires ExampleCells(lines) && 3 <= fuel
    ensures Rectangular(lines) && InBounds(lines, Walker((3, 7), Left, 32).pos)
    ensures Trace(lines, Walker((3, 7), Left, 32), fuel) ==
      Continue("-|-", Trace(lines, Walker((3, 4), Left, 35), fuel - 3))
  {
    ExampleRectangular(lines);
    assert Ahead(lines, (3, 5), Left, 1) == "-";
    assert Ahead(lines, (3, 6), Left, 2) == "|-";
    assert Ahead(lines, (3, 7), Left, 3) == "-|-";
    Straight(lines, Walker((3, 7), Left, 32), 3, fuel, Walker((3, 4), Left, 35), fuel - 3);
  }

  lemma ExampleLeg11(lines: Diagram, fuel: nat)
    requires ExampleCells(lines) && 3 <= fuel
    ensures Rectangular(lines) && InBounds(lines, Walker((3, 4), Left, 35).pos)
    ensures Trace(lines, Walker((3, 4), Left, 35), fuel) ==
      Continue("--F", Trace(lines, Walker((3, 1), Left, 38), fuel - 3))
  {
    ExampleRectangular(lines);
    assert Ahead(lines, (3, 2), Left, 1) == "F";
    assert Ahead(lines, (3, 3), Left, 2) == "-F";
    assert Ahead(lines, (3, 4), Left, 3) == "--F";
    Straight(lines, Walker((3, 4), Left, 35), 3, fuel, Walker((3, 1), Left, 38), fuel - 3);
  }

  /** The path ends at F, next to nothing open. */
  lemma ExampleEnd(lines: Diagram, fuel: nat)
    requires ExampleCells(lines) && 0 < fuel
    ensures Rectangular(lines) && InBounds(lines, (3, 1))
    ensures Trace(lines, Walker((3, 1), Left, 38), fuel) == Some(([], Walker((3, 1), Left, 38)))
  {
    ExampleRectangular(lines);
    var w := Walker((3, 1), Left, 38);
    assert Blocked(lines, w);
    assert Turn(lines, w).None?;
    TraceUnfold(lines, w, fuel);
  }

  /** From the top to the upper right corner. */
  lemma ExampleOutward(lines: Diagram, fuel: nat)
    requires ExampleCells(lines) && 15 <= fuel
    ensures Rectangular(lines)
    ensures Trace(lines, Walker((0, 5), Down, 1), fuel) ==
      Continue("|A||+" + ("B-+" + ("|||+" + "--+")), Trace(lines, Walker((1, 11), Right, 16), fuel - 15))
  {
    ExampleLeg1(lines, fuel);
    ExampleLeg2(lines, fuel - 5);
    ExampleLeg3(lines, fuel - 8);
    ExampleLeg4(lines, fuel - 12);
    var rest := Trace(lines, Walker((1, 11), Right, 16), fuel - 15);
    ContinueAppend("|||+", "--+", rest);
    ContinueAppend("B-+", "|||+" + "--+", rest);
    ContinueAppend("|A||+", "B-+" + ("|||+" + "--+"), rest);
  }

  /** From the upper right corner down, round and up to the right end of the F line. */
  lemma ExampleDown(lines: Diagram, fuel: nat)
    requires ExampleCells(lines) && 12 <= fuel
    ensures Rectangular(lines)
    ensures Trace(lines, Walker((1, 11), Right, 16), fuel) ==
      Continue("C-|+" + ("--+" + ("D+" + "---")), Trace(lines, Walker((3, 11), Left, 28), fuel - 12))
  {
    ExampleLeg5(lines, fuel);
    ExampleLeg6(lines, fuel - 4);
    ExampleLeg7(lines, fuel - 7);
    ExampleLeg8(lines, fuel - 9);
    var rest := Trace(lines, Walker((3, 11), Left, 28), fuel - 12);
    ContinueAppend("D+", "---", rest);
    ContinueAppend("--+", "D+" + "---", rest);
    ContinueAppend("C-|+", "--+" + ("D+" + "---"), rest);
  }

  /** Left along the F line, where the path ends. */
  lemma ExampleHome(lines: Diagram, fuel: nat)
    requires ExampleCells(lines) && 11 <= fuel
    ensures Rectangular(lines)
    ensures Trace(lines, Walker((3, 11), Left, 28), fuel) ==
      Some(("E-|-" + ("-|-" + ("--F" + [])), Walker((3, 1), Left, 38)))
  {
    ExampleLeg9(lines, fuel);
    ExampleLeg10(lines, fuel - 4);
    ExampleLeg11(lines, fuel - 7);
    ExampleEnd(lines, fuel - 10);
  }

  /** From the upper right corner down, round and back left to F, where the path ends. */
  lemma ExampleBack(lines: Diagram, fuel: nat)
    requires ExampleCells(lines) && 23 <= fuel
    ensures Rectangular(lines)
    ensures Trace(lines, Walker((1, 11), Right, 16), fuel) ==
      Some(("C-|+" + ("--+" + ("D+" + ("---" + ("E-|-" + ("-|-" + ("--F" + [])))))), Walker((3, 1), Left, 38)))
  {
    ExampleDown(lines, fuel);
    ExampleHome(lines, fuel - 12);
    var home := "E-|-" + ("-|-" + ("--F" + []));
    assert ("C-|+" + ("--+" + ("D+" + "---"))) + home
        == "C-|+" + ("--+" + ("D+" + ("---" + home)));
  }

  lemma ExampleOutwardText()
    ensures Letters("|A||+" + ("B-+" + ("|||+" + "--+"))) == "AB"
  {
    LettersAppend("|||+", "--+");
    LettersAppend("B-+", "|||+" + "--+");
    LettersAppend("|A||+", "B-+" + ("|||+" + "--+"));
  }

  lemma ExampleBackText()
    ensures Letters("C-|+" + ("--+" + ("D+" + ("---" + ("E-|-" + ("-|-" + ("--F" + []))))))) == "CDEF"
  {
    LettersAppend("--F", []);
    LettersAppend("-|-", "--F" + []);
    LettersAppend("E-|-", "-|-" + ("--F" + []));
    LettersAppend("---", "E-|-" + ("-|-" + ("--F" + [])));
    LettersAppend("D+", "---" + ("E-|-" + ("-|-" + ("--F" + []))));
    LettersAppend("--+", "D+" + ("---" + ("E-|-" + ("-|-" + ("--F" + [])))));
    LettersAppend("C-|+", "--+" + ("D+" + ("---" + ("E-|-" + ("-|-" + ("--F" + []))))));
  }

  lemma ExampleText()
    ensures Letters(("|A||+" + ("B-+" + ("|||+" + "--+"))) + ("C-|+" + ("--+" + ("D+" + ("---" + ("E-|-" + ("-|-" + ("--F" + [])))))))) == "ABCDEF"
  {
    ExampleOutwardText();
    ExampleBackText();
    LettersAppend("|A||+" + ("B-+" + ("|||+" + "--+")), "C-|+" + ("--+" + ("D+" + ("---" + ("E-|-" + ("-|-" + ("--F" + [])))))));
  }

  lemma ExamplePath(lines: Diagram, fuel: nat)
    requires ExampleCells(lines) && 38 <= fuel
    ensures Rectangular(lines)
    ensures Trace(lines, Walker((0, 5), Down, 1), fuel) ==
      Some((("|A||+" + ("B-+" + ("|||+" + "--+"))) + ("C-|+" + ("--+" + ("D+" + ("---" + ("E-|-" + ("-|-" + ("--F" + []))))))), Walker((3, 1), Left, 38)))
  {
    ExampleOutward(lines, fuel);
    ExampleBack(lines, fuel - 15);
  }

  /** The example collects ABCDEF and counts 38 steps. */
  lemma Example(lines: Diagram, fuel: nat)
    requires IsExample(lines) && 38 <= fuel
    ensures Rectangular(lines) && '|' in lines[0]
    ensures var t := Trace(lines, Start(lines), fuel);
      t.Some? && Letters(t.value.0) == "ABCDEF" && t.value.1.steps == 38
  {
    ExampleHasCells(lines);
    ExampleRectangular(lines);
    assert Start(lines) == Walker((0, 5), Down, 1);
    ExamplePath(lines, fuel);
    ExampleText();
  }

  /** The diagram in motion (`Map`). */
  class Map {
    const lines: Diagram
    var pos: Position
    var direction: Direction
    var steps: nat

    ghost predicate Valid()
      reads this
    {
      Rectangular(lines) && InBounds(lines, pos)
    }

    function State(): Walker
      reads this
    {
      Walker(pos, direction, steps)
    }

    /** Starts at the first `|` of the top row; the source fails when there is none. */
    constructor(lines: Diagram)
      requires Rectangular(lines) && '|' in lines[0]
      ensures Valid() && this.lines == lines && State() == Start(lines)
    {
      this.lines := lines;
      pos := (0, FirstIndex(lines[0], '|'));
      direction := Down;
      steps := 1;
    }

    /** One move; the character landed on, or None at the end of the path (state unchanged). */
    method Move() returns (c: Option<char>)
      requires Valid()
      modifies this
      ensures Valid()
      ensures match Step(lines, old(State()))
        case None => c.None? && State() == old(State())
        case Some(n) => State() == n && c == Some(Cell(lines, n.pos))
      decreases if Blocked(lines, State()) then 1 else 0
    {
      var newPos := Neighbour(pos, direction);
      if newPos.0 < 0 || newPos.0 == |lines| || newPos.1 < 0 ||
         newPos.1 == |lines[newPos.0]| || Cell(lines, newPos) == ' '
      {
        var newDirection := Turn(lines, State());
        if newDirection.None? {
          return None;
        }
        TurnChoice(lines, State());
        direction := newDirection.value;
        BlockedIsClosed(lines, State());
        c := Move();
        return;
      }
      pos := newPos;
      steps := steps + 1;
      c := Some(Cell(lines, pos));
    }

    /** `go`: moves until the path ends and returns the letters passed, in order; None when
        the path has not ended within `fuel` moves. */
    method Go(fuel: nat) returns (text: Option<string>)
      requires Valid()
      modifies this
      ensures Valid()
      ensures var t := Trace(lines, old(State()), fuel);
        text.Some? == t.Some? &&
        (t.Some? ==> text.value == Letters(t.value.0) && State() == t.value.1)
    {
      ghost var seen: seq<char> := [];
      var collected := "";
      var k := 0;
      ContinueAppend([], [], Trace(lines, State(), fuel));
      while k < fuel
        invariant Valid() && k <= fuel
        invariant Continue(seen, Trace(lines, State(), fuel - k)) == Trace(lines, old(State()), fuel)
        invariant collected == Letters(seen)
        decreases fuel - k
      {
        ghost var before := State();
        TraceUnfold(lines, before, fuel - k);
        var character := Move();
        if character.None? {
          ContinueAppend(seen, [], Some(([], before)));
          assert seen + [] == seen;
          return Some(collected);
        }
        var x := character.value;
        ContinueAppend(seen, [x], Trace(lines, State(), fuel - k - 1));
        LettersAppend(seen, [x]);
        if x == '|' || x == '-' || x == '+' {
          assert Letters([x]) == [];
        } else {
          assert Letters([x]) == [x];
          collected := collected + [x];
        }
        seen := seen + [x];
        k := k + 1;
      }
      assert Trace(lines, State(), 0).None?;
      return None;
    }
  }
}
