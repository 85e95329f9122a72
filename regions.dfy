/** The disk grid of the defragmenter: a grid of used and free squares, rows
    indexed by `y` and columns by `x`. Used squares that touch horizontally or
    vertically belong to the same region; the regions are found by a
    depth-first flood fill that marks squares in a second grid of flags. */
module DiskRegions {

  datatype Cell = Cell(x: int, y: int)

  /** The number of columns, read from the first row. */
  function Width(grid: seq<seq<bool>>): nat {
    if grid == [] then 0 else |grid[0]|
  }

  /** Every row as long as the first one. */
  predicate Rectangular(grid: seq<seq<bool>>) {
    forall y | 0 <= y < |grid| :: |grid[y]| == Width(grid)
  }

  predicate InGrid(grid: seq<seq<bool>>, c: Cell) {
    0 <= c.y < |grid| && 0 <= c.x < Width(grid)
  }

  /** A used square of the grid. */
  predicate Used(grid: seq<seq<bool>>, c: Cell) {
    0 <= c.y < |grid| && 0 <= c.x < |grid[c.y]| && grid[c.y][c.x]
  }

  /** Squares that share a side. */
  predicate Adjacent(a: Cell, b: Cell) {
    (a.x == b.x && (a.y - b.y == 1 || b.y - a.y == 1)) ||
    (a.y == b.y && (a.x - b.x == 1 || b.x - a.x == 1))
  }

  function AllCells(grid: seq<seq<bool>>): set<Cell> {
    set x, y | 0 <= y < |grid| && 0 <= x < Width(grid) :: Cell(x, y)
  }

  lemma InAllCells(grid: seq<seq<bool>>, c: Cell)
    requires InGrid(grid, c)
    ensures c in AllCells(grid)
  {
    assert Cell(c.x, c.y) == c;
  }

  function UsedCells(grid: seq<seq<bool>>): set<Cell> {
    set x, y | 0 <= y < |grid| && 0 <= x < |grid[y]| && grid[y][x] :: Cell(x, y)
  }

  lemma InUsedCells(grid: seq<seq<bool>>, c: Cell)
    ensures c in UsedCells(grid) <==> Used(grid, c)
  {
    if Used(grid, c) {
      assert Cell(c.x, c.y) == c;
    }
  }

  // ---------------------------------------------------------------------
  // Counting used squares

  /** `sum(row)`: the number of used squares of a row. */
  function RowCount(row: seq<bool>): nat {
    if row == [] then 0 else RowCount(row[..|row| - 1]) + (if row[|row| - 1] then 1 else 0)
  }

  /** `count_used_blocks`: the used squares of all rows together. */
  function CountUsedBlocks(grid: seq<seq<bool>>): nat {
    if grid == [] then 0 else CountUsedBlocks(grid[..|grid| - 1]) + RowCount(grid[|grid| - 1])
  }

  function RowCells(row: seq<bool>, y: int): set<Cell> {
    set x | 0 <= x < |row| && row[x] :: Cell(x, y)
  }

  lemma {:induction false} RowCellsCount(row: seq<bool>, y: int)
    ensures |RowCells(row, y)| == RowCount(row)
  {
    if row != [] {
      var init := row[..|row| - 1];
      RowCellsCount(init, y);
      var last := Cell(|row| - 1, y);
      if row[|row| - 1] {
        assert RowCells(row, y) == RowCells(init, y) + {last};
        assert last !in RowCells(init, y);
      } else {
        assert RowCells(row, y) == RowCells(init, y);
      }
    }
  }

  /** The used squares of the first `rows` rows. */
  function UsedRows(grid: seq<seq<bool>>, rows: nat): set<Cell>
    requires rows <= |grid|
  {
    set x, y | 0 <= y < rows && 0 <= x < |grid[y]| && grid[y][x] :: Cell(x, y)
  }

  lemma UsedRowsStep(grid: seq<seq<bool>>, rows: nat)
    requires rows < |grid|
    ensures UsedRows(grid, rows + 1) == UsedRows(grid, rows) + RowCells(grid[rows], rows)
    ensures UsedRows(grid, rows) !! RowCells(grid[rows], rows)
  {
    forall c | c in UsedRows(grid, rows + 1)
      ensures c in UsedRows(grid, rows) + RowCells(grid[rows], rows)
    {
      if c.y < rows {
        assert Cell(c.x, c.y) == c;
      }
    }
  }

  lemma {:induction false} UsedRowsCount(grid: seq<seq<bool>>, rows: nat)
    requires rows <= |grid|
    ensures |UsedRows(grid, rows)| == CountUsedBlocks(grid[..rows])
  {
    if rows > 0 {
      UsedRowsCount(grid, rows - 1);
      UsedRowsStep(grid, rows - 1);
      RowCellsCount(grid[rows - 1], rows - 1);
      assert grid[..rows][..rows - 1] == grid[..rows - 1];
    } else {
      assert UsedRows(grid, 0) == {};
    }
  }

  /** `count_used_blocks` counts exactly the used squares. */
  lemma CountUsedBlocksCells(grid: seq<seq<bool>>)
    ensures CountUsedBlocks(grid) == |UsedCells(grid)|
  {
    UsedRowsCount(grid, |grid|);
    assert grid[..|grid|] == grid;
    assert UsedRows(grid, |grid|) == UsedCells(grid);
  }

  // ---------------------------------------------------------------------
  // Walks and regions

  /** A walk that starts anywhere and then only steps onto used squares
      outside `blocked`. */
  ghost predicate IsWalk(grid: seq<seq<bool>>, blocked: set<Cell>, p: seq<Cell>) {
    |p| > 0 &&
    forall i | 0 < i < |p| :: Adjacent(p[i - 1], p[i]) && Used(grid, p[i]) && p[i] !in blocked
  }

  /** `b` can be reached from `a` over used squares outside `blocked`. */
  ghost predicate Reaches(grid: seq<seq<bool>>, blocked: set<Cell>, a: Cell, b: Cell) {
    exists p :: IsWalk(grid, blocked, p) && p[0] == a && p[|p| - 1] == b
  }

  lemma ReachesItself(grid: seq<seq<bool>>, blocked: set<Cell>, a: Cell)
    ensures Reaches(grid, blocked, a, a)
  {
    assert IsWalk(grid, blocked, [a]);
  }

  lemma ReachesStep(grid: seq<seq<bool>>, blocked: set<Cell>, a: Cell, b: Cell, c: Cell)
    requires Reaches(grid, blocked, a, b)
    requires Adjacent(b, c) && Used(grid, c) && c !in blocked
    ensures Reaches(grid, blocked, a, c)
  {
    var p :| IsWalk(grid, blocked, p) && p[0] == a && p[|p| - 1] == b;
    var q := p + [c];
    assert IsWalk(grid, blocked, q);
  }

  /** Fewer blocked squares never cut a walk. */
  lemma ReachesUnblocked(grid: seq<seq<bool>>, blocked: set<Cell>, a: Cell, b: Cell)
    requires Reaches(grid, blocked, a, b)
    ensures Reaches(grid, {}, a, b)
  {
    var p :| IsWalk(grid, blocked, p) && p[0] == a && p[|p| - 1] == b;
    assert IsWalk(grid, {}, p);
  }

  /** Two used squares are connected when one reaches the other. */
  ghost predicate Connected(grid: seq<seq<bool>>, a: Cell, b: Cell) {
    Reaches(grid, {}, a, b)
  }

  function Reverse(p: seq<Cell>): (r: seq<Cell>)
    ensures |r| == |p| && forall i | 0 <= i < |p| :: r[i] == p[|p| - 1 - i]
  {
    seq(|p|, i requires 0 <= i < |p| => p[|p| - 1 - i])
  }

  lemma ConnectedSymmetric(grid: seq<seq<bool>>, a: Cell, b: Cell)
    requires Used(grid, a) && Connected(grid, a, b)
    ensures Connected(grid, b, a)
  {
    var p :| IsWalk(grid, {}, p) && p[0] == a && p[|p| - 1] == b;
    var q := Reverse(p);
    forall i | 0 < i < |q|
      ensures Adjacent(q[i - 1], q[i]) && Used(grid, q[i])
    {
      var j := |p| - 1 - i;
      assert q[i - 1] == p[j + 1] && q[i] == p[j];
      if j > 0 {
        assert Used(grid, p[j]);
      }
    }
    assert IsWalk(grid, {}, q);
  }

  lemma ConnectedTransitive(grid: seq<seq<bool>>, a: Cell, b: Cell, c: Cell)
    requires Connected(grid, a, b) && Connected(grid, b, c)
    ensures Connected(grid, a, c)
  {
    var p :| IsWalk(grid, {}, p) && p[0] == a && p[|p| - 1] == b;
    var q :| IsWalk(grid, {}, q) && q[0] == b && q[|q| - 1] == c;
    var r := p + q[1..];
    forall i | 0 < i < |r|
      ensures Adjacent(r[i - 1], r[i]) && Used(grid, r[i])
    {
      if i >= |p| {
        var j := i - |p| + 1;
        assert r[i] == q[j];
        assert r[i - 1] == q[j - 1];
      }
    }
    assert IsWalk(grid, {}, r);
  }

  /** The region of a used square: every used square connected to it. */
  ghost function Region(grid: seq<seq<bool>>, c: Cell): set<Cell> {
    set d | d in UsedCells(grid) && Connected(grid, c, d)
  }

  /** The regions of the grid, one for each used square's region. */
  ghost function Regions(grid: seq<seq<bool>>): set<set<Cell>> {
    set c | c in UsedCells(grid) :: Region(grid, c)
  }

  lemma InOwnRegion(grid: seq<seq<bool>>, c: Cell)
    requires Used(grid, c)
    ensures c in Region(grid, c)
  {
    ReachesItself(grid, {}, c);
    InUsedCells(grid, c);
  }

  /** Every square of a region has that region as its own. */
  lemma RegionOfMember(grid: seq<seq<bool>>, c: Cell, d: Cell)
    requires Used(grid, c) && d in Region(grid, c)
    ensures Region(grid, d) == Region(grid, c)
  {
    InUsedCells(grid, d);
    ConnectedSymmetric(grid, c, d);
    forall e | e in Region(grid, d)
      ensures e in Region(grid, c)
    {
      ConnectedTransitive(grid, c, d, e);
    }
    forall e | e in Region(grid, c)
      ensures e in Region(grid, d)
    {
      ConnectedTransitive(grid, d, c, e);
    }
  }

  /** Different regions share no square. */
  lemma RegionsDisjoint(grid: seq<seq<bool>>, c: Cell, d: Cell)
    requires Used(grid, c) && Used(grid, d) && Region(grid, c) != Region(grid, d)
    ensures Region(grid, c) !! Region(grid, d)
  {
    forall e | e in Region(grid, c) && e in Region(grid, d)
      ensures false
    {
      RegionOfMember(grid, c, e);
      RegionOfMember(grid, d, e);
    }
  }

  /** There are no more regions than used squares. */
  lemma RegionsAtMostUsed(grid: seq<seq<bool>>)
    ensures |Regions(grid)| <= |UsedCells(grid)|
  {
    ImageAtMost(grid, UsedCells(grid));
  }

  /** There are no more regions than `count_used_blocks` counts. */
  lemma RegionsAtMostBlocks(grid: seq<seq<bool>>)
    ensures |Regions(grid)| <= CountUsedBlocks(grid)
  {
    RegionsAtMostUsed(grid);
    CountUsedBlocksCells(grid);
  }

  lemma {:induction false} ImageAtMost(grid: seq<seq<bool>>, cells: set<Cell>)
    ensures |set c | c in cells :: Region(grid, c)| <= |cells|
    decreases |cells|
  {
    if cells != {} {
      var c :| c in cells;
      var rest := cells - {c};
      ImageAtMost(grid, rest);
      assert (set d | d in cells :: Region(grid, d)) == (set d | d in rest :: Region(grid, d)) + {Region(grid, c)};
    } else {
      assert (set d | d in cells :: Region(grid, d)) == {};
    }
  }

  /** A set that holds `start` and, with `blocked`, every used neighbour of
      its squares holds everything `start` reaches around `blocked`. */
  lemma ClosedHoldsReach(grid: seq<seq<bool>>, blocked: set<Cell>, start: Cell, inside: set<Cell>, c: Cell)
    requires start in inside
    requires forall d, n | d in inside && Adjacent(d, n) && Used(grid, n) :: n in blocked || n in inside
    requires Reaches(grid, blocked, start, c)
    ensures c in inside
  {
    var p :| IsWalk(grid, blocked, p) && p[0] == start && p[|p| - 1] == c;
    var i := 0;
    while i < |p| - 1
      invariant 0 <= i < |p| && p[i] in inside
    {
      assert Adjacent(p[i], p[i + 1]) && Used(grid, p[i + 1]) && p[i + 1] !in blocked;
      i := i + 1;
    }
  }

  /** A walk from a used square stays inside its region, so it never meets a
      square that belongs to no other region than its own. */
  lemma ReachesAvoiding(grid: seq<seq<bool>>, blocked: set<Cell>, c: Cell, d: Cell)
    requires Used(grid, c) && Connected(grid, c, d)
    requires forall e | e in blocked :: e !in Region(grid, c)
    ensures Reaches(grid, blocked, c, d)
  {
    var p :| IsWalk(grid, {}, p) && p[0] == c && p[|p| - 1] == d;
    forall i | 0 < i < |p|
      ensures p[i] !in blocked
    {
      var prefix := p[..i + 1];
      assert IsWalk(grid, {}, prefix);
      assert Connected(grid, c, p[i]);
      InUsedCells(grid, p[i]);
    }
    assert IsWalk(grid, blocked, p);
  }

  // ---------------------------------------------------------------------
  // The flood fill

  /** The squares flagged in `marks`. */
  function MarkedCells(marks: array2<bool>): set<Cell>
    reads marks
  {
    set x, y | 0 <= y < marks.Length0 && 0 <= x < marks.Length1 && marks[y, x] :: Cell(x, y)
  }

  /** Every used neighbour of a visited square is blocked, visited or still
      waiting in the worklist. */
  ghost predicate Closed(grid: seq<seq<bool>>, blocked: set<Cell>, visited: set<Cell>, stack: seq<Cell>) {
    forall d, n | d in visited && Adjacent(d, n) && Used(grid, n) :: n in blocked || n in visited || n in stack
  }

  /** A visited square still in the worklist has every used neighbour
      blocked, visited or above it in the worklist. */
  ghost predicate StackOrdered(grid: seq<seq<bool>>, blocked: set<Cell>, visited: set<Cell>, stack: seq<Cell>) {
    forall q, n | 0 <= q < |stack| && stack[q] in visited && Adjacent(stack[q], n) && Used(grid, n) ::
      n in blocked || n in visited || n in stack[q + 1..]
  }

  /** Popping the top square, visiting it and pushing exactly its used
      neighbours that are neither blocked nor visited keeps both invariants;
      a square visited before has no such neighbour left. */
  lemma VisitKeepsOrder(grid: seq<seq<bool>>, blocked: set<Cell>, visited: set<Cell>, stack: seq<Cell>, pushed: seq<Cell>)
    requires stack != []
    requires Closed(grid, blocked, visited, stack) && StackOrdered(grid, blocked, visited, stack)
    requires forall q | 0 <= q < |pushed| ::
      Adjacent(stack[|stack| - 1], pushed[q]) && Used(grid, pushed[q]) &&
      pushed[q] !in blocked && pushed[q] !in visited + {stack[|stack| - 1]}
    requires forall n | Adjacent(stack[|stack| - 1], n) && Used(grid, n) && n !in blocked && n !in visited + {stack[|stack| - 1]} ::
      n in pushed
    ensures Closed(grid, blocked, visited + {stack[|stack| - 1]}, stack[..|stack| - 1] + pushed)
    ensures StackOrdered(grid, blocked, visited + {stack[|stack| - 1]}, stack[..|stack| - 1] + pushed)
    ensures stack[|stack| - 1] in visited ==>
      forall n | Adjacent(stack[|stack| - 1], n) && Used(grid, n) :: n in blocked || n in visited
  {
    var c := stack[|stack| - 1];
    var below := stack[..|stack| - 1];
    var visited' := visited + {c};
    var stack' := below + pushed;
    if c in visited {
      forall n | Adjacent(c, n) && Used(grid, n)
        ensures n in blocked || n in visited
      {
        assert stack[|stack| - 1 + 1..] == [];
      }
    }
    forall d, n | d in visited' && Adjacent(d, n) && Used(grid, n)
      ensures n in blocked || n in visited' || n in stack'
    {
      if d in visited && n !in blocked && n !in visited' {
        assert n in stack;
        assert n != c;
        assert n in below;
      }
    }
    forall q, n | 0 <= q < |stack'| && stack'[q] in visited' && Adjacent(stack'[q], n) && Used(grid, n)
      ensures n in blocked || n in visited' || n in stack'[q + 1..]
    {
      if q >= |below| {
        assert false;
      }
      assert stack'[q] == stack[q];
      if n !in blocked && n !in visited' {
        assert stack'[q + 1..] == below[q + 1..] + pushed;
        if stack[q] in visited {
          assert n in stack[q + 1..];
          assert stack[q + 1..] == below[q + 1..] + [c];
        } else {
          assert stack[q] == c;
        }
      }
    }
  }

  /** A used square on the grid that is not flagged yet. */
  predicate Open(grid: seq<seq<bool>>, marks: array2<bool>, n: Cell)
    reads marks
  {
    Used(grid, n) && n.y < marks.Length0 && n.x < marks.Length1 && !marks[n.y, n.x]
  }

  /** The squares one pass of the neighbour loop pushes, for the offset `i`:
      the square `i` rows away, then the square `i` columns away, each when
      it is open. */
  function OpenStep(grid: seq<seq<bool>>, marks: array2<bool>, c: Cell, i: int): seq<Cell>
    reads marks
  {
    (if Open(grid, marks, Cell(c.x, c.y + i)) then [Cell(c.x, c.y + i)] else []) +
    (if Open(grid, marks, Cell(c.x + i, c.y)) then [Cell(c.x + i, c.y)] else [])
  }

  /** Everything one visit of `c` pushes, in push order. */
  function OpenNeighbours(grid: seq<seq<bool>>, marks: array2<bool>, c: Cell): seq<Cell>
    reads marks
  {
    OpenStep(grid, marks, c, -1) + OpenStep(grid, marks, c, 1)
  }

  /** A visit pushes exactly the open neighbours of the square, and nothing
      once none is open. */
  lemma OpenNeighboursExactly(grid: seq<seq<bool>>, marks: array2<bool>, c: Cell)
    ensures forall q | 0 <= q < |OpenNeighbours(grid, marks, c)| ::
      Adjacent(c, OpenNeighbours(grid, marks, c)[q]) && Open(grid, marks, OpenNeighbours(grid, marks, c)[q])
    ensures forall n | Adjacent(c, n) && Open(grid, marks, n) :: n in OpenNeighbours(grid, marks, c)
    ensures (forall n | Adjacent(c, n) :: !Open(grid, marks, n)) ==> OpenNeighbours(grid, marks, c) == []
  {
    var up, left, down, right := Cell(c.x, c.y - 1), Cell(c.x - 1, c.y), Cell(c.x, c.y + 1), Cell(c.x + 1, c.y);
    assert Adjacent(c, up) && Adjacent(c, left) && Adjacent(c, down) && Adjacent(c, right);
    forall n | Adjacent(c, n)
      ensures n == up || n == left || n == down || n == right
    {
    }
  }

  /** One pass of the neighbour loop, with the checks as written: the row
      bound and the column bound of the grid, the flag, the square. */
  method PushStep(grid: seq<seq<bool>>, marks: array2<bool>, stack: seq<Cell>, c: Cell, i: int) returns (r: seq<Cell>)
    requires Rectangular(grid) && marks.Length0 == |grid| && marks.Length1 == Width(grid)
    requires InGrid(grid, c)
    ensures r == stack + OpenStep(grid, marks, c, i)
  {
    r := stack;
    var y1 := c.y + i;
    if 0 <= y1 < |grid| && !marks[y1, c.x] && grid[y1][c.x] {
      r := r + [Cell(c.x, y1)];
    }
    assert r == stack + if Open(grid, marks, Cell(c.x, y1)) then [Cell(c.x, y1)] else [];
    var x1 := c.x + i;
    if 0 <= x1 < |grid[c.y]| && !marks[c.y, x1] && grid[c.y][x1] {
      r := r + [Cell(x1, c.y)];
    }
  }

  /** `for i in range(-1, 2, 2)`: the neighbour checks of one visit; the
      result is `stack` followed by the squares they push. */
  method PushNeighbours(grid: seq<seq<bool>>, marks: array2<bool>, stack: seq<Cell>, c: Cell) returns (r: seq<Cell>)
    requires Rectangular(grid) && marks.Length0 == |grid| && marks.Length1 == Width(grid)
    requires InGrid(grid, c)
    ensures r == stack + OpenNeighbours(grid, marks, c)
  {
    r := stack;
    var i := -1;
    while i < 2
      invariant i == -1 || i == 1 || i == 3
      invariant r == stack + if i == -1 then [] else if i == 1 then OpenStep(grid, marks, c, -1) else OpenNeighbours(grid, marks, c)
    {
      r := PushStep(grid, marks, r, c, i);
      i := i + 2;
    }
  }

  lemma MarkedCellsMembers(marks: array2<bool>)
    ensures forall c: Cell | 0 <= c.y < marks.Length0 && 0 <= c.x < marks.Length1 ::
      c in MarkedCells(marks) <==> marks[c.y, c.x]
  {
    forall c: Cell | 0 <= c.y < marks.Length0 && 0 <= c.x < marks.Length1 && marks[c.y, c.x]
      ensures c in MarkedCells(marks)
    {
      assert Cell(c.x, c.y) == c;
    }
  }

  /** While the flags are the blocked squares plus the visited ones, an open
      square is a used square that is neither. */
  lemma OpenIsFree(grid: seq<seq<bool>>, marks: array2<bool>, blocked: set<Cell>, visited: set<Cell>)
    requires Rectangular(grid) && marks.Length0 == |grid| && marks.Length1 == Width(grid)
    requires forall c | InGrid(grid, c) :: marks[c.y, c.x] == (c in blocked || c in visited)
    ensures forall n :: Open(grid, marks, n) <==> Used(grid, n) && n !in blocked && n !in visited
  {
    forall n | Used(grid, n)
      ensures InGrid(grid, n)
    {
    }
  }

  /** What the flood fill keeps true of its stack and of the squares it has
      visited: all lie on the grid and are reached from `start` around
      `blocked`; `start` is visited or waiting; and `Closed` and
      `StackOrdered` hold. */
  ghost predicate Frontier(grid: seq<seq<bool>>, blocked: set<Cell>, start: Cell, visited: set<Cell>, stack: seq<Cell>) {
    (forall q | 0 <= q < |stack| :: InGrid(grid, stack[q]) && Reaches(grid, blocked, start, stack[q])) &&
    (forall c | c in visited :: InGrid(grid, c) && Reaches(grid, blocked, start, c)) &&
    (start in visited || start in stack) &&
    Closed(grid, blocked, visited, stack) && StackOrdered(grid, blocked, visited, stack)
  }

  /** With the flags as described by `OpenIsFree`, a visit of `c` pushes
      exactly its used neighbours that are neither blocked nor visited, and
      nothing when there are none. */
  lemma PushedAreFree(grid: seq<seq<bool>>, marks: array2<bool>, blocked: set<Cell>, visited: set<Cell>, c: Cell)
    requires forall n :: Open(grid, marks, n) <==> Used(grid, n) && n !in blocked && n !in visited + {c}
    ensures forall q | 0 <= q < |OpenNeighbours(grid, marks, c)| ::
      Adjacent(c, OpenNeighbours(grid, marks, c)[q]) && Used(grid, OpenNeighbours(grid, marks, c)[q]) &&
      OpenNeighbours(grid, marks, c)[q] !in blocked && OpenNeighbours(grid, marks, c)[q] !in visited + {c}
    ensures forall n | Adjacent(c, n) && Used(grid, n) && n !in blocked && n !in visited + {c} ::
      n in OpenNeighbours(grid, marks, c)
    ensures (forall n | Adjacent(c, n) && Used(grid, n) :: n in blocked || n in visited) ==>
      OpenNeighbours(grid, marks, c) == []
  {
    OpenNeighboursExactly(grid, marks, c);
  }

  /** One visit keeps the frontier invariant; a square visited before has
      no free neighbour left. */
  lemma FrontierStep(grid: seq<seq<bool>>, blocked: set<Cell>, start: Cell, visited: set<Cell>, stack: seq<Cell>, pushed: seq<Cell>)
    requires Rectangular(grid)
    requires Frontier(grid, blocked, start, visited, stack) && stack != []
    requires forall q | 0 <= q < |pushed| ::
      Adjacent(stack[|stack| - 1], pushed[q]) && Used(grid, pushed[q]) &&
      pushed[q] !in blocked && pushed[q] !in visited + {stack[|stack| - 1]}
    requires forall n | Adjacent(stack[|stack| - 1], n) && Used(grid, n) && n !in blocked && n !in visited + {stack[|stack| - 1]} ::
      n in pushed
    ensures Frontier(grid, blocked, start, visited + {stack[|stack| - 1]}, stack[..|stack| - 1] + pushed)
    ensures stack[|stack| - 1] in visited ==>
      forall n | Adjacent(stack[|stack| - 1], n) && Used(grid, n) :: n in blocked || n in visited
  {
    VisitKeepsOrder(grid, blocked, visited, stack, pushed);
    PushedReached(grid, blocked, start, stack, pushed, stack[..|stack| - 1] + pushed);
    if start !in visited {
      StaysOrMoves(stack, pushed, start);
    }
  }

  /** Pushed neighbours of the popped top are reached like the top. */
  lemma PushedReached(grid: seq<seq<bool>>, blocked: set<Cell>, start: Cell, stack: seq<Cell>, pushed: seq<Cell>, stack': seq<Cell>)
    requires Rectangular(grid) && stack != [] && stack' == stack[..|stack| - 1] + pushed
    requires forall q | 0 <= q < |stack| :: InGrid(grid, stack[q]) && Reaches(grid, blocked, start, stack[q])
    requires forall q | 0 <= q < |pushed| ::
      Adjacent(stack[|stack| - 1], pushed[q]) && Used(grid, pushed[q]) && pushed[q] !in blocked
    ensures forall q | 0 <= q < |stack'| :: InGrid(grid, stack'[q]) && Reaches(grid, blocked, start, stack'[q])
  {
    var c := stack[|stack| - 1];
    var below := stack[..|stack| - 1];
    forall q | 0 <= q < |stack'|
      ensures InGrid(grid, stack'[q]) && Reaches(grid, blocked, start, stack'[q])
    {
      if q >= |below| {
        var n := pushed[q - |below|];
        assert stack'[q] == n;
        assert n.x < |grid[n.y]|;
        ReachesStep(grid, blocked, start, c, n);
      } else {
        assert stack'[q] == stack[q];
      }
    }
  }

  /** An element of a non-empty stack is its top or stays on the stack
      after the top is replaced by other elements. */
  lemma StaysOrMoves<T>(s: seq<T>, pushed: seq<T>, x: T)
    requires s != [] && x in s
    ensures x == s[|s| - 1] || x in s[..|s| - 1] + pushed
  {
    var k :| 0 <= k < |s| && s[k] == x;
    if k < |s| - 1 {
      assert (s[..|s| - 1] + pushed)[k] == x;
    }
  }

  /** One visit as the flood fill performs it: with the flags standing for
      the blocked squares plus the visited ones, the top included, popping the
      top and pushing its open neighbours keeps the frontier invariant; a
      square visited before pushes nothing. */
  lemma VisitStep(grid: seq<seq<bool>>, marks: array2<bool>, blocked: set<Cell>, start: Cell, visited: set<Cell>, stack: seq<Cell>)
    requires Rectangular(grid) && marks.Length0 == |grid| && marks.Length1 == Width(grid)
    requires Frontier(grid, blocked, start, visited, stack) && stack != []
    requires forall c | InGrid(grid, c) :: marks[c.y, c.x] == (c in blocked || c in visited + {stack[|stack| - 1]})
    ensures Frontier(grid, blocked, start, visited + {stack[|stack| - 1]},
                     stack[..|stack| - 1] + OpenNeighbours(grid, marks, stack[|stack| - 1]))
    ensures stack[|stack| - 1] in visited ==> OpenNeighbours(grid, marks, stack[|stack| - 1]) == []
  {
    var c := stack[|stack| - 1];
    OpenIsFree(grid, marks, blocked, visited + {c});
    PushedAreFree(grid, marks, blocked, visited, c);
    FrontierStep(grid, blocked, start, visited, stack, OpenNeighbours(grid, marks, c));
  }

  lemma AddPresent<T>(s: set<T>, x: T)
    requires x in s
    ensures s + {x} == s
  {
  }

  /** Visiting a new square leaves fewer squares to visit. */
  lemma FewerLeft<T>(all: set<T>, visited: set<T>, c: T)
    requires c in all && c !in visited
    ensures all - (visited + {c}) < all - visited
  {
  }

  /** `explore_region`: a depth-first flood fill from `(x, y)` with a stack of
      squares to visit. It flags, besides what was flagged before, exactly the
      squares reached from `(x, y)` over used squares that were not flagged;
      in particular it never flags a free square other than `(x, y)`. */
  method ExploreRegion(grid: seq<seq<bool>>, marks: array2<bool>, x: int, y: int)
    requires Rectangular(grid) && marks.Length0 == |grid| && marks.Length1 == Width(grid)
    requires InGrid(grid, Cell(x, y))
    modifies marks
    ensures forall c | InGrid(grid, c) ::
      marks[c.y, c.x] == (old(marks[c.y, c.x]) || Reaches(grid, old(MarkedCells(marks)), Cell(x, y), c))
  {
    ghost var before := MarkedCells(marks);
    ghost var start := Cell(x, y);
    MarkedCellsMembers(marks);
    ghost var done: set<Cell> := {};
    var stack := [Cell(x, y)];
    ReachesItself(grid, before, start);
    assert forall c | InGrid(grid, c) :: (c in before) == old(marks[c.y, c.x]);
    while stack != []
      invariant forall c | InGrid(grid, c) :: marks[c.y, c.x] == (c in before || c in done)
      invariant Frontier(grid, before, start, done, stack)
      decreases AllCells(grid) - done, |stack|
    {
      var c := stack[|stack| - 1];
      ghost var popped := stack;
      ghost var visited := done;
      stack := stack[..|stack| - 1];
      marks[c.y, c.x] := true;
      done := done + {c};
      VisitStep(grid, marks, before, start, visited, popped);
      stack := PushNeighbours(grid, marks, stack, c);
      if c !in visited {
        InAllCells(grid, c);
        FewerLeft(AllCells(grid), visited, c);
      } else {
        AddPresent(visited, c);
      }
    }
    forall c | InGrid(grid, c)
      ensures marks[c.y, c.x] == (old(marks[c.y, c.x]) || Reaches(grid, before, start, c))
    {
      if Reaches(grid, before, start, c) {
        ClosedHoldsReach(grid, before, start, done, c);
      }
    }
  }

  // ---------------------------------------------------------------------
  // Counting regions

  /** A walk from a used square only meets used squares. */
  lemma ReachedUsed(grid: seq<seq<bool>>, blocked: set<Cell>, a: Cell, b: Cell)
    requires Used(grid, a) && Reaches(grid, blocked, a, b)
    ensures Used(grid, b)
  {
    var p :| IsWalk(grid, blocked, p) && p[0] == a && p[|p| - 1] == b;
    if |p| > 1 {
      assert Used(grid, p[|p| - 1]);
    }
  }

  /** The flags mark exactly the used squares whose region has been found. */
  ghost predicate Flagged(grid: seq<seq<bool>>, marks: array2<bool>, found: set<set<Cell>>)
    reads marks
  {
    marks.Length0 == |grid| && marks.Length1 == Width(grid) &&
    forall c | InGrid(grid, c) :: marks[c.y, c.x] == (Used(grid, c) && Region(grid, c) in found)
  }

  /** Every used square before row `i`, column `j` (row by row) is flagged. */
  ghost predicate ScannedUpTo(grid: seq<seq<bool>>, marks: array2<bool>, i: int, j: int)
    reads marks
  {
    marks.Length0 == |grid| && marks.Length1 == Width(grid) &&
    forall c | InGrid(grid, c) && Used(grid, c) && (c.y < i || (c.y == i && c.x < j)) :: marks[c.y, c.x]
  }

  /** The flags as a set of squares, in the terms `Flagged` and
      `ScannedUpTo` state them with. */
  lemma FlagsAsSet(grid: seq<seq<bool>>, marks: array2<bool>, found: set<set<Cell>>, i: int, j: int)
    requires Flagged(grid, marks, found) && ScannedUpTo(grid, marks, i, j)
    ensures forall c | InGrid(grid, c) :: (c in MarkedCells(marks)) == (Used(grid, c) && Region(grid, c) in found)
    ensures forall c | InGrid(grid, c) && Used(grid, c) && (c.y < i || (c.y == i && c.x < j)) :: c in MarkedCells(marks)
  {
    MarkedCellsMembers(marks);
  }

  /** Exploring from a used square whose region is not found yet flags
      exactly that region in addition, and the scan moves one square on. */
  lemma ExploreStep(grid: seq<seq<bool>>, marks: array2<bool>, blocked: set<Cell>, found: set<set<Cell>>, i: int, j: int)
    requires Rectangular(grid) && marks.Length0 == |grid| && marks.Length1 == Width(grid)
    requires InGrid(grid, Cell(j, i)) && Used(grid, Cell(j, i)) && Cell(j, i) !in blocked
    requires forall c | InGrid(grid, c) :: (c in blocked) == (Used(grid, c) && Region(grid, c) in found)
    requires forall c | InGrid(grid, c) && Used(grid, c) && (c.y < i || (c.y == i && c.x < j)) :: c in blocked
    requires forall c | InGrid(grid, c) :: marks[c.y, c.x] == (c in blocked || Reaches(grid, blocked, Cell(j, i), c))
    ensures Region(grid, Cell(j, i)) !in found && Region(grid, Cell(j, i)) in Regions(grid)
    ensures Flagged(grid, marks, found + {Region(grid, Cell(j, i))})
    ensures ScannedUpTo(grid, marks, i, j + 1)
  {
    var d := Cell(j, i);
    InUsedCells(grid, d);
    forall e | e in blocked
      ensures e !in Region(grid, d)
    {
      if e in Region(grid, d) {
        RegionOfMember(grid, d, e);
      }
    }
    forall c | InGrid(grid, c)
      ensures Reaches(grid, blocked, d, c) == (Used(grid, c) && Region(grid, c) == Region(grid, d))
    {
      if Reaches(grid, blocked, d, c) {
        ReachedUsed(grid, blocked, d, c);
        ReachesUnblocked(grid, blocked, d, c);
        InUsedCells(grid, c);
        RegionOfMember(grid, d, c);
      }
      if Used(grid, c) && Region(grid, c) == Region(grid, d) {
        InOwnRegion(grid, c);
        ReachesAvoiding(grid, blocked, d, c);
      }
    }
    ReachesItself(grid, blocked, d);
  }

  /** A square that is free or already flagged needs no flood fill. */
  lemma ScanSkip(grid: seq<seq<bool>>, marks: array2<bool>, i: int, j: int)
    requires ScannedUpTo(grid, marks, i, j) && InGrid(grid, Cell(j, i))
    requires !Used(grid, Cell(j, i)) || marks[i, j]
    ensures ScannedUpTo(grid, marks, i, j + 1)
  {
  }

  lemma OneMore<T>(s: set<T>, x: T)
    requires x !in s
    ensures |s + {x}| == |s| + 1
  {
  }

  /** Once every used square is flagged, the regions found are all of them. */
  lemma AllFound(grid: seq<seq<bool>>, marks: array2<bool>, found: set<set<Cell>>)
    requires Rectangular(grid)
    requires Flagged(grid, marks, found) && ScannedUpTo(grid, marks, |grid|, 0)
    requires found <= Regions(grid)
    ensures found == Regions(grid)
  {
    forall r | r in Regions(grid)
      ensures r in found
    {
      var c :| c in UsedCells(grid) && r == Region(grid, c);
      InUsedCells(grid, c);
    }
  }

  /** `count_used_regions`: scans the squares row by row and starts a flood
      fill, counted as one region, from every used square not flagged yet.
      The count is the number of regions of the grid. */
  method CountUsedRegions(grid: seq<seq<bool>>) returns (count: nat)
    requires Rectangular(grid)
    ensures count == |Regions(grid)|
  {
    count := 0;
    var marks := new bool[|grid|, Width(grid)]((y, x) => false);
    ghost var found: set<set<Cell>> := {};
    for i := 0 to |grid|
      invariant Flagged(grid, marks, found) && ScannedUpTo(grid, marks, i, 0)
      invariant found <= Regions(grid) && count == |found|
    {
      for j := 0 to |grid[i]|
        invariant Flagged(grid, marks, found) && ScannedUpTo(grid, marks, i, j)
        invariant found <= Regions(grid) && count == |found|
      {
        if grid[i][j] && !marks[i, j] {
          FlagsAsSet(grid, marks, found, i, j);
          ghost var covered := MarkedCells(marks);
          ExploreRegion(grid, marks, j, i);
          ExploreStep(grid, marks, covered, found, i, j);
          ghost var region := Region(grid, Cell(j, i));
          OneMore(found, region);
          found := found + {region};
          count := count + 1;
        } else {
          ScanSkip(grid, marks, i, j);
        }
      }
    }
    AllFound(grid, marks, found);
  }
}
