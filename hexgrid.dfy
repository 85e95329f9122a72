/** Hex-grid walking (day 11): axial coordinates, the six moves and the
    cube-coordinate distance, and the walk that tracks the furthest distance. */
module HexGrid {
  import opened Common

  /** The exception a move raises for an unknown direction. */
  datatype MoveError = ValueError | TypeError

  datatype Pos = Pos(x: int, y: int)

  const Origin := Pos(0, 0)

  /** The six neighbours of a hex. */
  datatype Direction = N | NE | SE | S | SW | NW

  /** The name of a direction in the input. */
  function Name(d: Direction): string {
    match d
    case N => "n"
    case NE => "ne"
    case SE => "se"
    case S => "s"
    case SW => "sw"
    case NW => "nw"
  }

  /** The direction a move names, if it names one. */
  function ParseDirection(s: string): (r: Option<Direction>)
    ensures r.Some? ==> Name(r.value) == s
  {
    if s == "n" then Some(N)
    else if s == "ne" then Some(NE)
    else if s == "se" then Some(SE)
    else if s == "s" then Some(S)
    else if s == "sw" then Some(SW)
    else if s == "nw" then Some(NW)
    else None
  }

  /** Every direction's name parses back to it, so exactly the six names are
      accepted. */
  lemma ParseName(d: Direction)
    ensures ParseDirection(Name(d)) == Some(d)
  {
  }

  predicate IsDirection(s: string) {
    ParseDirection(s).Some?
  }

  /** The axial offset of a direction. */
  function Offset(d: Direction): Pos {
    match d
    case N => Pos(1, 0)
    case NE => Pos(1, -1)
    case SE => Pos(0, -1)
    case S => Pos(-1, 0)
    case SW => Pos(-1, 1)
    case NW => Pos(0, 1)
  }

  function Shift(p: Pos, d: Direction): Pos {
    Pos(p.x + Offset(d).x, p.y + Offset(d).y)
  }

  /** `make_move` as it is written: the message of the exception for an
      unknown direction is built with `"...$s" % direction`, a format string
      without any conversion, and that formatting itself raises TypeError
      before the intended ValueError is constructed. */
  function MakeMoveAsWritten(p: Pos, direction: string): (r: Result<Pos, MoveError>)
    ensures r.Err? <==> !IsDirection(direction)
    ensures r.Err? ==> r.error == TypeError
    ensures r.Ok? ==> r.value == Shift(p, ParseDirection(direction).value)
  {
    match ParseDirection(direction)
    case Some(d) => Ok(Shift(p, d))
    case None => Err(TypeError)
  }

  lemma UnknownDirectionRaisesTypeError()
    ensures MakeMoveAsWritten(Origin, "x") == Err(TypeError)
    ensures MakeMoveAsWritten(Origin, "n\n") == Err(TypeError)
  {
  }

  /** `make_move` as intended: each known direction moves to one of the six
      neighbours, anything else is a ValueError. */
  function MakeMove(p: Pos, direction: string): (r: Result<Pos, MoveError>)
    ensures r.Err? <==> !IsDirection(direction)
    ensures r.Err? ==> r.error == ValueError
    ensures r.Ok? ==> r.value == Shift(p, ParseDirection(direction).value)
  {
    match ParseDirection(direction)
    case Some(d) => Ok(Shift(p, d))
    case None => Err(ValueError)
  }

  /** Each move goes to an adjacent hex. */
  lemma MoveIsOneStep(p: Pos, d: Direction)
    ensures Distance(Pos(Shift(p, d).x - p.x, Shift(p, d).y - p.y)) == 1
  {
  }

  /** Twice the hex distance: |x| + |y| + |z| with z = -(x + y). */
  function CubeSum(p: Pos): nat {
    Abs(p.x) + Abs(p.y) + Abs(-(p.x + p.y))
  }

  /** The number of steps from the origin (`int(cube_sum / 2)`). */
  function Distance(p: Pos): nat {
    CubeSum(p) / 2
  }

  /** The cube sum is always even, so the halving loses nothing. */
  lemma CubeSumEven(p: Pos)
    ensures CubeSum(p) % 2 == 0
    ensures Distance(p) * 2 == CubeSum(p)
  {
    var x, y := p.x, p.y;
    if x >= 0 && y >= 0 {
      assert CubeSum(p) == 2 * (x + y);
    } else if x < 0 && y < 0 {
      assert CubeSum(p) == 2 * (-x - y);
    } else if x >= 0 {
      assert CubeSum(p) == 2 * (if x + y >= 0 then x else -y);
    } else {
      assert CubeSum(p) == 2 * (if x + y >= 0 then y else -x);
    }
  }

  lemma DistanceZeroIffOrigin(p: Pos)
    ensures Distance(p) == 0 <==> p == Origin
  {
    CubeSumEven(p);
  }

  function Opposite(d: Direction): Direction {
    match d
    case N => S
    case NE => SW
    case SE => NW
    case S => N
    case SW => NE
    case NW => SE
  }

  /** Opposite moves cancel. */
  lemma OppositeMovesCancel(p: Pos, d: Direction)
    ensures Shift(Shift(p, d), Opposite(d)) == p
    ensures Opposite(Opposite(d)) == d
  {
  }

  /** One move changes the distance by at most one ... */
  lemma MoveChangesDistanceByAtMostOne(p: Pos, d: Direction)
    ensures Distance(Shift(p, d)) <= Distance(p) + 1 && Distance(p) <= Distance(Shift(p, d)) + 1
  {
    var q := Shift(p, d);
    AbsStep(p.x, q.x);
    AbsStep(p.y, q.y);
    AbsStep(-(p.x + p.y), -(q.x + q.y));
    assert -2 <= CubeSum(q) - CubeSum(p) <= 2;
    CubeSumEven(p);
    CubeSumEven(q);
  }

  lemma AbsStep(a: int, b: int)
    requires -1 <= b - a <= 1
    ensures -1 <= Abs(b) - Abs(a) <= 1
  {
  }

  /** ... and away from the origin some move brings it one closer, so the
      distance is the length of the shortest walk back to the origin. */
  lemma SomeMoveApproachesOrigin(p: Pos) returns (d: Direction)
    requires p != Origin
    ensures Distance(Shift(p, d)) + 1 == Distance(p)
  {
    var x, y := p.x, p.y;
    if x > 0 && y < 0 {
      d := SW;
    } else if x < 0 && y > 0 {
      d := NE;
    } else if x > 0 {
      d := S;
    } else if x < 0 {
      d := N;
    } else if y > 0 {
      d := SE;
    } else {
      d := NW;
    }
    CubeSumEven(p);
    CubeSumEven(Shift(p, d));
  }

  /** The position after following `moves` from `p`, or the error of the
      first unknown direction. */
  function FollowFrom(p: Pos, moves: seq<string>): Result<Pos, MoveError>
    decreases |moves|
  {
    if moves == [] then Ok(p)
    else
      match MakeMove(p, moves[0])
      case Err(e) => Err(e)
      case Ok(q) => FollowFrom(q, moves[1..])
  }

  /** The walk of `main`, which starts at the origin. */
  function Follow(moves: seq<string>): Result<Pos, MoveError> {
    FollowFrom(Origin, moves)
  }

  lemma {:induction false} FollowFromSnoc(p: Pos, moves: seq<string>, d: string)
    ensures FollowFrom(p, moves + [d]) ==
      match FollowFrom(p, moves) case Err(e) => Err(e) case Ok(q) => MakeMove(q, d)
    decreases |moves|
  {
    if moves == [] {
      assert [] + [d] == [d];
      assert [d][1..] == [];
    } else {
      assert (moves + [d])[1..] == moves[1..] + [d];
      match MakeMove(p, moves[0])
      case Err(e) =>
      case Ok(q) => FollowFromSnoc(q, moves[1..], d);
    }
  }

  /** The walk move by move: the last move is made from where the others end. */
  lemma FollowLast(moves: seq<string>)
    requires moves != []
    ensures Follow(moves) ==
      match Follow(moves[..|moves| - 1])
      case Err(e) => Err(e)
      case Ok(p) => MakeMove(p, moves[|moves| - 1])
  {
    var init := moves[..|moves| - 1];
    FollowFromSnoc(Origin, init, moves[|moves| - 1]);
    assert init + [moves[|moves| - 1]] == moves;
  }

  /** The walk succeeds exactly when every move names a direction. */
  lemma {:induction false} FollowOk(moves: seq<string>)
    ensures Follow(moves).Ok? <==> forall i | 0 <= i < |moves| :: IsDirection(moves[i])
  {
    if moves != [] {
      var init := moves[..|moves| - 1];
      FollowOk(init);
      FollowLast(moves);
      assert Follow(moves).Ok? <==> Follow(init).Ok? && IsDirection(moves[|moves| - 1]);
      assert forall i | 0 <= i < |init| :: init[i] == moves[i];
    }
  }

  /** A walk never ends further away than its number of steps. */
  lemma {:induction false} FollowDistanceBound(moves: seq<string>)
    requires Follow(moves).Ok?
    ensures Distance(Follow(moves).value) <= |moves|
  {
    if moves != [] {
      var init := moves[..|moves| - 1];
      FollowLast(moves);
      FollowDistanceBound(init);
      MoveChangesDistanceByAtMostOne(Follow(init).value, ParseDirection(moves[|moves| - 1]).value);
    }
  }

  /** The largest distance from the origin after any of the moves of a walk
      that follows all of them. */
  function MaxDistance(moves: seq<string>): nat
    requires Follow(moves).Ok?
  {
    if moves == [] then 0
    else
      FollowLast(moves);
      Max(MaxDistance(moves[..|moves| - 1]), Distance(Follow(moves).value))
  }

  /** No position on the walk is further away than `MaxDistance` ... */
  lemma {:induction false} MaxDistanceBound(moves: seq<string>, k: nat)
    requires Follow(moves).Ok? && 1 <= k <= |moves|
    ensures Follow(moves[..k]).Ok? && Distance(Follow(moves[..k]).value) <= MaxDistance(moves)
  {
    var init := moves[..|moves| - 1];
    FollowLast(moves);
    if k == |moves| {
      assert moves[..k] == moves;
    } else {
      assert init[..k] == moves[..k];
      MaxDistanceBound(init, k);
    }
  }

  /** ... and some position is exactly that far (or the walk stays at distance 0). */
  lemma {:induction false} MaxDistanceAttained(moves: seq<string>) returns (k: nat)
    requires Follow(moves).Ok? && MaxDistance(moves) > 0
    ensures 1 <= k <= |moves| && Follow(moves[..k]).Ok?
    ensures Distance(Follow(moves[..k]).value) == MaxDistance(moves)
  {
    var init := moves[..|moves| - 1];
    FollowLast(moves);
    if MaxDistance(moves) == Distance(Follow(moves).value) {
      k := |moves|;
      assert moves[..k] == moves;
    } else {
      k := MaxDistanceAttained(init);
      assert init[..k] == moves[..k];
    }
  }

  /** One more move of the walk. */
  lemma FollowStep(moves: seq<string>, i: nat)
    requires i < |moves|
    ensures Follow(moves[..i + 1]) ==
      match Follow(moves[..i]) case Err(e) => Err(e) case Ok(p) => MakeMove(p, moves[i])
    ensures Follow(moves[..i + 1]).Ok? ==>
      MaxDistance(moves[..i + 1]) == Max(MaxDistance(moves[..i]), Distance(Follow(moves[..i + 1]).value))
  {
    assert moves[..i + 1][..i] == moves[..i];
    FollowLast(moves[..i + 1]);
  }

  /** An error in a prefix is the error of the whole walk. */
  lemma {:induction false} Prefix(moves: seq<string>, k: nat)
    requires 1 <= k <= |moves|
    requires Follow(moves[..k]).Err?
    ensures Follow(moves) == Follow(moves[..k])
  {
    if k < |moves| {
      var init := moves[..|moves| - 1];
      assert init[..k] == moves[..k];
      Prefix(init, k);
      FollowLast(moves);
    } else {
      assert moves[..k] == moves;
    }
  }

  datatype WalkSummary = WalkSummary(final: Pos, distance: nat, maxDistance: nat)

  /** The loop of `main`: follow the moves, keeping the distance after the
      last move and the largest distance seen after any move. */
  method Walk(moves: seq<string>) returns (r: Result<WalkSummary, MoveError>)
    ensures r.Ok? <==> Follow(moves).Ok?
    ensures r.Err? ==> r.error == Follow(moves).error
    ensures r.Ok? ==> r.value.final == Follow(moves).value
    ensures r.Ok? && |moves| > 0 ==> r.value.distance == Distance(r.value.final)
    ensures r.Ok? ==> r.value.maxDistance == MaxDistance(moves)
  {
    var p := Origin;
    var distance := 0;
    var maxDistance := 0;
    var i := 0;
    while i < |moves|
      invariant 0 <= i <= |moves|
      invariant Follow(moves[..i]) == Ok(p)
      invariant i > 0 ==> distance == Distance(p)
      invariant maxDistance == MaxDistance(moves[..i])
    {
      FollowStep(moves, i);
      var next := MakeMove(p, moves[i]);
      if next.Err? {
        Prefix(moves, i + 1);
        return Err(next.error);
      }
      p := next.value;
      distance := Distance(p);
      maxDistance := Max(maxDistance, distance);
      i := i + 1;
    }
    assert moves[..|moves|] == moves;
    r := Ok(WalkSummary(p, distance, maxDistance));
  }

  /** Where a list of known directions leads from `p`. */
  function Travel(p: Pos, ds: seq<Direction>): Pos
    decreases |ds|
  {
    if ds == [] then p else Travel(Shift(p, ds[0]), ds[1..])
  }

  /** The input spelling of a list of directions. */
  function Names(ds: seq<Direction>): (r: seq<string>)
    ensures |r| == |ds| && forall i | 0 <= i < |ds| :: r[i] == Name(ds[i])
  {
    seq(|ds|, i requires 0 <= i < |ds| => Name(ds[i]))
  }

  /** A walk spelled with known names never fails and goes where the
      directions lead. */
  lemma {:induction false} FollowNames(p: Pos, ds: seq<Direction>)
    ensures FollowFrom(p, Names(ds)) == Ok(Travel(p, ds))
    decreases |ds|
  {
    if ds != [] {
      ParseName(ds[0]);
      assert Names(ds)[1..] == Names(ds[1..]);
      FollowNames(Shift(p, ds[0]), ds[1..]);
    }
  }

  /** The worked examples, walked with `Travel` (by `FollowNames` the walk
      of their spelling ends at the same place): ne,ne,ne ends 3 steps away ... */
  lemma ExampleThreeNorthEast()
    ensures Travel(Origin, [NE, NE, NE]) == Pos(3, -3)
  {
  }

  /** ... ne,ne,sw,sw returns to the start ... */
  lemma ExampleThereAndBack()
    ensures Travel(Origin, [NE, NE, SW, SW]) == Origin
  {
  }

  /** ... ne,ne,s,s ends 2 steps away ... */
  lemma ExampleNorthEastThenSouth()
    ensures Travel(Origin, [NE, NE, S, S]) == Pos(0, -2)
  {
  }

  /** ... and se,sw,se,sw,sw ends 3 steps away. */
  lemma ExampleZigZag()
    ensures Travel(Origin, [SE, SW, SE, SW, SW]) == Pos(-3, 1)
  {
  }

  /** The distances of the examples' end points: 3, 2 and 3 steps. */
  lemma ExampleDistances()
    ensures Distance(Pos(3, -3)) == 3 && Distance(Pos(0, -2)) == 2 && Distance(Pos(-3, 1)) == 3
  {
  }
}
