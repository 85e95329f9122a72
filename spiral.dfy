/** Spiral memory (day 3): squares numbered from 1 in a square spiral around
    the origin, the closed-form maps between a square's number and its
    coordinates, and the "sum of written neighbours" sequence. */
module Spiral {
  import opened Common

  datatype Coord = Coord(x: int, y: int)

  /** The ring a square lies on: the larger of its two distances to the axes. */
  function Radius(c: Coord): nat {
    Max(Abs(c.x), Abs(c.y))
  }

  lemma SquareMonotone(a: int, b: int)
    requires 0 <= a <= b
    ensures a * a <= b * b
  {
    assert a * a <= a * b <= b * b;
  }

  /** The number of squares strictly inside ring `r` (for r >= 1), or 1 for the centre. */
  function InnerPoints(r: nat): nat {
    (2 * r - 1) * (2 * r - 1)
  }

  lemma InnerPointsNext(r: nat)
    ensures InnerPoints(r) + 8 * r == InnerPoints(r + 1)
  {
  }

  /** `find_index`: the number of the square at `c`. */
  function FindIndex(c: Coord): int {
    var radius: int := Radius(c);
    var shift :=
      if c.y == -radius then 3 * (radius * 2) + (radius + c.x)
      else if c.y == radius then (radius * 2) + (radius - c.x)
      else if c.x == -radius then 2 * (radius * 2) + (radius - c.y)
      else radius + c.y;
    InnerPoints(radius) + shift
  }

  /** Ring `r` holds exactly the numbers after the (2r-1)^2 inner squares and
      up to (2r+1)^2; the centre is square 1. */
  lemma FindIndexOnRing(c: Coord)
    ensures Radius(c) == 0 ==> FindIndex(c) == 1
    ensures Radius(c) >= 1 ==> InnerPoints(Radius(c)) < FindIndex(c) <= InnerPoints(Radius(c) + 1)
  {
    InnerPointsNext(Radius(c));
  }

  /** The smallest `c` with `c * c >= n`: the integer stand-in for
      `math.ceil(math.sqrt(n))`. */
  function CeilSqrt(n: nat): (c: nat)
    ensures n <= c * c
    ensures c == 0 || (c - 1) * (c - 1) < n
  {
    CeilSqrtFrom(n, 0)
  }

  function CeilSqrtFrom(n: nat, c: nat): (r: nat)
    requires c == 0 || (c - 1) * (c - 1) < n
    ensures n <= r * r
    ensures r == 0 || (r - 1) * (r - 1) < n
    decreases n - c * c
  {
    if n <= c * c then c else CeilSqrtFrom(n, c + 1)
  }

  /** The radius `find_coordinates` computes: floor(ceil(sqrt(index)) / 2). */
  function IndexRadius(index: nat): nat {
    CeilSqrt(index) / 2
  }

  /** That radius is the ring whose number range holds `index`. */
  lemma IndexRadiusRing(index: nat)
    requires index >= 1
    ensures IndexRadius(index) == 0 ==> index == 1
    ensures IndexRadius(index) >= 1 ==>
      InnerPoints(IndexRadius(index)) < index <= InnerPoints(IndexRadius(index) + 1)
  {
    var c := CeilSqrt(index);
    var r := c / 2;
    if r >= 1 {
      if c == 2 * r {
        SquareMonotone(2 * r, 2 * r + 1);
      } else {
        assert c == 2 * r + 1;
        SquareMonotone(2 * r - 1, 2 * r);
      }
    }
  }

  /** Conversely every number in ring `r`'s range has radius `r`. */
  lemma RingIndexRadius(index: nat, r: nat)
    requires r >= 1 && InnerPoints(r) < index <= InnerPoints(r + 1)
    ensures IndexRadius(index) == r
  {
    var c := CeilSqrt(index);
    if c < 2 * r {
      SquareMonotone(c, 2 * r - 1);
    }
    if c > 2 * r + 1 {
      SquareMonotone(2 * r + 1, c - 1);
    }
  }

  /** `find_coordinates`: the coordinates of square number `index`. */
  function FindCoordinates(index: nat): Coord {
    var radius: int := IndexRadius(index);
    var value := index - (InnerPoints(radius) + 1);
    if value < 2 * radius then Coord(radius, value - radius + 1)
    else if value < 4 * radius then Coord(radius - (value - 2 * radius) - 1, radius)
    else if value < 6 * radius then Coord(-radius, radius - (value - 4 * radius) - 1)
    else Coord((value - 6 * radius) - radius + 1, -radius)
  }

  /** The coordinates found lie on the ring of the computed radius. */
  lemma FindCoordinatesRadius(index: nat)
    requires index >= 1
    ensures Radius(FindCoordinates(index)) == IndexRadius(index)
  {
    IndexRadiusRing(index);
    InnerPointsNext(IndexRadius(index));
  }

  /** Numbering the coordinates of a square gives the square back ... */
  lemma IndexOfCoordinates(index: nat)
    requires index >= 1
    ensures FindIndex(FindCoordinates(index)) == index
  {
    IndexRadiusRing(index);
    InnerPointsNext(IndexRadius(index));
    FindCoordinatesRadius(index);
  }

  /** ... and locating the number of a square gives the square back, so the
      two maps are inverse bijections between squares and numbers >= 1. */
  lemma CoordinatesOfIndex(c: Coord)
    ensures FindIndex(c) >= 1
    ensures FindCoordinates(FindIndex(c)) == c
  {
    FindIndexOnRing(c);
    var r := Radius(c);
    if r >= 1 {
      RingIndexRadius(FindIndex(c), r);
    } else {
      assert CeilSqrt(1) == 1;
    }
  }

  /** `count_steps`: the Manhattan distance of square `index` from square 1. */
  function CountSteps(index: nat): nat {
    var c := FindCoordinates(index);
    Abs(c.x) + Abs(c.y)
  }

  /** Steps from square 1 are 0, from 12 are 3, from 23 are 2 and from 1024 are 31. */
  lemma CountStepsFromOne()
    ensures CountSteps(1) == 0
  {
    CoordinatesOfIndex(Coord(0, 0));
  }

  lemma CountStepsFromTwelve()
    ensures CountSteps(12) == 3
  {
    assert FindIndex(Coord(2, 1)) == 12;
    CoordinatesOfIndex(Coord(2, 1));
  }

  lemma CountStepsFromTwentyThree()
    ensures CountSteps(23) == 2
  {
    assert FindIndex(Coord(0, -2)) == 23;
    CoordinatesOfIndex(Coord(0, -2));
  }

  lemma CountStepsFrom1024()
    ensures CountSteps(1024) == 31
  {
    assert FindIndex(Coord(-15, 16)) == 1024;
    CoordinatesOfIndex(Coord(-15, 16));
  }

  /** The eight surrounding offsets in the order of the nested loops. */
  const NeighbourOffsets: seq<Coord> := [
    Coord(-1, -1), Coord(-1, 0), Coord(-1, 1),
    Coord(0, -1), Coord(0, 1),
    Coord(1, -1), Coord(1, 0), Coord(1, 1)]

  /** The stored value of the square at `c`, or 0 when it is not written yet. */
  function StoredAt(numbers: seq<int>, c: Coord): int {
    var index := FindIndex(c) - 1;
    if 0 <= index < |numbers| then numbers[index] else 0
  }

  /** `StoredAt` as a function value, for the sums below. */
  function Stored(numbers: seq<int>): Coord -> int {
    c => StoredAt(numbers, c)
  }

  /** The values `stored` gives the eight neighbours of `centre`, in loop order. */
  function NeighbourValues(stored: Coord -> int, centre: Coord): (r: seq<int>)
    ensures |r| == |NeighbourOffsets|
  {
    seq(|NeighbourOffsets|, n requires 0 <= n < |NeighbourOffsets| =>
      stored(Coord(centre.x + NeighbourOffsets[n].x, centre.y + NeighbourOffsets[n].y)))
  }

  function Sum(s: seq<int>): int {
    if s == [] then 0 else Sum(s[..|s| - 1]) + s[|s| - 1]
  }

  lemma SumPrefixStep(s: seq<int>, k: nat)
    requires k < |s|
    ensures Sum(s[..k + 1]) == Sum(s[..k]) + s[k]
  {
    assert s[..k + 1][..k] == s[..k];
  }

  /** The sum over the first `k` offsets around `centre`. */
  function SumOver(numbers: seq<int>, centre: Coord, k: nat): int
    requires k <= |NeighbourOffsets|
  {
    Sum(NeighbourValues(Stored(numbers), centre)[..k])
  }

  /** The value written next: the sum of the already written squares among
      the eight neighbours of square number |numbers| + 1. */
  function NeighbourSum(numbers: seq<int>): int {
    SumOver(numbers, FindCoordinates(|numbers| + 1), |NeighbourOffsets|)
  }

  /** The first `k` + 1 values of a sequence that starts with 1 and is
      extended by `next` of everything so far. */
  function Iterate(next: seq<int> -> int, k: nat): (s: seq<int>)
    ensures |s| == k + 1 && s[0] == 1
  {
    if k == 0 then [1] else Iterate(next, k - 1) + [next(Iterate(next, k - 1))]
  }

  /** Each step only appends: the earlier values are never changed. */
  lemma {:induction false} IteratePrefix(next: seq<int> -> int, j: nat, k: nat)
    requires j <= k
    ensures Iterate(next, j) == Iterate(next, k)[..j + 1]
    decreases k
  {
    if j < k {
      IteratePrefix(next, j, k - 1);
      var w := Iterate(next, k);
      assert w[..k] == Iterate(next, k - 1);
      assert w[..k][..j + 1] == w[..j + 1];
    }
  }

  /** The first `k` + 1 values `find_first_larger` writes. */
  function Written(k: nat): (s: seq<int>)
    ensures |s| == k + 1 && s[0] == 1
  {
    Iterate(NeighbourSum, k)
  }

  /** The value written at square number k + 1 (k >= 1). */
  function Term(k: nat): int {
    Written(k)[k]
  }

  /** Every square has a number of at least 1, so `index` below is never negative. */
  lemma FindIndexPositive(c: Coord)
    ensures FindIndex(c) >= 1
  {
    FindIndexOnRing(c);
  }

  lemma NeighbourValuesAt(stored: Coord -> int, centre: Coord, k: nat, i: int, j: int)
    requires k < |NeighbourOffsets| && NeighbourOffsets[k] == Coord(i, j)
    ensures NeighbourValues(stored, centre)[k] == stored(Coord(centre.x + i, centre.y + j))
  {
  }

  /** One more offset added to the running sum. */
  lemma SumOverStep(numbers: seq<int>, centre: Coord, k: nat, i: int, j: int)
    requires k < |NeighbourOffsets| && NeighbourOffsets[k] == Coord(i, j)
    ensures SumOver(numbers, centre, k + 1) ==
      SumOver(numbers, centre, k) + StoredAt(numbers, Coord(centre.x + i, centre.y + j))
  {
    SumPrefixStep(NeighbourValues(Stored(numbers), centre), k);
    NeighbourValuesAt(Stored(numbers), centre, k, i, j);
  }

  /** The offset visited at `(i, j)` is number `k` of the loop order. */
  lemma OffsetSlot(k: int, i: int, j: int)
    requires -1 <= i <= 1 && -1 <= j <= 1 && (i != 0 || j != 0)
    requires k == 3 * (i + 1) + (j + 1) - (if i > 0 || (i == 0 && j > 0) then 1 else 0)
    ensures 0 <= k < |NeighbourOffsets| && NeighbourOffsets[k] == Coord(i, j)
  {
  }

  /** The body of the inner loop adds the neighbour's stored value, if any. */
  lemma AddNeighbour(numbers: seq<int>, centre: Coord, k: nat, i: int, j: int, index: int, before: int, after: int)
    requires k < |NeighbourOffsets| && NeighbourOffsets[k] == Coord(i, j)
    requires index == FindIndex(Coord(centre.x + i, centre.y + j)) - 1
    requires before == SumOver(numbers, centre, k)
    requires after == if index < |numbers| then before + numbers[index] else before
    ensures after == SumOver(numbers, centre, k + 1)
  {
    SumOverStep(numbers, centre, k, i, j);
    FindIndexPositive(Coord(centre.x + i, centre.y + j));
  }

  /** The nested loops of `find_first_larger`: the sum of the stored
      neighbours of the next square, that square itself skipped. */
  method NextValue(numbers: seq<int>) returns (newValue: int)
    ensures newValue == NeighbourSum(numbers)
  {
    var centre := FindCoordinates(|numbers| + 1);
    newValue := 0;
    ghost var k := 0;
    for i := -1 to 2
      invariant k == 3 * (i + 1) - (if i > 0 then 1 else 0)
      invariant newValue == SumOver(numbers, centre, k)
    {
      for j := -1 to 2
        invariant k == 3 * (i + 1) + (j + 1) - (if i > 0 || (i == 0 && j > 0) then 1 else 0)
        invariant newValue == SumOver(numbers, centre, k)
      {
        if i != 0 || j != 0 {
          var c := Coord(centre.x + i, centre.y + j);
          FindIndexPositive(c);
          var index := FindIndex(c) - 1;
          ghost var before := newValue;
          if index < |numbers| {
            newValue := newValue + numbers[index];
          }
          OffsetSlot(k, i, j);
          AddNeighbour(numbers, centre, k, i, j, index, before, newValue);
          k := k + 1;
        }
      }
    }
  }

  /** `find_first_larger`, with at most `fuel` values computed: the first
      value written after square 1 that exceeds `value`, or `None` when the
      fuel runs out first. */
  method FindFirstLarger(value: int, fuel: nat) returns (r: Option<int>)
    ensures r.Some? ==> exists k | 1 <= k <= fuel ::
      Term(k) == r.value && (forall j | 1 <= j < k :: Term(j) <= value)
    ensures r.Some? ==> r.value > value
    ensures r.None? ==> forall j | 1 <= j <= fuel :: Term(j) <= value
  {
    var numbers := [1];
    var k := 0;
    while k < fuel
      invariant k <= fuel
      invariant numbers == Written(k)
      invariant forall j | 1 <= j <= k :: Term(j) <= value
    {
      var newValue := NextValue(numbers);
      assert Written(k + 1) == numbers + [newValue];
      if newValue > value {
        assert Term(k + 1) == newValue;
        return Some(newValue);
      }
      forall j | 1 <= j <= k + 1
        ensures Term(j) <= value
      {
        if j <= k {
          IteratePrefix(NeighbourSum, j, k + 1);
          IteratePrefix(NeighbourSum, j, k);
        }
      }
      numbers := numbers + [newValue];
      k := k + 1;
    }
    return None;
  }

  lemma SumEight(s: seq<int>)
    requires |s| == 8
    ensures Sum(s) == s[0] + s[1] + s[2] + s[3] + s[4] + s[5] + s[6] + s[7]
  {
    assert s[..0] == [];
    SumPrefixStep(s, 0);
    SumPrefixStep(s, 1);
    SumPrefixStep(s, 2);
    SumPrefixStep(s, 3);
    SumPrefixStep(s, 4);
    SumPrefixStep(s, 5);
    SumPrefixStep(s, 6);
    SumPrefixStep(s, 7);
    assert s[..8] == s;
  }

  /** The neighbour sum written out term by term. */
  lemma SumAroundExpanded(stored: Coord -> int, c: Coord)
    ensures Sum(NeighbourValues(stored, c)[..8]) ==
      stored(Coord(c.x - 1, c.y - 1)) + stored(Coord(c.x - 1, c.y)) +
      stored(Coord(c.x - 1, c.y + 1)) + stored(Coord(c.x, c.y - 1)) +
      stored(Coord(c.x, c.y + 1)) + stored(Coord(c.x + 1, c.y - 1)) +
      stored(Coord(c.x + 1, c.y)) + stored(Coord(c.x + 1, c.y + 1))
  {
    var s := NeighbourValues(stored, c);
    assert s[..8] == s;
    SumEight(s);
  }

  /** The neighbour sum around `c`, one stored value per neighbour. */
  lemma SumAroundStored(numbers: seq<int>, c: Coord)
    ensures SumOver(numbers, c, 8) ==
      StoredAt(numbers, Coord(c.x - 1, c.y - 1)) + StoredAt(numbers, Coord(c.x - 1, c.y)) +
      StoredAt(numbers, Coord(c.x - 1, c.y + 1)) + StoredAt(numbers, Coord(c.x, c.y - 1)) +
      StoredAt(numbers, Coord(c.x, c.y + 1)) + StoredAt(numbers, Coord(c.x + 1, c.y - 1)) +
      StoredAt(numbers, Coord(c.x + 1, c.y)) + StoredAt(numbers, Coord(c.x + 1, c.y + 1))
  {
    SumAroundExpanded(Stored(numbers), c);
  }

  /** The stored value of a square whose number is known. */
  lemma StoredIs(numbers: seq<int>, c: Coord, index: nat, v: int)
    requires FindIndex(c) == index + 1
    requires v == if index < |numbers| then numbers[index] else 0
    ensures StoredAt(numbers, c) == v
  {
  }

  /** The square numbered `FindIndex(c)` lies at `c`. */
  lemma CoordinatesAt(m: nat, c: Coord)
    requires FindIndex(c) == m
    ensures FindCoordinates(m) == c
  {
    CoordinatesOfIndex(c);
  }

  /** The next value is the sum of the stored values around the square numbered |numbers| + 1. */
  lemma NeighbourSumIs(numbers: seq<int>, c: Coord, v: int)
    requires FindIndex(c) == |numbers| + 1
    requires v == StoredAt(numbers, Coord(c.x - 1, c.y - 1)) + StoredAt(numbers, Coord(c.x - 1, c.y)) +
      StoredAt(numbers, Coord(c.x - 1, c.y + 1)) + StoredAt(numbers, Coord(c.x, c.y - 1)) +
      StoredAt(numbers, Coord(c.x, c.y + 1)) + StoredAt(numbers, Coord(c.x + 1, c.y - 1)) +
      StoredAt(numbers, Coord(c.x + 1, c.y)) + StoredAt(numbers, Coord(c.x + 1, c.y + 1))
    ensures NeighbourSum(numbers) == v
  {
    CoordinatesAt(|numbers| + 1, c);
    SumAroundStored(numbers, c);
  }

  /** The values `find_first_larger` writes into squares 1 to 23. */
  const FirstValues: seq<int> := [1, 1, 2, 4, 5, 10, 11, 23, 25, 26, 54, 57, 59, 122, 133, 142, 147, 304, 330, 351, 362, 747, 806]

  /** Square 2, at (1, 0), is written 1, the neighbour sum of the value before it. */
  lemma NeighbourSumOfSquareTwo(i: nat)
    requires i == 1
    ensures NeighbourSum(FirstValues[..i]) == FirstValues[i] == 1
  {
    var numbers := FirstValues[..i];
    assert numbers == [1];
    StoredIs(numbers, Coord(0, -1), 7, 0);
    StoredIs(numbers, Coord(0, 0), 0, 1);
    StoredIs(numbers, Coord(0, 1), 3, 0);
    StoredIs(numbers, Coord(1, -1), 8, 0);
    StoredIs(numbers, Coord(1, 1), 2, 0);
    StoredIs(numbers, Coord(2, -1), 9, 0);
    StoredIs(numbers, Coord(2, 0), 10, 0);
    StoredIs(numbers, Coord(2, 1), 11, 0);
    NeighbourSumIs(numbers, Coord(1, 0), 1);
  }

  /** Square 3, at (1, 1), is written 2, the neighbour sum of the 2 values before it. */
  lemma NeighbourSumOfSquareThree(i: nat)
    requires i == 2
    ensures NeighbourSum(FirstValues[..i]) == FirstValues[i] == 2
  {
    var numbers := FirstValues[..i];
    assert numbers == [1, 1];
    StoredIs(numbers, Coord(0, 0), 0, 1);
    StoredIs(numbers, Coord(0, 1), 3, 0);
    StoredIs(numbers, Coord(0, 2), 14, 0);
    StoredIs(numbers, Coord(1, 0), 1, 1);
    StoredIs(numbers, Coord(1, 2), 13, 0);
    StoredIs(numbers, Coord(2, 0), 10, 0);
    StoredIs(numbers, Coord(2, 1), 11, 0);
    StoredIs(numbers, Coord(2, 2), 12, 0);
    NeighbourSumIs(numbers, Coord(1, 1), 2);
  }

  /** Square 4, at (0, 1), is written 4, the neighbour sum of the 3 values before it. */
  lemma NeighbourSumOfSquareFour(i: nat)
    requires i == 3
    ensures NeighbourSum(FirstValues[..i]) == FirstValues[i] == 4
  {
    var numbers := FirstValues[..i];
    assert numbers == [1, 1, 2];
    StoredIs(numbers, Coord(-1, 0), 5, 0);
    StoredIs(numbers, Coord(-1, 1), 4, 0);
    StoredIs(numbers, Coord(-1, 2), 15, 0);
    StoredIs(numbers, Coord(0, 0), 0, 1);
    StoredIs(numbers, Coord(0, 2), 14, 0);
    StoredIs(numbers, Coord(1, 0), 1, 1);
    StoredIs(numbers, Coord(1, 1), 2, 2);
    StoredIs(numbers, Coord(1, 2), 13, 0);
    NeighbourSumIs(numbers, Coord(0, 1), 4);
  }

  /** Square 5, at (-1, 1), is written 5, the neighbour sum of the 4 values before it. */
  lemma NeighbourSumOfSquareFive(i: nat)
    requires i == 4
    ensures NeighbourSum(FirstValues[..i]) == FirstValues[i] == 5
  {
    var numbers := FirstValues[..i];
    assert numbers == [1, 1, 2, 4];
    StoredIs(numbers, Coord(-2, 0), 18, 0);
    StoredIs(numbers, Coord(-2, 1), 17, 0);
    StoredIs(numbers, Coord(-2, 2), 16, 0);
    StoredIs(numbers, Coord(-1, 0), 5, 0);
    StoredIs(numbers, Coord(-1, 2), 15, 0);
    StoredIs(numbers, Coord(0, 0), 0, 1);
    StoredIs(numbers, Coord(0, 1), 3, 4);
    StoredIs(numbers, Coord(0, 2), 14, 0);
    NeighbourSumIs(numbers, Coord(-1, 1), 5);
  }

  /** Square 6, at (-1, 0), is written 10, the neighbour sum of the 5 values before it. */
  lemma NeighbourSumOfSquareSix(i: nat)
    requires i == 5
    ensures NeighbourSum(FirstValues[..i]) == FirstValues[i] == 10
  {
    var numbers := FirstValues[..i];
    assert numbers == [1, 1, 2, 4, 5];
    StoredIs(numbers, Coord(-2, -1), 19, 0);
    StoredIs(numbers, Coord(-2, 0), 18, 0);
    StoredIs(numbers, Coord(-2, 1), 17, 0);
    StoredIs(numbers, Coord(-1, -1), 6, 0);
    StoredIs(numbers, Coord(-1, 1), 4, 5);
    StoredIs(numbers, Coord(0, -1), 7, 0);
    StoredIs(numbers, Coord(0, 0), 0, 1);
    StoredIs(numbers, Coord(0, 1), 3, 4);
    NeighbourSumIs(numbers, Coord(-1, 0), 10);
  }

  /** Square 7, at (-1, -1), is written 11, the neighbour sum of the 6 values before it. */
  lemma NeighbourSumOfSquareSeven(i: nat)
    requires i == 6
    ensures NeighbourSum(FirstValues[..i]) == FirstValues[i] == 11
  {
    var numbers := FirstValues[..i];
    assert numbers == [1, 1, 2, 4, 5, 10];
    StoredIs(numbers, Coord(-2, -2), 20, 0);
    StoredIs(numbers, Coord(-2, -1), 19, 0);
    StoredIs(numbers, Coord(-2, 0), 18, 0);
    StoredIs(numbers, Coord(-1, -2), 21, 0);
    StoredIs(numbers, Coord(-1, 0), 5, 10);
    StoredIs(numbers, Coord(0, -2), 22, 0);
    StoredIs(numbers, Coord(0, -1), 7, 0);
    StoredIs(numbers, Coord(0, 0), 0, 1);
    NeighbourSumIs(numbers, Coord(-1, -1), 11);
  }

  /** Square 8, at (0, -1), is written 23, the neighbour sum of the 7 values before it. */
  lemma NeighbourSumOfSquareEight(i: nat)
    requires i == 7
    ensures NeighbourSum(FirstValues[..i]) == FirstValues[i] == 23
  {
    var numbers := FirstValues[..i];
    assert numbers == [1, 1, 2, 4, 5, 10, 11];
    StoredIs(numbers, Coord(-1, -2), 21, 0);
    StoredIs(numbers, Coord(-1, -1), 6, 11);
    StoredIs(numbers, Coord(-1, 0), 5, 10);
    StoredIs(numbers, Coord(0, -2), 22, 0);
    StoredIs(numbers, Coord(0, 0), 0, 1);
    StoredIs(numbers, Coord(1, -2), 23, 0);
    StoredIs(numbers, Coord(1, -1), 8, 0);
    StoredIs(numbers, Coord(1, 0), 1, 1);
    NeighbourSumIs(numbers, Coord(0, -1), 23);
  }

  /** Square 9, at (1, -1), is written 25, the neighbour sum of the 8 values before it. */
  lemma NeighbourSumOfSquareNine(i: nat)
    requires i == 8
    ensures NeighbourSum(FirstValues[..i]) == FirstValues[i] == 25
  {
    var numbers := FirstValues[..i];
    assert numbers == [1, 1, 2, 4, 5, 10, 11, 23];
    StoredIs(numbers, Coord(0, -2), 22, 0);
    StoredIs(numbers, Coord(0, -1), 7, 23);
    StoredIs(numbers, Coord(0, 0), 0, 1);
    StoredIs(numbers, Coord(1, -2), 23, 0);
    StoredIs(numbers, Coord(1, 0), 1, 1);
    StoredIs(numbers, Coord(2, -2), 24, 0);
    StoredIs(numbers, Coord(2, -1), 9, 0);
    StoredIs(numbers, Coord(2, 0), 10, 0);
    NeighbourSumIs(numbers, Coord(1, -1), 25);
  }

  /** Square 10, at (2, -1), is written 26, the neighbour sum of the 9 values before it. */
  lemma NeighbourSumOfSquareTen(i: nat)
    requires i == 9
    ensures NeighbourSum(FirstValues[..i]) == FirstValues[i] == 26
  {
    var numbers := FirstValues[..i];
    assert numbers == [1, 1, 2, 4, 5, 10, 11, 23, 25];
    StoredIs(numbers, Coord(1, -2), 23, 0);
    StoredIs(numbers, Coord(1, -1), 8, 25);
    StoredIs(numbers, Coord(1, 0), 1, 1);
    StoredIs(numbers, Coord(2, -2), 24, 0);
    StoredIs(numbers, Coord(2, 0), 10, 0);
    StoredIs(numbers, Coord(3, -2), 25, 0);
    StoredIs(numbers, Coord(3, -1), 26, 0);
    StoredIs(numbers, Coord(3, 0), 27, 0);
    NeighbourSumIs(numbers, Coord(2, -1), 26);
  }

  /** Square 11, at (2, 0), is written 54, the neighbour sum of the 10 values before it. */
  lemma NeighbourSumOfSquareEleven(i: nat)
    requires i == 10
    ensures NeighbourSum(FirstValues[..i]) == FirstValues[i] == 54
  {
    var numbers := FirstValues[..i];
    assert numbers == [1, 1, 2, 4, 5, 10, 11, 23, 25, 26];
    StoredIs(numbers, Coord(1, -1), 8, 25);
    StoredIs(numbers, Coord(1, 0), 1, 1);
    StoredIs(numbers, Coord(1, 1), 2, 2);
    StoredIs(numbers, Coord(2, -1), 9, 26);
    StoredIs(numbers, Coord(2, 1), 11, 0);
    StoredIs(numbers, Coord(3, -1), 26, 0);
    StoredIs(numbers, Coord(3, 0), 27, 0);
    StoredIs(numbers, Coord(3, 1), 28, 0);
    NeighbourSumIs(numbers, Coord(2, 0), 54);
  }

  /** Square 12, at (2, 1), is written 57, the neighbour sum of the 11 values before it. */
  lemma NeighbourSumOfSquareTwelve(i: nat)
    requires i == 11
    ensures NeighbourSum(FirstValues[..i]) == FirstValues[i] == 57
  {
    var numbers := FirstValues[..i];
    assert numbers == [1, 1, 2, 4, 5, 10, 11, 23, 25, 26, 54];
    StoredIs(numbers, Coord(1, 0), 1, 1);
    StoredIs(numbers, Coord(1, 1), 2, 2);
    StoredIs(numbers, Coord(1, 2), 13, 0);
    StoredIs(numbers, Coord(2, 0), 10, 54);
    StoredIs(numbers, Coord(2, 2), 12, 0);
    StoredIs(numbers, Coord(3, 0), 27, 0);
    StoredIs(numbers, Coord(3, 1), 28, 0);
    StoredIs(numbers, Coord(3, 2), 29, 0);
    NeighbourSumIs(numbers, Coord(2, 1), 57);
  }

  /** Square 13, at (2, 2), is written 59, the neighbour sum of the 12 values before it. */
  lemma NeighbourSumOfSquareThirteen(i: nat)
    requires i == 12
    ensures NeighbourSum(FirstValues[..i]) == FirstValues[i] == 59
  {
    var numbers := FirstValues[..i];
    assert numbers == [1, 1, 2, 4, 5, 10, 11, 23, 25, 26, 54, 57];
    StoredIs(numbers, Coord(1, 1), 2, 2);
    StoredIs(numbers, Coord(1, 2), 13, 0);
    StoredIs(numbers, Coord(1, 3), 32, 0);
    StoredIs(numbers, Coord(2, 1), 11, 57);
    StoredIs(numbers, Coord(2, 3), 31, 0);
    StoredIs(numbers, Coord(3, 1), 28, 0);
    StoredIs(numbers, Coord(3, 2), 29, 0);
    StoredIs(numbers, Coord(3, 3), 30, 0);
    NeighbourSumIs(numbers, Coord(2, 2), 59);
  }

  /** Square 14, at (1, 2), is written 122, the neighbour sum of the 13 values before it. */
  lemma NeighbourSumOfSquareFourteen(i: nat)
    requires i == 13
    ensures NeighbourSum(FirstValues[..i]) == FirstValues[i] == 122
  {
    var numbers := FirstValues[..i];
    assert numbers == [1, 1, 2, 4, 5, 10, 11, 23, 25, 26, 54, 57, 59];
    StoredIs(numbers, Coord(0, 1), 3, 4);
    StoredIs(numbers, Coord(0, 2), 14, 0);
    StoredIs(numbers, Coord(0, 3), 33, 0);
    StoredIs(numbers, Coord(1, 1), 2, 2);
    StoredIs(numbers, Coord(1, 3), 32, 0);
    StoredIs(numbers, Coord(2, 1), 11, 57);
    StoredIs(numbers, Coord(2, 2), 12, 59);
    StoredIs(numbers, Coord(2, 3), 31, 0);
    NeighbourSumIs(numbers, Coord(1, 2), 122);
  }

  /** Square 15, at (0, 2), is written 133, the neighbour sum of the 14 values before it. */
  lemma NeighbourSumOfSquareFifteen(i: nat)
    requires i == 14
    ensures NeighbourSum(FirstValues[..i]) == FirstValues[i] == 133
  {
    var numbers := FirstValues[..i];
    assert numbers == [1, 1, 2, 4, 5, 10, 11, 23, 25, 26, 54, 57, 59, 122];
    StoredIs(numbers, Coord(-1, 1), 4, 5);
    StoredIs(numbers, Coord(-1, 2), 15, 0);
    StoredIs(numbers, Coord(-1, 3), 34, 0);
    StoredIs(numbers, Coord(0, 1), 3, 4);
    StoredIs(numbers, Coord(0, 3), 33, 0);
    StoredIs(numbers, Coord(1, 1), 2, 2);
    StoredIs(numbers, Coord(1, 2), 13, 122);
    StoredIs(numbers, Coord(1, 3), 32, 0);
    NeighbourSumIs(numbers, Coord(0, 2), 133);
  }

  /** Square 16, at (-1, 2), is written 142, the neighbour sum of the 15 values before it. */
  lemma NeighbourSumOfSquareSixteen(i: nat)
    requires i == 15
    ensures NeighbourSum(FirstValues[..i]) == FirstValues[i] == 142
  {
    var numbers := FirstValues[..i];
    assert numbers == [1, 1, 2, 4, 5, 10, 11, 23, 25, 26, 54, 57, 59, 122, 133];
    StoredIs(numbers, Coord(-2, 1), 17, 0);
    StoredIs(numbers, Coord(-2, 2), 16, 0);
    StoredIs(numbers, Coord(-2, 3), 35, 0);
    StoredIs(numbers, Coord(-1, 1), 4, 5);
    StoredIs(numbers, Coord(-1, 3), 34, 0);
    StoredIs(numbers, Coord(0, 1), 3, 4);
    StoredIs(numbers, Coord(0, 2), 14, 133);
    StoredIs(numbers, Coord(0, 3), 33, 0);
    NeighbourSumIs(numbers, Coord(-1, 2), 142);
  }

  /** Square 17, at (-2, 2), is written 147, the neighbour sum of the 16 values before it. */
  lemma NeighbourSumOfSquareSeventeen(i: nat)
    requires i == 16
    ensures NeighbourSum(FirstValues[..i]) == FirstValues[i] == 147
  {
    var numbers := FirstValues[..i];
    assert numbers == [1, 1, 2, 4, 5, 10, 11, 23, 25, 26, 54, 57, 59, 122, 133, 142];
    StoredIs(numbers, Coord(-3, 1), 38, 0);
    StoredIs(numbers, Coord(-3, 2), 37, 0);
    StoredIs(numbers, Coord(-3, 3), 36, 0);
    StoredIs(numbers, Coord(-2, 1), 17, 0);
    StoredIs(numbers, Coord(-2, 3), 35, 0);
    StoredIs(numbers, Coord(-1, 1), 4, 5);
    StoredIs(numbers, Coord(-1, 2), 15, 142);
    StoredIs(numbers, Coord(-1, 3), 34, 0);
    NeighbourSumIs(numbers, Coord(-2, 2), 147);
  }

  /** Square 18, at (-2, 1), is written 304, the neighbour sum of the 17 values before it. */
  lemma NeighbourSumOfSquareEighteen(i: nat)
    requires i == 17
    ensures NeighbourSum(FirstValues[..i]) == FirstValues[i] == 304
  {
    var numbers := FirstValues[..i];
    assert numbers == [1, 1, 2, 4, 5, 10, 11, 23, 25, 26, 54, 57, 59, 122, 133, 142, 147];
    StoredIs(numbers, Coord(-3, 0), 39, 0);
    StoredIs(numbers, Coord(-3, 1), 38, 0);
    StoredIs(numbers, Coord(-3, 2), 37, 0);
    StoredIs(numbers, Coord(-2, 0), 18, 0);
    StoredIs(numbers, Coord(-2, 2), 16, 147);
    StoredIs(numbers, Coord(-1, 0), 5, 10);
    StoredIs(numbers, Coord(-1, 1), 4, 5);
    StoredIs(numbers, Coord(-1, 2), 15, 142);
    NeighbourSumIs(numbers, Coord(-2, 1), 304);
  }

  /** Square 19, at (-2, 0), is written 330, the neighbour sum of the 18 values before it. */
  lemma NeighbourSumOfSquareNineteen(i: nat)
    requires i == 18
    ensures NeighbourSum(FirstValues[..i]) == FirstValues[i] == 330
  {
    var numbers := FirstValues[..i];
    assert numbers == [1, 1, 2, 4, 5, 10, 11, 23, 25, 26, 54, 57, 59, 122, 133, 142, 147, 304];
    StoredIs(numbers, Coord(-3, -1), 40, 0);
    StoredIs(numbers, Coord(-3, 0), 39, 0);
    StoredIs(numbers, Coord(-3, 1), 38, 0);
    StoredIs(numbers, Coord(-2, -1), 19, 0);
    StoredIs(numbers, Coord(-2, 1), 17, 304);
    StoredIs(numbers, Coord(-1, -1), 6, 11);
    StoredIs(numbers, Coord(-1, 0), 5, 10);
    StoredIs(numbers, Coord(-1, 1), 4, 5);
    NeighbourSumIs(numbers, Coord(-2, 0), 330);
  }

  /** Square 20, at (-2, -1), is written 351, the neighbour sum of the 19 values before it. */
  lemma NeighbourSumOfSquareTwenty(i: nat)
    requires i == 19
    ensures NeighbourSum(FirstValues[..i]) == FirstValues[i] == 351
  {
    var numbers := FirstValues[..i];
    assert numbers == [1, 1, 2, 4, 5, 10, 11, 23, 25, 26, 54, 57, 59, 122, 133, 142, 147, 304, 330];
    StoredIs(numbers, Coord(-3, -2), 41, 0);
    StoredIs(numbers, Coord(-3, -1), 40, 0);
    StoredIs(numbers, Coord(-3, 0), 39, 0);
    StoredIs(numbers, Coord(-2, -2), 20, 0);
    StoredIs(numbers, Coord(-2, 0), 18, 330);
    StoredIs(numbers, Coord(-1, -2), 21, 0);
    StoredIs(numbers, Coord(-1, -1), 6, 11);
    StoredIs(numbers, Coord(-1, 0), 5, 10);
    NeighbourSumIs(numbers, Coord(-2, -1), 351);
  }

  /** Square 21, at (-2, -2), is written 362, the neighbour sum of the 20 values before it. */
  lemma NeighbourSumOfSquareTwentyOne(i: nat)
    requires i == 20
    ensures NeighbourSum(FirstValues[..i]) == FirstValues[i] == 362
  {
    var numbers := FirstValues[..i];
    assert numbers == [1, 1, 2, 4, 5, 10, 11, 23, 25, 26, 54, 57, 59, 122, 133, 142, 147, 304, 330, 351];
    StoredIs(numbers, Coord(-3, -3), 42, 0);
    StoredIs(numbers, Coord(-3, -2), 41, 0);
    StoredIs(numbers, Coord(-3, -1), 40, 0);
    StoredIs(numbers, Coord(-2, -3), 43, 0);
    StoredIs(numbers, Coord(-2, -1), 19, 351);
    StoredIs(numbers, Coord(-1, -3), 44, 0);
    StoredIs(numbers, Coord(-1, -2), 21, 0);
    StoredIs(numbers, Coord(-1, -1), 6, 11);
    NeighbourSumIs(numbers, Coord(-2, -2), 362);
  }

  /** Square 22, at (-1, -2), is written 747, the neighbour sum of the 21 values before it. */
  lemma NeighbourSumOfSquareTwentyTwo(i: nat)
    requires i == 21
    ensures NeighbourSum(FirstValues[..i]) == FirstValues[i] == 747
  {
    var numbers := FirstValues[..i];
    assert numbers == [1, 1, 2, 4, 5, 10, 11, 23, 25, 26, 54, 57, 59, 122, 133, 142, 147, 304, 330, 351, 362];
    StoredIs(numbers, Coord(-2, -3), 43, 0);
    StoredIs(numbers, Coord(-2, -2), 20, 362);
    StoredIs(numbers, Coord(-2, -1), 19, 351);
    StoredIs(numbers, Coord(-1, -3), 44, 0);
    StoredIs(numbers, Coord(-1, -1), 6, 11);
    StoredIs(numbers, Coord(0, -3), 45, 0);
    StoredIs(numbers, Coord(0, -2), 22, 0);
    StoredIs(numbers, Coord(0, -1), 7, 23);
    NeighbourSumIs(numbers, Coord(-1, -2), 747);
  }

  /** Square 23, at (0, -2), is written 806, the neighbour sum of the 22 values before it. */
  lemma NeighbourSumOfSquareTwentyThree(i: nat)
    requires i == 22
    ensures NeighbourSum(FirstValues[..i]) == FirstValues[i] == 806
  {
    var numbers := FirstValues[..i];
    assert numbers == [1, 1, 2, 4, 5, 10, 11, 23, 25, 26, 54, 57, 59, 122, 133, 142, 147, 304, 330, 351, 362, 747];
    StoredIs(numbers, Coord(-1, -3), 44, 0);
    StoredIs(numbers, Coord(-1, -2), 21, 747);
    StoredIs(numbers, Coord(-1, -1), 6, 11);
    StoredIs(numbers, Coord(0, -3), 45, 0);
    StoredIs(numbers, Coord(0, -1), 7, 23);
    StoredIs(numbers, Coord(1, -3), 46, 0);
    StoredIs(numbers, Coord(1, -2), 23, 0);
    StoredIs(numbers, Coord(1, -1), 8, 25);
    NeighbourSumIs(numbers, Coord(0, -2), 806);
  }

  /** A sequence that starts with 1 and whose every later value is `next` of
      the values before it is what `Iterate` builds. */
  lemma {:induction false} IterateMatches(next: seq<int> -> int, values: seq<int>)
    requires |values| >= 1 && values[0] == 1
    requires forall i | 1 <= i < |values| :: next(values[..i]) == values[i]
    ensures Iterate(next, |values| - 1) == values
    decreases |values|
  {
    if |values| > 1 {
      var shorter := values[..|values| - 1];
      assert forall i | 1 <= i < |shorter| :: shorter[..i] == values[..i];
      IterateMatches(next, shorter);
      assert values == shorter + [values[|values| - 1]];
    }
  }

  /** The first twenty-three values written, up to 747 and 806. */
  lemma WrittenFirstValues(k: nat)
    requires k == 22
    ensures Written(k) == FirstValues
  {
    forall i | 1 <= i < |FirstValues|
      ensures NeighbourSum(FirstValues[..i]) == FirstValues[i]
    {
      if i == 1 {
        NeighbourSumOfSquareTwo(i);
      } else if i == 2 {
        NeighbourSumOfSquareThree(i);
      } else if i == 3 {
        NeighbourSumOfSquareFour(i);
      } else if i == 4 {
        NeighbourSumOfSquareFive(i);
      } else if i == 5 {
        NeighbourSumOfSquareSix(i);
      } else if i == 6 {
        NeighbourSumOfSquareSeven(i);
      } else if i == 7 {
        NeighbourSumOfSquareEight(i);
      } else if i == 8 {
        NeighbourSumOfSquareNine(i);
      } else if i == 9 {
        NeighbourSumOfSquareTen(i);
      } else if i == 10 {
        NeighbourSumOfSquareEleven(i);
      } else if i == 11 {
        NeighbourSumOfSquareTwelve(i);
      } else if i == 12 {
        NeighbourSumOfSquareThirteen(i);
      } else if i == 13 {
        NeighbourSumOfSquareFourteen(i);
      } else if i == 14 {
        NeighbourSumOfSquareFifteen(i);
      } else if i == 15 {
        NeighbourSumOfSquareSixteen(i);
      } else if i == 16 {
        NeighbourSumOfSquareSeventeen(i);
      } else if i == 17 {
        NeighbourSumOfSquareEighteen(i);
      } else if i == 18 {
        NeighbourSumOfSquareNineteen(i);
      } else if i == 19 {
        NeighbourSumOfSquareTwenty(i);
      } else if i == 20 {
        NeighbourSumOfSquareTwentyOne(i);
      } else if i == 21 {
        NeighbourSumOfSquareTwentyTwo(i);
      } else {
        NeighbourSumOfSquareTwentyThree(i);
      }
    }
    IterateMatches(NeighbourSum, FirstValues);
  }

  /** Only the last of the first values exceeds 747. */
  lemma FirstValuesBelow747()
    ensures forall j | 0 <= j < |FirstValues| - 1 :: FirstValues[j] <= 747
  {
  }

  /** The worked example: 806 is the first value written that is larger than 747. */
  lemma FirstLargerThan747(k: nat)
    requires k == 22
    ensures Term(k) == 806
    ensures forall j | 1 <= j < k :: Term(j) <= 747
  {
    WrittenFirstValues(k);
    FirstValuesBelow747();
    forall j | 1 <= j < k
      ensures Term(j) <= 747
    {
      IteratePrefix(NeighbourSum, j, k);
      assert Term(j) == FirstValues[j];
    }
  }

  /** `find_first_larger(747)`, with fuel for the 22 values it writes, returns 806. */
  method FindFirstLargerThan747() returns (r: Option<int>)
    ensures r == Some(806)
  {
    var k := 22;
    r := FindFirstLarger(747, k);
    FirstLargerThan747(k);
    if r.Some? {
      var j :| 1 <= j <= k && Term(j) == r.value && (forall i | 1 <= i < j :: Term(i) <= 747);
    }
  }
}
