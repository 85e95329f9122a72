/** Fractal art. A picture is a square of pixels that are on or off, stored row after
    row in a flat list. Each enhancement cuts the picture into 2x2 blocks (when its size
    is even) or 3x3 blocks (when its size is a multiple of 3) and replaces every block by
    the output of the rule whose input equals the block up to rotation and flipping, so
    a picture of size n grows to size n + n / divisor. */
module Fractal {
  import opened Common

  // ---------------------------------------------------------------------
  // Flat layout
  //
  // Positions are computed with `Mul`, `Div` and `Mod`: multiplication and division with
  // remainder written out as recursion, so that reasoning about positions only ever
  // unfolds them. `MulIsTimes` and `DivModAre` say they are `*`, `/` and `%`.

  function Mul(a: nat, b: nat): nat {
    if a == 0 then 0 else Mul(a - 1, b) + b
  }

  function Div(k: nat, n: nat): nat
    requires 0 < n
  {
    if k < n then 0 else Div(k - n, n) + 1
  }

  function Mod(k: nat, n: nat): nat
    requires 0 < n
  {
    if k < n then k else Mod(k - n, n)
  }

  lemma {:induction false} MulIsTimes(a: nat, b: nat)
    ensures Mul(a, b) == a * b
  {
    if a > 0 {
      MulIsTimes(a - 1, b);
      assert a * b == (a - 1) * b + b;
    }
  }

  lemma {:induction false} MulSucc(a: nat, b: nat)
    ensures Mul(a, b + 1) == Mul(a, b) + a
  {
    if a > 0 {
      MulSucc(a - 1, b);
    }
  }

  lemma {:induction false} MulMono(a: nat, b: nat, n: nat)
    requires a <= b
    ensures Mul(a, n) <= Mul(b, n)
    decreases b - a
  {
    if a < b {
      MulMono(a, b - 1, n);
    }
  }

  lemma {:induction false} MulCancel(a: nat, b: nat, n: nat)
    requires Mul(a, n) < Mul(b, n)
    ensures a < b
  {
    if b <= a {
      MulMono(b, a, n);
    }
  }

  lemma {:induction false} MulComm(a: nat, b: nat)
    ensures Mul(a, b) == Mul(b, a)
  {
    MulIsTimes(a, b);
    MulIsTimes(b, a);
  }

  /** `k` is `Div(k, n)` times `n` plus a remainder `Mod(k, n)` below `n`. */
  lemma {:induction false} DivMod(k: nat, n: nat)
    requires 0 < n
    ensures Mod(k, n) < n && k == Mul(Div(k, n), n) + Mod(k, n)
    decreases k
  {
    if k >= n {
      DivMod(k - n, n);
    }
  }

  /** ... and no other quotient and remainder give `k`. */
  lemma {:induction false} DivModUnique(k: nat, n: nat, q: nat, r: nat)
    requires r < n && k == Mul(q, n) + r
    ensures Div(k, n) == q && Mod(k, n) == r
    decreases q
  {
    if q > 0 {
      DivModUnique(k - n, n, q - 1, r);
    }
  }

  lemma {:induction false} DivModAre(k: nat, n: nat)
    requires 0 < n
    ensures Div(k, n) == k / n && Mod(k, n) == k % n
  {
    DivMod(k, n);
    MulIsTimes(Div(k, n), n);
    ModUnique(k, n, Div(k, n), Mod(k, n));
  }

  /** The pixels of a picture, row after row. */
  type Grid = seq<bool>

  /** A picture of `n` rows of `n` pixels. */
  predicate Square(p: Grid, n: nat) {
    |p| == Mul(n, n)
  }

  /** Where pixel (r, c) lives in the flat list (`row * size + column`). */
  function Index(n: nat, r: nat, c: nat): nat {
    Mul(r, n) + c
  }

  /** Inside the picture, the flat index determines the row and the column. */
  lemma {:induction false} IndexOf(n: nat, r: nat, c: nat)
    requires r < n && c < n
    ensures Index(n, r, c) < Mul(n, n)
    ensures Div(Index(n, r, c), n) == r && Mod(Index(n, r, c), n) == c
  {
    MulMono(r + 1, n, n);
    DivModUnique(Index(n, r, c), n, r, c);
  }

  /** Every flat index inside the picture is a pixel's. */
  lemma {:induction false} IndexSplit(n: nat, k: nat)
    requires k < Mul(n, n)
    ensures 0 < n && Div(k, n) < n && Mod(k, n) < n && Index(n, Div(k, n), Mod(k, n)) == k
  {
    assert 0 < n;
    DivMod(k, n);
    MulCancel(Div(k, n), n, n);
  }

  /** `int(math.sqrt(m))` on an exact integer: the largest `r` with `r * r <= m`. */
  function Isqrt(m: nat): (r: nat)
    ensures Mul(r, r) <= m < Mul(r + 1, r + 1)
  {
    if m == 0 then 0
    else
      var s := Isqrt(m - 1);
      MulSucc(s + 1, s + 1);
      if Mul(s + 1, s + 1) <= m then s + 1 else s
  }

  lemma {:induction false} SquareLe(a: nat, b: nat)
    requires a <= b
    ensures Mul(a, a) <= Mul(b, b)
  {
    MulMono(a, b, a);
    MulMono(a, b, b);
    MulComm(a, b);
  }

  lemma {:induction false} IsqrtSquare(n: nat)
    ensures Isqrt(Mul(n, n)) == n
  {
    var r := Isqrt(Mul(n, n));
    if r < n {
      SquareLe(r + 1, n);
    } else if r > n {
      SquareLe(n + 1, r);
      MulSucc(n, n);
    }
  }

  /** `get(row, column)` on a square picture. */
  function Cell(p: Grid, n: nat, r: nat, c: nat): bool
    requires Square(p, n) && r < n && c < n
  {
    IndexOf(n, r, c);
    p[Index(n, r, c)]
  }

  /** Two pictures of the same size are equal when every pixel is. */
  lemma {:induction false} SameCells(p: Grid, q: Grid, n: nat)
    requires Square(p, n) && Square(q, n)
    requires forall r: nat, c: nat | r < n && c < n :: Cell(p, n, r, c) == Cell(q, n, r, c)
    ensures p == q
  {
    forall k | 0 <= k < |p|
      ensures p[k] == q[k]
    {
      IndexSplit(n, k);
      assert Cell(p, n, Div(k, n), Mod(k, n)) == Cell(q, n, Div(k, n), Mod(k, n));
    }
  }

  // ---------------------------------------------------------------------
  // Orientations

  /** One of the eight symmetries of the square: the pixel shown at (r, c) is the one at
      (r, c) of the original, first transposed when `transpose`, then with the row and/or
      the column counted from the other side. */
  datatype Sym = Sym(transpose: bool, reverseRows: bool, reverseColumns: bool)

  /** `flip_horizontal`: pixel (i, j) moves to (i, size - j - 1). */
  const MirrorColumns := Sym(false, false, true)
  /** `flip_vertical`: pixel (i, j) moves to (size - i - 1, j). */
  const MirrorRows := Sym(false, true, false)
  /** `rotate_ccw`: pixel (i, j) moves to (size - j - 1, i). */
  const QuarterTurn := Sym(true, false, true)
  const Identity := Sym(false, false, false)

  /** The original pixel shown at (r, c). */
  function Src(s: Sym, n: nat, r: nat, c: nat): (src: (nat, nat))
    requires r < n && c < n
    ensures src.0 < n && src.1 < n
  {
    var (a, b) := if s.transpose then (c, r) else (r, c);
    (if s.reverseRows then n - 1 - a else a, if s.reverseColumns then n - 1 - b else b)
  }

  /** Where the pixel at (i, j) goes: the position that shows it. */
  function Dest(s: Sym, n: nat, i: nat, j: nat): (dst: (nat, nat))
    requires i < n && j < n
    ensures dst.0 < n && dst.1 < n && Src(s, n, dst.0, dst.1) == (i, j)
  {
    var a := if s.reverseRows then n - 1 - i else i;
    var b := if s.reverseColumns then n - 1 - j else j;
    if s.transpose then (b, a) else (a, b)
  }

  /** Different pixels show different originals. */
  lemma {:induction false} SrcInjective(s: Sym, n: nat, r: nat, c: nat, r': nat, c': nat)
    requires r < n && c < n && r' < n && c' < n
    requires Src(s, n, r, c) == Src(s, n, r', c')
    ensures r == r' && c == c'
  {
  }

  function SrcCell(s: Sym, p: Grid, n: nat, k: nat): bool
    requires Square(p, n) && k < Mul(n, n)
  {
    IndexSplit(n, k);
    var src := Src(s, n, Div(k, n), Mod(k, n));
    Cell(p, n, src.0, src.1)
  }

  /** The picture `p` seen through the symmetry `s`. */
  function Apply(s: Sym, p: Grid, n: nat): (q: Grid)
    requires Square(p, n)
    ensures Square(q, n)
  {
    seq(Mul(n, n), k requires 0 <= k < Mul(n, n) => SrcCell(s, p, n, k))
  }

  lemma {:induction false} ApplyCell(s: Sym, p: Grid, n: nat, r: nat, c: nat)
    requires Square(p, n) && r < n && c < n
    ensures Cell(Apply(s, p, n), n, r, c) == Cell(p, n, Src(s, n, r, c).0, Src(s, n, r, c).1)
  {
    IndexOf(n, r, c);
  }

  /** Applying `s`, then `t`, is applying `Then(s, t)`. */
  function Then(s: Sym, t: Sym): Sym {
    Sym(s.transpose != t.transpose,
        s.reverseRows != (if s.transpose then t.reverseColumns else t.reverseRows),
        s.reverseColumns != (if s.transpose then t.reverseRows else t.reverseColumns))
  }

  /** The symmetry that undoes `s`. */
  function Inverse(s: Sym): Sym {
    if s.transpose then Sym(true, s.reverseColumns, s.reverseRows) else s
  }

  lemma {:induction false} SrcThen(s: Sym, t: Sym, n: nat, r: nat, c: nat)
    requires r < n && c < n
    ensures Src(Then(s, t), n, r, c) == Src(s, n, Src(t, n, r, c).0, Src(t, n, r, c).1)
  {
  }

  lemma {:induction false} ApplyThen(s: Sym, t: Sym, p: Grid, n: nat)
    requires Square(p, n)
    ensures Apply(t, Apply(s, p, n), n) == Apply(Then(s, t), p, n)
  {
    var q := Apply(t, Apply(s, p, n), n);
    forall r: nat, c: nat | r < n && c < n
      ensures Cell(q, n, r, c) == Cell(Apply(Then(s, t), p, n), n, r, c)
    {
      var (a, b) := Src(t, n, r, c);
      ApplyCell(t, Apply(s, p, n), n, r, c);
      ApplyCell(s, p, n, a, b);
      ApplyCell(Then(s, t), p, n, r, c);
      SrcThen(s, t, n, r, c);
    }
    SameCells(q, Apply(Then(s, t), p, n), n);
  }

  lemma {:induction false} ApplyIdentity(p: Grid, n: nat)
    requires Square(p, n)
    ensures Apply(Identity, p, n) == p
  {
    forall r: nat, c: nat | r < n && c < n
      ensures Cell(Apply(Identity, p, n), n, r, c) == Cell(p, n, r, c)
    {
      ApplyCell(Identity, p, n, r, c);
    }
    SameCells(Apply(Identity, p, n), p, n);
  }

  /** Both flips undo themselves, and four quarter turns are no turn at all. */
  lemma {:induction false} FlipsAndTurns(p: Grid, n: nat)
    requires Square(p, n)
    ensures Apply(MirrorColumns, Apply(MirrorColumns, p, n), n) == p
    ensures Apply(MirrorRows, Apply(MirrorRows, p, n), n) == p
    ensures var r1 := Apply(QuarterTurn, p, n);
      var r2 := Apply(QuarterTurn, r1, n);
      var r3 := Apply(QuarterTurn, r2, n);
      Apply(QuarterTurn, r3, n) == p
  {
    ApplyThen(MirrorColumns, MirrorColumns, p, n);
    ApplyThen(MirrorRows, MirrorRows, p, n);
    var r1 := Apply(QuarterTurn, p, n);
    ApplyThen(QuarterTurn, QuarterTurn, p, n);
    var half := Then(QuarterTurn, QuarterTurn);
    ApplyThen(half, QuarterTurn, p, n);
    ApplyThen(Then(half, QuarterTurn), QuarterTurn, p, n);
    assert Then(Then(half, QuarterTurn), QuarterTurn) == Identity;
    ApplyIdentity(p, n);
  }

  lemma {:induction false} ApplyInverse(s: Sym, p: Grid, n: nat)
    requires Square(p, n)
    ensures Apply(Inverse(s), Apply(s, p, n), n) == p
  {
    ApplyThen(s, Inverse(s), p, n);
    assert Then(s, Inverse(s)) == Identity;
    ApplyIdentity(p, n);
  }

  /** The eight patterns a rule's input stands for, in the order the rule lists them. */
  function Orientations(p: Grid, n: nat): seq<Grid>
    requires Square(p, n)
  {
    var r90 := Apply(QuarterTurn, p, n);
    var r180 := Apply(QuarterTurn, r90, n);
    var r270 := Apply(QuarterTurn, r180, n);
    [p, Apply(MirrorColumns, p, n), Apply(MirrorRows, p, n),
     r90, Apply(MirrorColumns, r90, n), Apply(MirrorRows, r90, n),
     r180, r270]
  }

  /** The symmetries behind the eight listed orientations, in their order. */
  const Symmetries := [Identity, MirrorColumns, MirrorRows, QuarterTurn,
                       Sym(true, true, true), Sym(true, false, false),
                       Sym(false, true, true), Sym(true, true, false)]

  lemma {:induction false} OrientationsList(p: Grid, n: nat)
    requires Square(p, n)
    ensures |Orientations(p, n)| == 8
    ensures forall i | 0 <= i < 8 :: Orientations(p, n)[i] == Apply(Symmetries[i], p, n)
  {
    ApplyIdentity(p, n);
    ApplyThen(QuarterTurn, MirrorColumns, p, n);
    ApplyThen(QuarterTurn, MirrorRows, p, n);
    ApplyThen(QuarterTurn, QuarterTurn, p, n);
    ApplyThen(Then(QuarterTurn, QuarterTurn), QuarterTurn, p, n);
  }

  lemma {:induction false} SymmetriesAll(s: Sym)
    ensures s in Symmetries
  {
  }

  /** The eight listed patterns are exactly the images of `p` under the eight symmetries. */
  lemma {:induction false} OrientationsAreSymmetries(p: Grid, n: nat, q: Grid)
    requires Square(p, n)
    ensures q in Orientations(p, n) <==> exists s :: q == Apply(s, p, n)
  {
    OrientationsList(p, n);
    if exists s :: q == Apply(s, p, n) {
      var s :| q == Apply(s, p, n);
      SymmetriesAll(s);
      var i :| 0 <= i < 8 && Symmetries[i] == s;
      assert q == Orientations(p, n)[i];
    }
  }

  /** Rotating or flipping a pattern keeps it among the orientations of `p`, and only a
      pattern among them gets there. */
  lemma {:induction false} OrientationsClosed(p: Grid, n: nat, q: Grid, t: Sym)
    requires Square(p, n) && Square(q, n)
    ensures Apply(t, q, n) in Orientations(p, n) <==> q in Orientations(p, n)
  {
    OrientationsAreSymmetries(p, n, q);
    OrientationsAreSymmetries(p, n, Apply(t, q, n));
    if q in Orientations(p, n) {
      var s :| q == Apply(s, p, n);
      ApplyThen(s, t, p, n);
    }
    if Apply(t, q, n) in Orientations(p, n) {
      var s :| Apply(t, q, n) == Apply(s, p, n);
      ApplyInverse(t, q, n);
      ApplyThen(s, Inverse(t), p, n);
    }
  }

  // ---------------------------------------------------------------------
  // Counting pixels

  function Bit(b: bool): nat {
    if b then 1 else 0
  }

  /** The number of pixels on among the first `i`. */
  function CountPrefix(p: Grid, i: nat): (k: nat)
    requires i <= |p|
    ensures k <= i
  {
    if i == 0 then 0 else CountPrefix(p, i - 1) + Bit(p[i - 1])
  }

  /** `len([x for x in pattern if x])`. */
  function CountOn(p: Grid): nat {
    CountPrefix(p, |p|)
  }

  function OnSet(p: Grid, i: nat): set<int>
    requires i <= |p|
  {
    set k | 0 <= k < i && p[k]
  }

  lemma {:induction false} CountIsCard(p: Grid, i: nat)
    requires i <= |p|
    ensures CountPrefix(p, i) == |OnSet(p, i)|
  {
    if i > 0 {
      CountIsCard(p, i - 1);
      if p[i - 1] {
        assert OnSet(p, i) == OnSet(p, i - 1) + {i - 1};
      } else {
        assert OnSet(p, i) == OnSet(p, i - 1);
      }
    }
  }

  function Image(q: Grid, i: nat, f: int -> int): set<int>
    requires i <= |q|
  {
    set k | k in OnSet(q, i) :: f(k)
  }

  lemma {:induction false} ImageStepOn(q: Grid, i: nat, f: int -> int, g: int -> int)
    requires 0 < i <= |q| && q[i - 1]
    requires forall k | 0 <= k < |q| :: g(f(k)) == k
    ensures |Image(q, i, f)| == |Image(q, i - 1, f)| + 1
  {
    assert OnSet(q, i) == OnSet(q, i - 1) + {i - 1};
    assert f(i - 1) !in Image(q, i - 1, f);
    assert Image(q, i, f) == Image(q, i - 1, f) + {f(i - 1)};
  }

  lemma {:induction false} ImageStep(q: Grid, i: nat, f: int -> int, g: int -> int)
    requires 0 < i <= |q|
    requires forall k | 0 <= k < |q| :: g(f(k)) == k
    ensures |Image(q, i, f)| - |Image(q, i - 1, f)| == |OnSet(q, i)| - |OnSet(q, i - 1)|
  {
    if q[i - 1] {
      ImageStepOn(q, i, f, g);
      assert OnSet(q, i) == OnSet(q, i - 1) + {i - 1};
    } else {
      assert OnSet(q, i) == OnSet(q, i - 1);
      assert Image(q, i, f) == Image(q, i - 1, f);
    }
  }

  /** An injective map keeps the number of pixels on among the first `i`. */
  lemma {:induction false} ImageCard(q: Grid, i: nat, f: int -> int, g: int -> int)
    requires i <= |q|
    requires forall k | 0 <= k < |q| :: g(f(k)) == k
    ensures |Image(q, i, f)| == |OnSet(q, i)|
  {
    if i > 0 {
      ImageCard(q, i - 1, f, g);
      ImageStep(q, i, f, g);
    } else {
      assert OnSet(q, i) == {};
      assert Image(q, i, f) == {};
    }
  }

  /** A picture whose pixels are those of `p` rearranged has as many pixels on. */
  lemma {:induction false} CountPermuted(p: Grid, q: Grid, f: int -> int, g: int -> int)
    requires |p| == |q|
    requires forall k | 0 <= k < |q| :: 0 <= f(k) < |p| && q[k] == p[f(k)] && g(f(k)) == k
    requires forall k | 0 <= k < |p| :: 0 <= g(k) < |q| && f(g(k)) == k
    ensures CountOn(q) == CountOn(p)
  {
    var onQ := OnSet(q, |q|);
    assert OnSet(p, |p|) == Image(q, |q|, f) by {
      forall x | x in OnSet(p, |p|)
        ensures x in Image(q, |q|, f)
      {
        assert g(x) in onQ;
      }
    }
    ImageCard(q, |q|, f, g);
    CountIsCard(p, |p|);
    CountIsCard(q, |q|);
  }

  /** The flat index of the original pixel shown at flat index `k`. */
  function SrcIndex(s: Sym, n: nat, k: int): int {
    if 0 <= k < Mul(n, n) then
      IndexSplit(n, k);
      var src := Src(s, n, Div(k, n), Mod(k, n));
      Index(n, src.0, src.1)
    else 0
  }

  lemma {:induction false} SrcIndexInverse(s: Sym, n: nat, k: nat)
    requires k < Mul(n, n)
    ensures 0 <= SrcIndex(s, n, k) < Mul(n, n)
    ensures SrcIndex(Inverse(s), n, SrcIndex(s, n, k)) == k
  {
    IndexSplit(n, k);
    var (a, b) := Src(s, n, Div(k, n), Mod(k, n));
    IndexOf(n, a, b);
    SrcThen(Inverse(s), s, n, Div(k, n), Mod(k, n));
    assert Then(Inverse(s), s) == Identity;
  }

  /** Rotating or flipping keeps the number of pixels on. */
  lemma {:induction false} ApplyCount(s: Sym, p: Grid, n: nat)
    requires Square(p, n)
    ensures CountOn(Apply(s, p, n)) == CountOn(p)
  {
    var f := k => SrcIndex(s, n, k);
    var g := k => SrcIndex(Inverse(s), n, k);
    var q := Apply(s, p, n);
    forall k | 0 <= k < |q|
      ensures 0 <= f(k) < |p| && q[k] == p[f(k)] && g(f(k)) == k
    {
      SrcIndexInverse(s, n, k);
    }
    forall k | 0 <= k < |p|
      ensures 0 <= g(k) < |q| && f(g(k)) == k
    {
      SrcIndexInverse(Inverse(s), n, k);
      assert Inverse(Inverse(s)) == s;
    }
    CountPermuted(p, q, f, g);
  }

  // ---------------------------------------------------------------------
  // Hashing and rules

  /** The first `i` pixels read as a binary number, the first pixel most significant. */
  function HashPrefix(p: Grid, i: nat): nat
    requires i <= |p|
  {
    if i == 0 then 0 else HashPrefix(p, i - 1) * 2 + Bit(p[i - 1])
  }

  /** `hash()`: all pixels as one binary number. */
  function HashOf(p: Grid): nat {
    HashPrefix(p, |p|)
  }

  function Pow2(e: nat): nat {
    if e == 0 then 1 else 2 * Pow2(e - 1)
  }

  lemma {:induction false} HashPrefixBound(p: Grid, i: nat)
    requires i <= |p|
    ensures HashPrefix(p, i) < Pow2(i)
  {
    if i > 0 {
      HashPrefixBound(p, i - 1);
    }
  }

  /** The first pixel is the most significant bit. */
  lemma {:induction false} HashFirstBit(p: Grid, i: nat)
    requires 0 < i <= |p|
    ensures HashPrefix(p, i) == Bit(p[0]) * Pow2(i - 1) + HashPrefix(p[1..], i - 1)
  {
    if i > 1 {
      HashFirstBit(p, i - 1);
    }
  }

  /** Pictures with the same number of pixels have the same hash exactly when equal. */
  lemma {:induction false} HashPrefixInjective(p: Grid, q: Grid, i: nat)
    requires i <= |p| && i <= |q|
    ensures HashPrefix(p, i) == HashPrefix(q, i) <==> p[..i] == q[..i]
  {
    if i > 0 {
      HashPrefixInjective(p, q, i - 1);
      assert p[..i] == p[..i - 1] + [p[i - 1]];
      assert q[..i] == q[..i - 1] + [q[i - 1]];
      if p[..i] == q[..i] {
        assert p[..i - 1] == q[..i - 1] && p[i - 1] == q[i - 1];
      }
    }
  }

  lemma {:induction false} HashInjective(p: Grid, q: Grid)
    requires |p| == |q|
    ensures HashOf(p) == HashOf(q) <==> p == q
  {
    HashPrefixInjective(p, q, |p|);
    assert p[..|p|] == p && q[..|q|] == q;
  }

  /** The hashes of a list of pictures. */
  function HashSet(ps: seq<Grid>): set<int> {
    set i | 0 <= i < |ps| :: HashOf(ps[i])
  }

  lemma {:induction false} HashSetSnoc(ps: seq<Grid>, i: nat)
    requires i < |ps|
    ensures HashSet(ps[..i + 1]) == HashSet(ps[..i]) + {HashOf(ps[i])}
  {
    var a, b := ps[..i + 1], ps[..i];
    assert a[i] == ps[i];
    forall h | h in HashSet(a)
      ensures h in HashSet(b) + {HashOf(ps[i])}
    {
      var k :| 0 <= k < |a| && HashOf(a[k]) == h;
      if k < i {
        assert a[k] == b[k];
      }
    }
    forall h | h in HashSet(b)
      ensures h in HashSet(a)
    {
      var k :| 0 <= k < |b| && HashOf(b[k]) == h;
      assert a[k] == b[k];
    }
  }

  /** A parsed enhancement rule: its output pattern, the size of its input pattern and
      the hashes of the eight orientations of its input. */
  datatype Rule = Rule(outPattern: Grid, size: nat, inPatternHashes: set<int>)

  /** The rule built from an input and an output pattern. */
  function RuleFor(inPattern: Grid, size: nat, outPattern: Grid): Rule
    requires Square(inPattern, size)
  {
    Rule(outPattern, size, HashSet(Orientations(inPattern, size)))
  }

  /** `match`: the pattern's hash is among the rule's. */
  predicate Match(rule: Rule, q: Grid) {
    HashOf(q) in rule.inPatternHashes
  }

  /** On patterns of the rule's size, a rule matches exactly the rotations and flips of
      its input. */
  lemma {:induction false} MatchOrientations(inPattern: Grid, n: nat, outPattern: Grid, q: Grid)
    requires Square(inPattern, n) && Square(q, n)
    ensures Match(RuleFor(inPattern, n, outPattern), q) <==> exists s :: q == Apply(s, inPattern, n)
  {
    var os := Orientations(inPattern, n);
    OrientationsAreSymmetries(inPattern, n, q);
    if Match(RuleFor(inPattern, n, outPattern), q) {
      assert HashOf(q) in HashSet(os);
      var i :| 0 <= i < |os| && HashOf(os[i]) == HashOf(q);
      OrientationsAreSymmetries(inPattern, n, os[i]);
      var s :| os[i] == Apply(s, inPattern, n);
      HashInjective(os[i], q);
    }
    if q in os {
      var i :| 0 <= i < |os| && os[i] == q;
      assert HashOf(os[i]) in HashSet(os);
    }
  }

  /** Hence whether a rule matches does not change when the pattern is rotated or flipped. */
  lemma {:induction false} MatchInvariant(inPattern: Grid, n: nat, outPattern: Grid, q: Grid, t: Sym)
    requires Square(inPattern, n) && Square(q, n)
    ensures Match(RuleFor(inPattern, n, outPattern), Apply(t, q, n)) ==
            Match(RuleFor(inPattern, n, outPattern), q)
  {
    MatchOrientations(inPattern, n, outPattern, q);
    MatchOrientations(inPattern, n, outPattern, Apply(t, q, n));
    OrientationsAreSymmetries(inPattern, n, q);
    OrientationsAreSymmetries(inPattern, n, Apply(t, q, n));
    OrientationsClosed(inPattern, n, q, t);
  }

  // ---------------------------------------------------------------------
  // Blocks

  /** `get_divisor` on a picture of size `n`: 2 when `n` is even, otherwise 3 when it is a
      multiple of 3, otherwise none (the source raises). */
  function DivisorOf(n: nat): (d: Option<nat>)
    ensures d.Some? <==> n % 2 == 0 || n % 3 == 0
    ensures d.Some? ==> (d.value == 2 || d.value == 3) && n % d.value == 0
    ensures d == Some(3) ==> n % 2 != 0
  {
    if n % 2 == 0 then Some(2) else if n % 3 == 0 then Some(3) else None
  }

  /** Block (R, C) of size `d` lies inside a picture of size `n`. */
  predicate BlockFits(n: nat, d: nat, R: nat, C: nat) {
    0 < d && Mul(R + 1, d) <= n && Mul(C + 1, d) <= n
  }

  lemma {:induction false} BlockInside(n: nat, d: nat, R: nat, C: nat, r: nat, c: nat)
    requires BlockFits(n, d, R, C) && r < d && c < d
    ensures Mul(R, d) + r < n && Mul(C, d) + c < n
  {
  }

  function BlockCell(p: Grid, n: nat, d: nat, R: nat, C: nat, k: nat): bool
    requires Square(p, n) && BlockFits(n, d, R, C) && k < Mul(d, d)
  {
    IndexSplit(d, k);
    BlockInside(n, d, R, C, Div(k, d), Mod(k, d));
    Cell(p, n, Mul(R, d) + Div(k, d), Mul(C, d) + Mod(k, d))
  }

  /** Block (R, C) of size `d`: rows `R * d` to `R * d + d - 1`, columns likewise. */
  function Block(p: Grid, n: nat, d: nat, R: nat, C: nat): (b: Grid)
    requires Square(p, n) && BlockFits(n, d, R, C)
    ensures Square(b, d)
  {
    seq(Mul(d, d), k requires 0 <= k < Mul(d, d) => BlockCell(p, n, d, R, C, k))
  }

  lemma {:induction false} BlockCellAt(p: Grid, n: nat, d: nat, R: nat, C: nat, r: nat, c: nat)
    requires Square(p, n) && BlockFits(n, d, R, C) && r < d && c < d
    ensures Mul(R, d) + r < n && Mul(C, d) + c < n
    ensures Cell(Block(p, n, d, R, C), d, r, c) == Cell(p, n, Mul(R, d) + r, Mul(C, d) + c)
  {
    IndexOf(d, r, c);
    BlockInside(n, d, R, C, r, c);
  }

  /** The source's `start` of row `i` of block (R, C) is the flat index of its first pixel. */
  lemma {:induction false} RowStart(n: nat, d: nat, R: nat, C: nat, i: nat)
    ensures R * n * d + C * d + i * n == Index(n, Mul(R, d) + i, Mul(C, d))
  {
    MulIsTimes(R, d);
    MulIsTimes(C, d);
    MulIsTimes(Mul(R, d) + i, n);
    assert (R * d + i) * n == R * d * n + i * n;
    assert R * n * d == R * d * n;
  }

  /** Row `i` of a block is a slice of the picture. */
  lemma {:induction false} BlockRow(p: Grid, n: nat, d: nat, R: nat, C: nat, i: nat, start: nat)
    requires Square(p, n) && BlockFits(n, d, R, C) && i < d
    requires start == Index(n, Mul(R, d) + i, Mul(C, d))
    ensures start + d <= |p| && Mul(i + 1, d) <= Mul(d, d)
    ensures Block(p, n, d, R, C)[Mul(i, d)..Mul(i + 1, d)] == p[start..start + d]
  {
    BlockInside(n, d, R, C, i, d - 1);
    IndexOf(n, Mul(R, d) + i, Mul(C, d) + d - 1);
    MulMono(i + 1, d, d);
    var b := Block(p, n, d, R, C);
    var a := Mul(i, d);
    assert Mul(i + 1, d) == a + d;
    forall j | a <= j < a + d
      ensures b[j] == p[start + (j - a)]
    {
      BlockRowCell(p, n, d, R, C, i, j - a);
    }
    SliceEq(b, p, a, start, d);
  }

  /** Two slices agreeing pixel by pixel. */
  lemma {:induction false} SliceEq(b: Grid, p: Grid, a: nat, s: nat, d: nat)
    requires a + d <= |b| && s + d <= |p|
    requires forall j | a <= j < a + d :: b[j] == p[s + (j - a)]
    ensures b[a..a + d] == p[s..s + d]
  {
    var x, y := b[a..a + d], p[s..s + d];
    forall k | 0 <= k < d
      ensures x[k] == y[k]
    {
      assert x[k] == b[a + k] && y[k] == p[s + (a + k - a)];
    }
  }

  /** Putting row `a..b` of `block` into `q`, which already agrees with it before `a`,
      makes them agree up to `b`. */
  lemma {:induction false} Splice(q: Grid, block: Grid, row: Grid, a: nat, b: nat)
    requires a <= b <= |q| && b <= |block| && b == a + |row|
    requires q[..a] == block[..a] && block[a..b] == row
    ensures |q[..a] + row + q[b..]| == |q|
    ensures (q[..a] + row + q[b..])[..b] == block[..b]
  {
    assert block[..b] == block[..a] + block[a..b];
    assert (q[..a] + row + q[b..])[..b] == q[..a] + row;
  }

  /** Pixel j of row i of block (R, C), read in the block and in the picture. */
  lemma {:induction false} BlockRowCell(p: Grid, n: nat, d: nat, R: nat, C: nat, i: nat, j: nat)
    requires Square(p, n) && BlockFits(n, d, R, C) && i < d && j < d
    ensures Mul(i, d) + j < Mul(d, d) && Index(n, Mul(R, d) + i, Mul(C, d)) + j < |p|
    ensures Block(p, n, d, R, C)[Mul(i, d) + j] == p[Index(n, Mul(R, d) + i, Mul(C, d)) + j]
  {
    BlockCellAt(p, n, d, R, C, i, j);
    IndexOf(d, i, j);
    BlockInside(n, d, R, C, i, j);
    IndexOf(n, Mul(R, d) + i, Mul(C, d) + j);
  }

  function PutCell(p: Grid, n: nat, top: nat, left: nat, b: Grid, s: nat, rows: nat, k: nat): bool
    requires Square(p, n) && Square(b, s) && rows <= s && k < Mul(n, n)
  {
    IndexSplit(n, k);
    var r := Div(k, n);
    var c := Mod(k, n);
    if top <= r < top + rows && left <= c < left + s then Cell(b, s, r - top, c - left)
    else p[k]
  }

  /** `p` with the first `rows` rows of the `s` by `s` square at (top, left) taken from `b`. */
  function PutRows(p: Grid, n: nat, top: nat, left: nat, b: Grid, s: nat, rows: nat): (q: Grid)
    requires Square(p, n) && Square(b, s) && rows <= s
    ensures Square(q, n)
  {
    seq(Mul(n, n), k requires 0 <= k < Mul(n, n) => PutCell(p, n, top, left, b, s, rows, k))
  }

  /** `p` with the `s` by `s` square at (top, left) replaced by `b`. */
  function PutBlock(p: Grid, n: nat, top: nat, left: nat, b: Grid, s: nat): (q: Grid)
    requires Square(p, n) && Square(b, s)
    ensures Square(q, n)
  {
    PutRows(p, n, top, left, b, s, s)
  }

  /** Inside the square the pixels are those of `b`; outside, nothing changes. */
  lemma {:induction false} PutBlockCell(p: Grid, n: nat, top: nat, left: nat, b: Grid, s: nat, r: nat, c: nat)
    requires Square(p, n) && Square(b, s) && r < n && c < n
    ensures Cell(PutBlock(p, n, top, left, b, s), n, r, c) ==
      if top <= r < top + s && left <= c < left + s then Cell(b, s, r - top, c - left)
      else Cell(p, n, r, c)
  {
    IndexOf(n, r, c);
  }

  lemma {:induction false} PutRowsZero(p: Grid, n: nat, top: nat, left: nat, b: Grid, s: nat)
    requires Square(p, n) && Square(b, s)
    ensures PutRows(p, n, top, left, b, s, 0) == p
  {
  }

  lemma {:induction false} PutRowsInside(p: Grid, n: nat, top: nat, left: nat, b: Grid, s: nat, i: nat, j: nat)
    requires Square(p, n) && Square(b, s) && top + s <= n && left + s <= n && i < s && j < s
    ensures Index(s, i, j) < |b| && Index(n, top + i, left + j) < Mul(n, n)
    ensures PutRows(p, n, top, left, b, s, i + 1)[Index(n, top + i, left + j)] == b[Index(s, i, j)]
  {
    IndexOf(n, top + i, left + j);
    IndexOf(s, i, j);
  }

  lemma {:induction false} PutRowsOutside(p: Grid, n: nat, top: nat, left: nat, b: Grid, s: nat, i: nat, start: nat, k: nat)
    requires Square(p, n) && Square(b, s) && top + s <= n && left + s <= n && i < s && k < Mul(n, n)
    requires start == Index(n, top + i, left)
    requires !(start <= k < start + s)
    ensures PutRows(p, n, top, left, b, s, i + 1)[k] == PutRows(p, n, top, left, b, s, i)[k]
  {
    IndexSplit(n, k);
  }

  /** Copying row `i` of `b` into its place adds that row to the square. */
  lemma {:induction false} PutRowsStep(p: Grid, n: nat, top: nat, left: nat, b: Grid, s: nat, i: nat, q: Grid, start: nat)
    requires Square(p, n) && Square(b, s) && top + s <= n && left + s <= n && i < s
    requires q == PutRows(p, n, top, left, b, s, i)
    requires start == Index(n, top + i, left)
    ensures start + s <= |q| && Mul(i + 1, s) <= |b|
    ensures q[..start] + b[Mul(i, s)..Mul(i + 1, s)] + q[start + s..] == PutRows(p, n, top, left, b, s, i + 1)
  {
    IndexOf(n, top + i, left + s - 1);
    MulMono(i + 1, s, s);
    var next := PutRows(p, n, top, left, b, s, i + 1);
    var lhs := q[..start] + b[Mul(i, s)..Mul(i + 1, s)] + q[start + s..];
    forall k | 0 <= k < |q|
      ensures lhs[k] == next[k]
    {
      if start <= k < start + s {
        var j := k - start;
        assert lhs[k] == b[Index(s, i, j)];
        PutRowsInside(p, n, top, left, b, s, i, j);
      } else {
        PutRowsOutside(p, n, top, left, b, s, i, start, k);
      }
    }
  }

  // ---------------------------------------------------------------------
  // Copying through a symmetry

  /** Every pixel of `q` whose original comes before flat index `t` shows that original. */
  ghost predicate Copied(q: Grid, p: Grid, n: nat, s: Sym, t: nat)
    requires Square(p, n) && Square(q, n)
  {
    forall r: nat, c: nat | r < n && c < n && Index(n, Src(s, n, r, c).0, Src(s, n, r, c).1) < t ::
      Cell(q, n, r, c) == Cell(p, n, Src(s, n, r, c).0, Src(s, n, r, c).1)
  }

  /** Setting the pixel whose original is (i, j) extends the copy by one. */
  lemma {:induction false} CopyStep(q: Grid, p: Grid, n: nat, s: Sym, i: nat, j: nat, r0: nat, c0: nat)
    requires Square(p, n) && Square(q, n) && i < n && j < n && r0 < n && c0 < n
    requires Src(s, n, r0, c0) == (i, j)
    requires Copied(q, p, n, s, Index(n, i, j))
    ensures Index(n, r0, c0) < |q| && Index(n, i, j) < |p|
    ensures Copied(q[Index(n, r0, c0) := Cell(p, n, i, j)], p, n, s, Index(n, i, j) + 1)
  {
    IndexOf(n, r0, c0);
    IndexOf(n, i, j);
    var next := q[Index(n, r0, c0) := Cell(p, n, i, j)];
    forall r: nat, c: nat | r < n && c < n && Index(n, Src(s, n, r, c).0, Src(s, n, r, c).1) < Index(n, i, j) + 1
      ensures Cell(next, n, r, c) == Cell(p, n, Src(s, n, r, c).0, Src(s, n, r, c).1)
    {
      CopyStepCell(q, p, n, s, i, j, r0, c0, r, c);
    }
  }

  /** The pixel (r, c) after the step of `CopyStep`. */
  lemma {:induction false} CopyStepCell(q: Grid, p: Grid, n: nat, s: Sym, i: nat, j: nat, r0: nat, c0: nat, r: nat, c: nat)
    requires Square(p, n) && Square(q, n) && i < n && j < n && r0 < n && c0 < n && r < n && c < n
    requires Src(s, n, r0, c0) == (i, j)
    requires Copied(q, p, n, s, Index(n, i, j))
    requires Index(n, Src(s, n, r, c).0, Src(s, n, r, c).1) < Index(n, i, j) + 1
    ensures Index(n, r0, c0) < |q| && Index(n, i, j) < |p|
    ensures Cell(q[Index(n, r0, c0) := Cell(p, n, i, j)], n, r, c) == Cell(p, n, Src(s, n, r, c).0, Src(s, n, r, c).1)
  {
    IndexOf(n, r0, c0);
    IndexOf(n, i, j);
    IndexOf(n, r, c);
    var (a, b) := Src(s, n, r, c);
    IndexOf(n, a, b);
    if r != r0 || c != c0 {
      if Index(n, a, b) == Index(n, i, j) {
        SrcInjective(s, n, r, c, r0, c0);
      }
    }
  }

  lemma {:induction false} CopyDone(q: Grid, p: Grid, n: nat, s: Sym)
    requires Square(p, n) && Square(q, n) && Copied(q, p, n, s, Mul(n, n))
    ensures q == Apply(s, p, n)
  {
    forall r: nat, c: nat | r < n && c < n
      ensures Cell(q, n, r, c) == Cell(Apply(s, p, n), n, r, c)
    {
      var (a, b) := Src(s, n, r, c);
      IndexOf(n, a, b);
      ApplyCell(s, p, n, r, c);
    }
    SameCells(q, Apply(s, p, n), n);
  }

  function Zeros(k: nat): (z: Grid)
    ensures |z| == k && forall i | 0 <= i < k :: !z[i]
  {
    seq(k, _ => false)
  }

  // ---------------------------------------------------------------------
  // Enhancement as values

  /** The rules, in order, that match `q`. */
  function Matching(rules: seq<Rule>, q: Grid): (ms: seq<Rule>)
    ensures |ms| <= |rules|
  {
    if rules == [] then []
    else (if Match(rules[0], q) then [rules[0]] else []) + Matching(rules[1..], q)
  }

  /** A rule is among those matching `q` exactly when it is one of `rules` and matches. */
  lemma {:induction false} MatchingMembers(rules: seq<Rule>, q: Grid, r: Rule)
    ensures r in Matching(rules, q) <==> r in rules && Match(r, q)
  {
    if rules != [] {
      MatchingMembers(rules[1..], q, r);
      assert rules == [rules[0]] + rules[1..];
    }
  }

  /** Every rule in `rules` produces a square of size `s`. */
  predicate OutputsFit(rules: seq<Rule>, s: nat) {
    forall r | r in rules :: Square(r.outPattern, s)
  }

  /** The rules for inputs of size `d` produce squares of size `d + 1`. */
  predicate RulesFit(rules: map<nat, seq<Rule>>) {
    forall d | d in rules :: OutputsFit(rules[d], d + 1)
  }

  /** The rules for inputs of size `d`, none when there are none. */
  function RulesFor(rules: map<nat, seq<Rule>>, d: nat): seq<Rule> {
    if d in rules then rules[d] else []
  }

  /** A picture of size `n` cut into `m` by `m` blocks of size `d`. */
  predicate Tiled(n: nat, d: nat, m: nat) {
    0 < d && n == Mul(m, d)
  }

  lemma {:induction false} BlockFitsIn(n: nat, d: nat, m: nat, R: nat, C: nat)
    requires Tiled(n, d, m) && R < m && C < m
    ensures BlockFits(n, d, R, C)
  {
    MulMono(R + 1, m, d);
    MulMono(C + 1, m, d);
  }

  /** The size after enhancing, `size + size // divisor`, is one more pixel per block. */
  lemma {:induction false} Grown(n: nat, d: nat)
    requires 0 < d && n % d == 0
    ensures Tiled(n, d, n / d) && Tiled(n + n / d, d + 1, n / d)
  {
    MulIsTimes(n / d, d);
    MulSucc(n / d, d);
  }

  lemma {:induction false} BlockOf(m: nat, s: nat, r: nat)
    requires 0 < s && r < Mul(m, s)
    ensures Div(r, s) < m && Mod(r, s) < s && r == Mul(Div(r, s), s) + Mod(r, s)
  {
    DivMod(r, s);
    MulCancel(Div(r, s), m, s);
  }

  /** Block (R, C) comes before block (R0, C0) in row-major order. */
  predicate Before(R: nat, C: nat, R0: nat, C0: nat) {
    R < R0 || (R == R0 && C < C0)
  }

  /** A position (R0, C0) the enhancement loop reaches: a block, the end of a row, or the
      end of the picture. */
  predicate Reached(m: nat, R0: nat, C0: nat) {
    (R0 < m && C0 <= m) || (R0 == m && C0 == 0)
  }

  /** Block (R, C) matches exactly one rule. */
  predicate UniqueAt(p: Grid, n: nat, d: nat, m: nat, rules: seq<Rule>, R: nat, C: nat)
    requires Square(p, n) && Tiled(n, d, m) && R < m && C < m
  {
    BlockFitsIn(n, d, m, R, C);
    |Matching(rules, Block(p, n, d, R, C))| == 1
  }

  /** The output of the one rule that matches block (R, C) (all off when not exactly one
      does). */
  function BlockOutput(p: Grid, n: nat, d: nat, m: nat, rules: seq<Rule>, R: nat, C: nat): (b: Grid)
    requires Square(p, n) && Tiled(n, d, m) && R < m && C < m && OutputsFit(rules, d + 1)
    ensures Square(b, d + 1)
  {
    BlockFitsIn(n, d, m, R, C);
    var ms := Matching(rules, Block(p, n, d, R, C));
    if |ms| == 1 then MatchingMembers(rules, Block(p, n, d, R, C), ms[0]); ms[0].outPattern
    else Zeros(Mul(d + 1, d + 1))
  }

  /** The first position from (R0, C0) on, in row-major order over an m by m square,
      where `ok` fails. */
  function FirstFailing(ok: (nat, nat) -> bool, m: nat, R0: nat, C0: nat): (r: Option<(nat, nat)>)
    requires Reached(m, R0, C0)
    ensures r.Some? ==>
      r.value.0 < m && r.value.1 < m && !Before(r.value.0, r.value.1, R0, C0) && !ok(r.value.0, r.value.1)
    decreases m - R0, m - C0
  {
    if R0 == m then None
    else if C0 == m then FirstFailing(ok, m, R0 + 1, 0)
    else if !ok(R0, C0) then Some((R0, C0))
    else FirstFailing(ok, m, R0, C0 + 1)
  }

  /** Nothing fails from (R0, C0) on exactly when `ok` holds at every position from there on. */
  lemma {:induction false} FirstFailingNone(ok: (nat, nat) -> bool, m: nat, R0: nat, C0: nat)
    requires Reached(m, R0, C0)
    ensures FirstFailing(ok, m, R0, C0).None? <==>
      forall R: nat, C: nat | R < m && C < m && !Before(R, C, R0, C0) :: ok(R, C)
    decreases m - R0, m - C0
  {
    if R0 == m {
    } else if C0 == m {
      FirstFailingNone(ok, m, R0 + 1, 0);
      forall R: nat, C: nat | R < m && C < m
        ensures !Before(R, C, R0, C0) <==> !Before(R, C, R0 + 1, 0)
      {
      }
    } else if ok(R0, C0) {
      FirstFailingNone(ok, m, R0, C0 + 1);
      forall R: nat, C: nat | R < m && C < m
        ensures !Before(R, C, R0, C0) <==> (!Before(R, C, R0, C0 + 1) || (R, C) == (R0, C0))
      {
      }
    } else {
      assert !Before(R0, C0, R0, C0);
    }
  }

  /** Whether (R, C) is a block of the picture that matches exactly one rule. */
  function UniqueOk(p: Grid, n: nat, d: nat, m: nat, rules: seq<Rule>): (nat, nat) -> bool
    requires Square(p, n) && Tiled(n, d, m)
  {
    (R: nat, C: nat) => R < m && C < m && UniqueAt(p, n, d, m, rules, R, C)
  }

  /** The number of matching rules of the first block from (R0, C0) on, in row-major order,
      that does not have exactly one. */
  function FirstNonUnique(p: Grid, n: nat, d: nat, m: nat, rules: seq<Rule>, R0: nat, C0: nat): (r: Option<nat>)
    requires Square(p, n) && Tiled(n, d, m) && Reached(m, R0, C0)
    ensures r.Some? ==> r.value != 1
  {
    match FirstFailing(UniqueOk(p, n, d, m, rules), m, R0, C0)
    case None => None
    case Some((R, C)) =>
      BlockFitsIn(n, d, m, R, C);
      Some(|Matching(rules, Block(p, n, d, R, C))|)
  }

  /** No block from (R0, C0) on fails exactly when every block from there on matches
      exactly one rule. */
  lemma {:induction false} FirstNonUniqueNone(p: Grid, n: nat, d: nat, m: nat, rules: seq<Rule>, R0: nat, C0: nat)
    requires Square(p, n) && Tiled(n, d, m) && Reached(m, R0, C0)
    ensures FirstNonUnique(p, n, d, m, rules, R0, C0).None? <==>
      forall R: nat, C: nat | R < m && C < m && !Before(R, C, R0, C0) :: UniqueAt(p, n, d, m, rules, R, C)
  {
    var ok := UniqueOk(p, n, d, m, rules);
    FirstFailingNone(ok, m, R0, C0);
    forall R: nat, C: nat | R < m && C < m
      ensures ok(R, C) <==> UniqueAt(p, n, d, m, rules, R, C)
    {
    }
  }

  /** The output for every block position: the rule output for the blocks of the picture,
      all off elsewhere. */
  function Outputs(p: Grid, n: nat, d: nat, m: nat, rules: seq<Rule>): (nat, nat) -> Grid
    requires Square(p, n) && Tiled(n, d, m) && OutputsFit(rules, d + 1)
  {
    (R: nat, C: nat) => if R < m && C < m then BlockOutput(p, n, d, m, rules, R, C) else Zeros(Mul(d + 1, d + 1))
  }

  /** Every block output is a square of size `s`. */
  ghost predicate Fits(outputs: (nat, nat) -> Grid, s: nat) {
    forall R: nat, C: nat :: Square(outputs(R, C), s)
  }

  lemma {:induction false} OutputsFits(p: Grid, n: nat, d: nat, m: nat, rules: seq<Rule>)
    requires Square(p, n) && Tiled(n, d, m) && OutputsFit(rules, d + 1)
    ensures Fits(Outputs(p, n, d, m, rules), d + 1)
  {
    forall R: nat, C: nat
      ensures Square(Outputs(p, n, d, m, rules)(R, C), d + 1)
    {
    }
  }

  // The rest of this section holds for any block outputs of size `s`, laid out `m` by `m`.

  /** Pixel (r, c) of the assembled picture: pixel (r % s, c % s) of the output for block
      (r / s, c / s). */
  function AssembleAt(outputs: (nat, nat) -> Grid, m: nat, s: nat, big: nat, r: nat, c: nat): bool
    requires 0 < s && Fits(outputs, s) && big == Mul(m, s) && r < big && c < big
  {
    BlockOf(m, s, r);
    BlockOf(m, s, c);
    Cell(outputs(Div(r, s), Div(c, s)), s, Mod(r, s), Mod(c, s))
  }

  function AssembleCell(outputs: (nat, nat) -> Grid, m: nat, s: nat, big: nat, k: nat): bool
    requires 0 < s && Fits(outputs, s) && big == Mul(m, s) && k < Mul(big, big)
  {
    IndexSplit(big, k);
    AssembleAt(outputs, m, s, big, Div(k, big), Mod(k, big))
  }

  /** The `m` by `m` block outputs side by side. */
  function Assemble(outputs: (nat, nat) -> Grid, m: nat, s: nat): (q: Grid)
    requires 0 < s && Fits(outputs, s)
    ensures Square(q, Mul(m, s))
  {
    var big := Mul(m, s);
    seq(Mul(big, big), k requires 0 <= k < Mul(big, big) => AssembleCell(outputs, m, s, big, k))
  }

  /** The picture once the blocks before (R0, C0) have been written into an all-off
      picture. */
  function Partial(outputs: (nat, nat) -> Grid, m: nat, s: nat, R0: nat, C0: nat): (q: Grid)
    requires Fits(outputs, s) && Reached(m, R0, C0)
    ensures Square(q, Mul(m, s))
    decreases R0, C0
  {
    var big := Mul(m, s);
    if C0 > 0 then
      PutBlock(Partial(outputs, m, s, R0, C0 - 1), big, Mul(R0, s), Mul(C0 - 1, s), outputs(R0, C0 - 1), s)
    else if R0 > 0 then Partial(outputs, m, s, R0 - 1, m)
    else Zeros(Mul(big, big))
  }

  /** Row `R * s + i` (with `i < s`) lies in band `R'` of height `s` exactly when `R' == R`. */
  lemma {:induction false} SameBand(R: nat, R': nat, s: nat, i: nat)
    requires i < s
    ensures Mul(R', s) <= Mul(R, s) + i < Mul(R', s) + s <==> R == R'
  {
    if R < R' {
      MulMono(R + 1, R', s);
    } else if R' < R {
      MulMono(R' + 1, R, s);
    }
  }

  /** Writing a block at block position (R0, C0) leaves the pixels of block (R, C) alone. */
  lemma {:induction false} PutBlockOther(q: Grid, m: nat, s: nat, b: Grid, R0: nat, C0: nat,
                                         R: nat, C: nat, i: nat, j: nat)
    requires Square(q, Mul(m, s)) && Square(b, s) && R < m && C < m && i < s && j < s
    requires (R, C) != (R0, C0)
    ensures Mul(R, s) + i < Mul(m, s) && Mul(C, s) + j < Mul(m, s)
    ensures Cell(PutBlock(q, Mul(m, s), Mul(R0, s), Mul(C0, s), b, s), Mul(m, s), Mul(R, s) + i, Mul(C, s) + j) ==
            Cell(q, Mul(m, s), Mul(R, s) + i, Mul(C, s) + j)
  {
    BlockFitsIn(Mul(m, s), s, m, R, C);
    BlockInside(Mul(m, s), s, R, C, i, j);
    SameBand(R, R0, s, i);
    SameBand(C, C0, s, j);
    PutBlockCell(q, Mul(m, s), Mul(R0, s), Mul(C0, s), b, s, Mul(R, s) + i, Mul(C, s) + j);
  }

  /** Writing a block at block position (R, C) sets its pixels. */
  lemma {:induction false} PutBlockSame(q: Grid, m: nat, s: nat, b: Grid, R: nat, C: nat, i: nat, j: nat)
    requires Square(q, Mul(m, s)) && Square(b, s) && R < m && C < m && i < s && j < s
    ensures Mul(R, s) + i < Mul(m, s) && Mul(C, s) + j < Mul(m, s)
    ensures Cell(PutBlock(q, Mul(m, s), Mul(R, s), Mul(C, s), b, s), Mul(m, s), Mul(R, s) + i, Mul(C, s) + j) ==
            Cell(b, s, i, j)
  {
    BlockFitsIn(Mul(m, s), s, m, R, C);
    BlockInside(Mul(m, s), s, R, C, i, j);
    PutBlockCell(q, Mul(m, s), Mul(R, s), Mul(C, s), b, s, Mul(R, s) + i, Mul(C, s) + j);
  }

  /** Pixel by pixel, the blocks before (R0, C0) hold their outputs and the rest is off. */
  lemma {:induction false} PartialCells(outputs: (nat, nat) -> Grid, m: nat, s: nat, R0: nat, C0: nat,
                                        R: nat, C: nat, i: nat, j: nat)
    requires Fits(outputs, s) && Reached(m, R0, C0) && R < m && C < m && i < s && j < s
    ensures Mul(R, s) + i < Mul(m, s) && Mul(C, s) + j < Mul(m, s)
    ensures Cell(Partial(outputs, m, s, R0, C0), Mul(m, s), Mul(R, s) + i, Mul(C, s) + j) ==
      (Before(R, C, R0, C0) && Cell(outputs(R, C), s, i, j))
    decreases R0, C0
  {
    var big := Mul(m, s);
    BlockFitsIn(big, s, m, R, C);
    BlockInside(big, s, R, C, i, j);
    if C0 > 0 {
      var before := Partial(outputs, m, s, R0, C0 - 1);
      if (R, C) == (R0, C0 - 1) {
        PutBlockSame(before, m, s, outputs(R0, C0 - 1), R, C, i, j);
      } else {
        PartialCells(outputs, m, s, R0, C0 - 1, R, C, i, j);
        PutBlockOther(before, m, s, outputs(R0, C0 - 1), R0, C0 - 1, R, C, i, j);
      }
    } else if R0 > 0 {
      PartialCells(outputs, m, s, R0 - 1, m, R, C, i, j);
    } else {
      IndexOf(big, Mul(R, s) + i, Mul(C, s) + j);
    }
  }

  /** Writing every block's output gives the assembled picture. */
  lemma {:induction false} PartialComplete(outputs: (nat, nat) -> Grid, m: nat, s: nat)
    requires 0 < s && Fits(outputs, s)
    ensures Partial(outputs, m, s, m, 0) == Assemble(outputs, m, s)
  {
    var big := Mul(m, s);
    var q := Partial(outputs, m, s, m, 0);
    forall r: nat, c: nat | r < big && c < big
      ensures Cell(q, big, r, c) == Cell(Assemble(outputs, m, s), big, r, c)
    {
      BlockOf(m, s, r);
      BlockOf(m, s, c);
      PartialCells(outputs, m, s, m, 0, Div(r, s), Div(c, s), Mod(r, s), Mod(c, s));
      IndexOf(big, r, c);
    }
    SameCells(q, Assemble(outputs, m, s), big);
  }

  /** Block (R, C) of the assembled picture is the output for block (R, C). */
  lemma {:induction false} AssembleBlocks(outputs: (nat, nat) -> Grid, m: nat, s: nat, R: nat, C: nat)
    requires 0 < s && Fits(outputs, s) && R < m && C < m
    ensures BlockFits(Mul(m, s), s, R, C)
    ensures Block(Assemble(outputs, m, s), Mul(m, s), s, R, C) == outputs(R, C)
  {
    var big := Mul(m, s);
    BlockFitsIn(big, s, m, R, C);
    PartialComplete(outputs, m, s);
    var q := Assemble(outputs, m, s);
    forall i: nat, j: nat | i < s && j < s
      ensures Cell(Block(q, big, s, R, C), s, i, j) == Cell(outputs(R, C), s, i, j)
    {
      BlockCellAt(q, big, s, R, C, i, j);
      PartialCells(outputs, m, s, m, 0, R, C, i, j);
    }
    SameCells(Block(q, big, s, R, C), outputs(R, C), s);
  }

  /** Why enhancing fails. */
  datatype EnhanceError =
    | NotDivisible(size: nat)     // the size is a multiple of neither 2 nor 3
    | MissingRules(divisor: nat)  // `rules[divisor]` raises KeyError
    | NotUnique(matched: nat)     // a block matched `matched` rules instead of one

  /** `enchance` on a picture of size `n`. */
  function Enhanced(p: Grid, n: nat, rules: map<nat, seq<Rule>>): (r: Result<Grid, EnhanceError>)
    requires Square(p, n) && RulesFit(rules)
    ensures r.Ok? ==> DivisorOf(n).Some? && Square(r.value, n + n / DivisorOf(n).value)
  {
    match DivisorOf(n)
    case None => Err(NotDivisible(n))
    case Some(d) =>
      Grown(n, d);
      var m := n / d;
      if m == 0 then Ok([])
      else if d !in rules then Err(MissingRules(d))
      else match FirstNonUnique(p, n, d, m, rules[d], 0, 0)
        case Some(k) => Err(NotUnique(k))
        case None =>
          assert OutputsFit(rules[d], d + 1);
          OutputsFits(p, n, d, m, rules[d]);
          Ok(Assemble(Outputs(p, n, d, m, rules[d]), m, d + 1))
  }

  /** When enhancing succeeds, every block of the input has exactly one matching rule. */
  lemma {:induction false} EnhancedUnique(p: Grid, n: nat, rules: map<nat, seq<Rule>>, R: nat, C: nat)
    requires Square(p, n) && RulesFit(rules) && Enhanced(p, n, rules).Ok?
    requires R < n / DivisorOf(n).value && C < n / DivisorOf(n).value
    ensures var d := DivisorOf(n).value;
      d in rules && BlockFits(n, d, R, C) && |Matching(rules[d], Block(p, n, d, R, C))| == 1
  {
    var d := DivisorOf(n).value;
    var m := n / d;
    Grown(n, d);
    BlockFitsIn(n, d, m, R, C);
    FirstNonUniqueNone(p, n, d, m, rules[d], 0, 0);
    assert UniqueAt(p, n, d, m, rules[d], R, C);
  }

  /** When enhancing succeeds, each block of the output, one pixel larger than the blocks
      of the input, is the output of the one rule matching the corresponding input block. */
  lemma {:induction false} EnhancedBlocks(p: Grid, n: nat, rules: map<nat, seq<Rule>>, R: nat, C: nat)
    requires Square(p, n) && RulesFit(rules) && Enhanced(p, n, rules).Ok?
    requires R < n / DivisorOf(n).value && C < n / DivisorOf(n).value
    ensures var d := DivisorOf(n).value;
      d in rules && BlockFits(n, d, R, C) && |Matching(rules[d], Block(p, n, d, R, C))| == 1 &&
      BlockFits(n + n / d, d + 1, R, C) &&
      Block(Enhanced(p, n, rules).value, n + n / d, d + 1, R, C) == Matching(rules[d], Block(p, n, d, R, C))[0].outPattern
  {
    EnhancedUnique(p, n, rules, R, C);
    var d := DivisorOf(n).value;
    var m := n / d;
    EnhancedAssembled(p, n, rules);
    OutputAt(p, n, d, m, rules[d], R, C);
    AssembleBlocks(Outputs(p, n, d, m, rules[d]), m, d + 1, R, C);
  }

  /** A successful enhancement is the assembly of the block outputs. */
  lemma {:induction false} EnhancedAssembled(p: Grid, n: nat, rules: map<nat, seq<Rule>>)
    requires Square(p, n) && RulesFit(rules) && Enhanced(p, n, rules).Ok? && 0 < n
    ensures var d := DivisorOf(n).value;
      Tiled(n, d, n / d) && n + n / d == Mul(n / d, d + 1) && d in rules &&
      Fits(Outputs(p, n, d, n / d, rules[d]), d + 1) &&
      Enhanced(p, n, rules).value == Assemble(Outputs(p, n, d, n / d, rules[d]), n / d, d + 1)
  {
    var d := DivisorOf(n).value;
    Grown(n, d);
    OutputsFits(p, n, d, n / d, rules[d]);
  }

  /** The output for a block that matches exactly one rule is that rule's output. */
  lemma {:induction false} OutputAt(p: Grid, n: nat, d: nat, m: nat, rules: seq<Rule>, R: nat, C: nat)
    requires Square(p, n) && Tiled(n, d, m) && OutputsFit(rules, d + 1) && R < m && C < m
    requires UniqueAt(p, n, d, m, rules, R, C)
    ensures BlockFits(n, d, R, C)
    ensures Outputs(p, n, d, m, rules)(R, C) == Matching(rules, Block(p, n, d, R, C))[0].outPattern
  {
    BlockFitsIn(n, d, m, R, C);
  }

  /** Enhancing succeeds exactly when the size has a divisor and, unless the picture is
      empty, there are rules for it and each block matches exactly one of them. */
  lemma {:induction false} EnhancedErrors(p: Grid, n: nat, rules: map<nat, seq<Rule>>)
    requires Square(p, n) && RulesFit(rules)
    ensures Enhanced(p, n, rules) == Err(NotDivisible(n)) <==> DivisorOf(n).None?
    ensures DivisorOf(n).Some? ==> Tiled(n, DivisorOf(n).value, n / DivisorOf(n).value)
    ensures DivisorOf(n).Some? ==>
      var d := DivisorOf(n).value;
      (Enhanced(p, n, rules) == Err(MissingRules(d)) <==> 0 < n && d !in rules) &&
      (Enhanced(p, n, rules).Ok? <==>
         (n == 0 || (d in rules &&
          forall R: nat, C: nat | R < n / d && C < n / d :: UniqueAt(p, n, d, n / d, rules[d], R, C))))
  {
    if DivisorOf(n).Some? {
      var d := DivisorOf(n).value;
      Grown(n, d);
      if 0 < n / d && d in rules {
        FirstNonUniqueNone(p, n, d, n / d, rules[d], 0, 0);
      }
    }
  }

  /** One step of the enhancement loop, over block (i, j). */
  lemma {:induction false} EnhanceStep(p: Grid, n: nat, d: nat, m: nat, rules: seq<Rule>, i: nat, j: nat)
    requires Square(p, n) && Tiled(n, d, m) && OutputsFit(rules, d + 1) && i < m && j < m
    ensures Fits(Outputs(p, n, d, m, rules), d + 1)
    ensures BlockFits(n, d, i, j) && BlockFits(Mul(m, d + 1), d + 1, i, j)
    ensures var ms := Matching(rules, Block(p, n, d, i, j));
      var outs := Outputs(p, n, d, m, rules);
      if |ms| == 1 then
        Square(ms[0].outPattern, d + 1) &&
        FirstNonUnique(p, n, d, m, rules, i, j) == FirstNonUnique(p, n, d, m, rules, i, j + 1) &&
        PutBlock(Partial(outs, m, d + 1, i, j), Mul(m, d + 1), Mul(i, d + 1), Mul(j, d + 1), ms[0].outPattern, d + 1) ==
          Partial(outs, m, d + 1, i, j + 1)
      else
        FirstNonUnique(p, n, d, m, rules, i, j) == Some(|ms|)
  {
    OutputsFits(p, n, d, m, rules);
    BlockFitsIn(n, d, m, i, j);
    BlockFitsIn(Mul(m, d + 1), d + 1, m, i, j);
    var ms := Matching(rules, Block(p, n, d, i, j));
    if |ms| == 1 {
      MatchingMembers(rules, Block(p, n, d, i, j), ms[0]);
    }
  }

  /** The end of a row is the start of the next. */
  lemma {:induction false} EnhanceNextRow(p: Grid, n: nat, d: nat, m: nat, rules: seq<Rule>, i: nat)
    requires Square(p, n) && Tiled(n, d, m) && OutputsFit(rules, d + 1) && i < m
    ensures Fits(Outputs(p, n, d, m, rules), d + 1)
    ensures Partial(Outputs(p, n, d, m, rules), m, d + 1, i + 1, 0) == Partial(Outputs(p, n, d, m, rules), m, d + 1, i, m)
    ensures FirstNonUnique(p, n, d, m, rules, i + 1, 0) == FirstNonUnique(p, n, d, m, rules, i, m)
  {
    OutputsFits(p, n, d, m, rules);
  }

  /** `enchance` with the size of the new picture, as the `Pattern` it returns has one. */
  function Enlarged(p: Grid, n: nat, rules: map<nat, seq<Rule>>): (r: Result<(Grid, nat), EnhanceError>)
    requires Square(p, n) && RulesFit(rules)
    ensures r.Ok? ==> Square(r.value.0, r.value.1)
  {
    match Enhanced(p, n, rules)
    case Err(e) => Err(e)
    case Ok(q) => Ok((q, n + n / DivisorOf(n).value))
  }

  /** `k` enhancements in a row from a picture of size `n`: the final picture and its size,
      or the first error. */
  function Iterated(p: Grid, n: nat, rules: map<nat, seq<Rule>>, k: nat): (r: Result<(Grid, nat), EnhanceError>)
    requires Square(p, n) && RulesFit(rules)
    ensures r.Ok? ==> Square(r.value.0, r.value.1)
    decreases k
  {
    if k == 0 then Ok((p, n))
    else match Enlarged(p, n, rules)
      case Err(e) => Err(e)
      case Ok((q, m)) => Iterated(q, m, rules, k - 1)
  }

  /** The first of `k` enhancements, then the other `k - 1`. */
  lemma {:induction false} IteratedNext(p: Grid, n: nat, rules: map<nat, seq<Rule>>, k: nat,
                                        r: Result<(Grid, nat), EnhanceError>, q: Grid, m: nat)
    requires Square(p, n) && RulesFit(rules) && 0 < k && r == Iterated(p, n, rules, k)
    requires Enlarged(p, n, rules) == Ok((q, m))
    ensures Square(q, m) && r == Iterated(q, m, rules, k - 1)
  {
  }

  /** ... or the error of the first. */
  lemma {:induction false} IteratedFails(p: Grid, n: nat, rules: map<nat, seq<Rule>>, k: nat,
                                         r: Result<(Grid, nat), EnhanceError>)
    requires Square(p, n) && RulesFit(rules) && 0 < k && r == Iterated(p, n, rules, k)
    requires Enlarged(p, n, rules).Err?
    ensures r == Err(Enlarged(p, n, rules).error)
  {
  }

  /** `j` enhancements followed by `k` more are `j + k` of them. */
  lemma {:induction false} IteratedAdd(p: Grid, n: nat, rules: map<nat, seq<Rule>>, j: nat, k: nat)
    requires Square(p, n) && RulesFit(rules)
    ensures Iterated(p, n, rules, j + k) ==
      match Iterated(p, n, rules, j)
      case Err(e) => Err(e)
      case Ok((q, m)) => Iterated(q, m, rules, k)
    decreases j
  {
    if j > 0 {
      match Enlarged(p, n, rules)
      case Err(e) =>
      case Ok((q, m)) =>
        IteratedAdd(q, m, rules, j - 1, k);
        assert j + k - 1 == (j - 1) + k;
    }
  }

  // ---------------------------------------------------------------------
  // Text

  /** `parse_pattern`: every character but '/' is a pixel, on exactly when it is '#'. */
  function ParsePattern(text: string): (p: Grid)
    ensures |p| <= |text|
  {
    if text == [] then []
    else
      var c := text[|text| - 1];
      ParsePattern(text[..|text| - 1]) + (if c == '/' then [] else [c == '#'])
  }

  lemma {:induction false} ParsePatternConcat(a: string, b: string)
    ensures ParsePattern(a + b) == ParsePattern(a) + ParsePattern(b)
    decreases |b|
  {
    if b == [] {
      assert a + b == a;
    } else {
      assert (a + b)[..|a + b| - 1] == a + b[..|b| - 1];
      ParsePatternConcat(a, b[..|b| - 1]);
    }
  }

  /** A text without '/' is one pixel per character. */
  lemma {:induction false} ParseNoSlash(text: string)
    requires '/' !in text
    ensures ParsePattern(text) == seq(|text|, k requires 0 <= k < |text| => text[k] == '#')
  {
    if text != [] {
      ParseNoSlash(text[..|text| - 1]);
    }
  }

  /** Row `i` as `__str__` prints it. */
  function RowText(p: Grid, n: nat, i: nat): (t: string)
    requires Square(p, n) && i < n
    ensures |t| == n
  {
    seq(n, j requires 0 <= j < n => if Cell(p, n, i, j) then '#' else '.')
  }

  /** The first `k` rows as `__str__` prints them: separated by '/'. */
  function ShownRows(p: Grid, n: nat, k: nat): string
    requires Square(p, n) && k <= n
  {
    if k == 0 then []
    else ShownRows(p, n, k - 1) + (if k - 1 != 0 then "/" else "") + RowText(p, n, k - 1)
  }

  /** `__str__`: all rows, top down. */
  function Shown(p: Grid, n: nat): string
    requires Square(p, n)
  {
    ShownRows(p, n, n)
  }

  /** A printed row reads back as the pixels of that row. */
  lemma {:induction false} ParseRowText(p: Grid, n: nat, i: nat)
    requires Square(p, n) && i < n
    ensures Mul(i, n) + n <= |p|
    ensures ParsePattern(RowText(p, n, i)) == p[Mul(i, n)..Mul(i, n) + n]
  {
    MulMono(i + 1, n, n);
    var t := RowText(p, n, i);
    ParseNoSlash(t);
    forall j | 0 <= j < n
      ensures (t[j] == '#') == p[Mul(i, n) + j]
    {
      IndexOf(n, i, j);
    }
  }

  /** Reading three pieces of text is reading each in turn. */
  lemma {:induction false} ParsePatternConcat3(a: string, b: string, c: string)
    ensures ParsePattern(a + b + c) == ParsePattern(a) + ParsePattern(b) + ParsePattern(c)
  {
    ParsePatternConcat(a + b, c);
    ParsePatternConcat(a, b);
  }

  lemma {:induction false} ParseShownRows(p: Grid, n: nat, k: nat)
    requires Square(p, n) && k <= n
    ensures Mul(k, n) <= |p| && ParsePattern(ShownRows(p, n, k)) == p[..Mul(k, n)]
  {
    MulMono(k, n, n);
    if k > 0 {
      var front, row := ShownRows(p, n, k - 1), RowText(p, n, k - 1);
      var sep := if k - 1 != 0 then "/" else "";
      assert ShownRows(p, n, k) == front + sep + row;
      ParseShownRows(p, n, k - 1);
      ParseRowText(p, n, k - 1);
      ParseRowsStep(p, front, sep, row, Mul(k - 1, n), n);
    }
  }

  /** The step of `ParseShownRows`: a row read after the rows before it. */
  lemma {:induction false} ParseRowsStep(p: Grid, front: string, sep: string, row: string, m: nat, n: nat)
    requires m + n <= |p| && (sep == "" || sep == "/")
    requires ParsePattern(front) == p[..m] && ParsePattern(row) == p[m..m + n]
    ensures ParsePattern(front + sep + row) == p[..m + n]
  {
    ParsePatternConcat3(front, sep, row);
    assert ParsePattern(sep) == [];
    assert p[..m + n] == p[..m] + p[m..m + n];
  }

  /** Reading back a printed picture gives the picture. */
  lemma {:induction false} ParseShown(p: Grid, n: nat)
    requires Square(p, n)
    ensures ParsePattern(Shown(p, n)) == p
  {
    ParseShownRows(p, n, n);
    assert p[..Mul(n, n)] == p;
  }

  /** A row of well-formed picture text: `n` characters, each '#' or '.'. */
  predicate RowOf(row: string, n: nat) {
    |row| == n && forall j | 0 <= j < n :: row[j] == '#' || row[j] == '.'
  }

  /** Rows joined with '/' in between. */
  function JoinRows(rows: seq<string>): string {
    if rows == [] then []
    else JoinRows(rows[..|rows| - 1]) + (if |rows| > 1 then "/" else "") + rows[|rows| - 1]
  }

  /** A well-formed row reads as one pixel per character. */
  lemma {:induction false} ParseRowOf(row: string, n: nat)
    requires RowOf(row, n)
    ensures ParsePattern(row) == seq(n, j requires 0 <= j < n => row[j] == '#')
  {
    assert '/' !in row by {
      forall j | 0 <= j < |row|
        ensures row[j] != '/'
      {
      }
    }
    ParseNoSlash(row);
  }

  /** A separator reads as no pixels. */
  lemma {:induction false} ParseSeparated(a: string, sep: string, b: string)
    requires sep == "" || sep == "/"
    ensures ParsePattern(a + sep + b) == ParsePattern(a) + ParsePattern(b)
  {
    ParsePatternConcat3(a, sep, b);
    assert ParsePattern(sep) == [];
  }

  lemma {:induction false} ParseJoinRows(rows: seq<string>, n: nat)
    requires forall i | 0 <= i < |rows| :: RowOf(rows[i], n)
    ensures |ParsePattern(JoinRows(rows))| == Mul(|rows|, n)
    ensures rows != [] ==>
      ParsePattern(JoinRows(rows)) == ParsePattern(JoinRows(rows[..|rows| - 1])) + ParsePattern(rows[|rows| - 1])
  {
    if rows != [] {
      var front, last := rows[..|rows| - 1], rows[|rows| - 1];
      var sep := if |rows| > 1 then "/" else "";
      assert JoinRows(rows) == JoinRows(front) + sep + last;
      assert forall i | 0 <= i < |front| :: front[i] == rows[i];
      ParseJoinRows(front, n);
      assert RowOf(last, n);
      ParseRowOf(last, n);
      ParseSeparated(JoinRows(front), sep, last);
    }
  }

  /** The pixels of a picture that a prefix of it splits into. */
  lemma {:induction false} PrefixSplit(p: Grid, a: Grid, b: Grid, m: nat, n: nat)
    requires m + n <= |p| && |a| == m && p[..m + n] == a + b
    ensures p[..m] == a && p[m..m + n] == b
  {
    assert p[..m] == p[..m + n][..m];
    assert p[m..m + n] == p[..m + n][m..];
  }

  /** A row printed from the pixels read from a well-formed row is that row. */
  lemma {:induction false} RowTextOf(p: Grid, n: nat, i: nat, row: string)
    requires Square(p, n) && i < n && RowOf(row, n)
    requires Mul(i, n) + n <= |p| && p[Mul(i, n)..Mul(i, n) + n] == ParsePattern(row)
    ensures RowText(p, n, i) == row
  {
    ParseRowOf(row, n);
    forall j | 0 <= j < n
      ensures RowText(p, n, i)[j] == row[j]
    {
      IndexOf(n, i, j);
      assert p[Mul(i, n) + j] == p[Mul(i, n)..Mul(i, n) + n][j];
    }
  }

  /** The first rows of a picture whose first pixels are read from joined rows print as
      those rows. */
  lemma {:induction false} ShownJoinRows(rows: seq<string>, p: Grid, n: nat)
    requires forall i | 0 <= i < |rows| :: RowOf(rows[i], n)
    requires Square(p, n) && |rows| <= n
    requires Mul(|rows|, n) <= |p| && p[..Mul(|rows|, n)] == ParsePattern(JoinRows(rows))
    ensures ShownRows(p, n, |rows|) == JoinRows(rows)
  {
    var k := |rows|;
    if k > 0 {
      ShownJoinFront(rows, p, n);
      ShownJoinRows(rows[..k - 1], p, n);
      ShownJoinLast(rows, p, n);
    }
  }

  /** What `ShownJoinRows` needs of the rows before the last. */
  lemma {:induction false} ShownJoinFront(rows: seq<string>, p: Grid, n: nat)
    requires 0 < |rows| && forall i | 0 <= i < |rows| :: RowOf(rows[i], n)
    requires Mul(|rows|, n) <= |p| && p[..Mul(|rows|, n)] == ParsePattern(JoinRows(rows))
    ensures var front := rows[..|rows| - 1];
      (forall i | 0 <= i < |front| :: RowOf(front[i], n)) &&
      Mul(|front|, n) + n <= |p| &&
      p[..Mul(|front|, n)] == ParsePattern(JoinRows(front)) &&
      p[Mul(|front|, n)..Mul(|front|, n) + n] == ParsePattern(rows[|rows| - 1])
  {
    var front, last := rows[..|rows| - 1], rows[|rows| - 1];
    assert forall i | 0 <= i < |front| :: front[i] == rows[i];
    ParseJoinRows(rows, n);
    ParseJoinRows(front, n);
    PrefixSplit(p, ParsePattern(JoinRows(front)), ParsePattern(last), Mul(|front|, n), n);
  }

  /** The step of `ShownJoinRows`: the last row. */
  lemma {:induction false} ShownJoinLast(rows: seq<string>, p: Grid, n: nat)
    requires 0 < |rows| <= n && Square(p, n) && RowOf(rows[|rows| - 1], n)
    requires Mul(|rows| - 1, n) + n <= |p|
    requires p[Mul(|rows| - 1, n)..Mul(|rows| - 1, n) + n] == ParsePattern(rows[|rows| - 1])
    requires ShownRows(p, n, |rows| - 1) == JoinRows(rows[..|rows| - 1])
    ensures ShownRows(p, n, |rows|) == JoinRows(rows)
  {
    RowTextOf(p, n, |rows| - 1, rows[|rows| - 1]);
  }

  /** Printing a picture read from well-formed text gives back the text. */
  lemma {:induction false} ShownParse(rows: seq<string>, n: nat)
    requires |rows| == n && forall i | 0 <= i < n :: RowOf(rows[i], n)
    ensures Square(ParsePattern(JoinRows(rows)), n)
    ensures Shown(ParsePattern(JoinRows(rows)), n) == JoinRows(rows)
  {
    ParseJoinRows(rows, n);
    var p := ParsePattern(JoinRows(rows));
    assert p[..Mul(n, n)] == p;
    ShownJoinRows(rows, p, n);
  }

  /** "=>" starts at `k`. */
  predicate ArrowAt(s: string, k: nat) {
    k + 2 <= |s| && s[k] == '=' && s[k + 1] == '>'
  }

  /** Where the first "=>" from `i` on starts, as `str.split` finds it. */
  function FindArrow(s: string, i: nat): (r: Option<nat>)
    requires i <= |s|
    ensures r.Some? ==> i <= r.value && ArrowAt(s, r.value)
    ensures forall k | i <= k && (r.None? || k < r.value) :: !ArrowAt(s, k)
    decreases |s| - i
  {
    if |s| < i + 2 then None
    else if ArrowAt(s, i) then Some(i)
    else FindArrow(s, i + 1)
  }

  /** Why a rule line cannot be read. */
  datatype RuleError =
    | MissingArrow            // `parts[1]` raises IndexError: the line has no "=>"
    | NotSquare(pixels: nat)  // the input pattern is not square

  /** `parse_rule`: the text before the first "=>" and the text after it, up to a second
      "=>" if there is one, are the input and the output pattern. */
  function ParsedRule(line: string): Result<Rule, RuleError> {
    match FindArrow(line, 0)
    case None => Err(MissingArrow)
    case Some(k) =>
      var second := match FindArrow(line, k + 2) case None => line[k + 2..] case Some(e) => line[k + 2..e];
      RuleFromParts(line[..k], second)
  }

  /** Each part stripped and read as a pattern; `Rule` takes the size of the input from
      its number of pixels. */
  function RuleFromParts(first: string, second: string): Result<Rule, RuleError> {
    var inPattern := ParsePattern(Strip(first));
    var outPattern := ParsePattern(Strip(second));
    var n := Isqrt(|inPattern|);
    if Square(inPattern, n) then Ok(RuleFor(inPattern, n, outPattern)) else Err(NotSquare(|inPattern|))
  }

  /** A line fails for want of "=>" exactly when it has none. */
  lemma {:induction false} ParsedRuleArrow(line: string)
    ensures ParsedRule(line) == Err(MissingArrow) <==> forall k | 0 <= k < |line| :: !ArrowAt(line, k)
  {
    if FindArrow(line, 0).Some? {
      assert ArrowAt(line, FindArrow(line, 0).value);
    }
  }

  /** Printed text has no white space and no '='. */
  predicate Plain(t: string) {
    forall k | 0 <= k < |t| :: t[k] == '#' || t[k] == '.' || t[k] == '/'
  }

  lemma {:induction false} ShownRowsPlain(p: Grid, n: nat, k: nat)
    requires Square(p, n) && k <= n
    ensures Plain(ShownRows(p, n, k))
  {
    if k > 0 {
      ShownRowsPlain(p, n, k - 1);
      var a, b := ShownRows(p, n, k - 1) + (if k - 1 != 0 then "/" else ""), RowText(p, n, k - 1);
      assert Plain(a);
      assert forall j | 0 <= j < |b| :: b[j] == '#' || b[j] == '.';
      assert ShownRows(p, n, k) == a + b;
    }
  }

  /** Stripping leaves text without white space at either end alone. */
  lemma {:induction false} StripPlain(t: string)
    requires Plain(t)
    ensures Strip(t) == t
  {
    if t != [] {
      assert !IsSpace(t[0]) && !IsSpace(t[|t| - 1]);
    }
  }

  lemma {:induction false} StripTrailing(t: string)
    requires Plain(t)
    ensures Strip(t + " ") == t
  {
    assert (t + " ")[..|t + " "| - 1] == t;
    assert RStrip(t + " ") == RStrip(t);
    StripPlain(t);
    if t != [] {
      assert !IsSpace(t[|t| - 1]);
    }
  }

  lemma {:induction false} StripLeading(t: string)
    requires Plain(t)
    ensures Strip(" " + t) == t
  {
    if t == [] {
      assert (" " + t)[..0] == [];
    } else {
      assert !IsSpace(t[|t| - 1]) && !IsSpace(t[0]);
      assert RStrip(" " + t) == " " + t;
      assert (" " + t)[1..] == t;
    }
  }

  /** In `input => output` made of printed text, the only "=>" is the one in between. */
  lemma {:induction false} ArrowBetween(a: string, b: string)
    requires Plain(a) && Plain(b)
    ensures FindArrow(a + " => " + b, 0) == Some(|a| + 1)
    ensures FindArrow(a + " => " + b, |a| + 3).None?
  {
    var line := a + " => " + b;
    var k := |a| + 1;
    assert ArrowAt(line, k);
    forall j | 0 <= j < k
      ensures !ArrowAt(line, j)
    {
      if j < |a| {
        assert line[j] == a[j];
      }
    }
    FirstArrow(line, 0, k);
    forall j | k + 2 <= j
      ensures !ArrowAt(line, j)
    {
      if j + 2 <= |line| {
        assert line[j + 1] == b[j + 1 - (k + 3)];
      }
    }
    NoArrow(line, k + 2);
  }

  /** The first "=>" from `i` on is where it is. */
  lemma {:induction false} FirstArrow(s: string, i: nat, k: nat)
    requires i <= k && ArrowAt(s, k) && forall j | i <= j < k :: !ArrowAt(s, j)
    ensures FindArrow(s, i) == Some(k)
    decreases k - i
  {
    if i < k {
      FirstArrow(s, i + 1, k);
    }
  }

  lemma {:induction false} NoArrow(s: string, i: nat)
    requires i <= |s| && forall j | i <= j :: !ArrowAt(s, j)
    ensures FindArrow(s, i).None?
    decreases |s| - i
  {
    if i + 2 <= |s| {
      NoArrow(s, i + 1);
    }
  }

  /** Reading a rule printed as `input => output` gives the rule for that input and
      output. */
  lemma {:induction false} ParsedRuleText(inPattern: Grid, n: nat, outPattern: Grid, m: nat)
    requires Square(inPattern, n) && Square(outPattern, m)
    ensures ParsedRule(Shown(inPattern, n) + " => " + Shown(outPattern, m)) == Ok(RuleFor(inPattern, n, outPattern))
  {
    ShownRowsPlain(inPattern, n, n);
    ShownRowsPlain(outPattern, m, m);
    ParsedPlain(Shown(inPattern, n), Shown(outPattern, m));
    RuleFromShown(inPattern, n, outPattern, m);
  }

  /** `input => output` splits around its only "=>". */
  lemma {:induction false} ParsedPlain(a: string, b: string)
    requires Plain(a) && Plain(b)
    ensures ParsedRule(a + " => " + b) == RuleFromParts(a + " ", " " + b)
  {
    var line := a + " => " + b;
    ArrowBetween(a, b);
    assert line[..|a| + 1] == a + " ";
    assert line[|a| + 3..] == " " + b;
  }

  lemma {:induction false} RuleFromShown(inPattern: Grid, n: nat, outPattern: Grid, m: nat)
    requires Square(inPattern, n) && Square(outPattern, m)
    ensures RuleFromParts(Shown(inPattern, n) + " ", " " + Shown(outPattern, m)) == Ok(RuleFor(inPattern, n, outPattern))
  {
    ShownRowsPlain(inPattern, n, n);
    ShownRowsPlain(outPattern, m, m);
    StripTrailing(Shown(inPattern, n));
    StripLeading(Shown(outPattern, m));
    ParseShown(inPattern, n);
    ParseShown(outPattern, m);
    IsqrtSquare(n);
  }

  /** The picture every run starts from. */
  const StartText := ".#./..#/###"

  /** It reads as a 3 by 3 picture. */
  function Start(): (p: Grid)
    ensures Square(p, 3) && p == ParsePattern(StartText)
  {
    StartPixels();
    ParsePattern(StartText)
  }

  lemma {:induction false} StartPixels()
    ensures ParsePattern(StartText) == [false, true, false, false, false, true, true, true, true]
    ensures Mul(3, 3) == 9
  {
    StartRows();
    RowPixels(".#.");
    RowPixels("..#");
    RowPixels("###");
  }

  /** The start picture row by row. */
  lemma {:induction false} StartRows()
    ensures ParsePattern(StartText) == ParsePattern(".#.") + ParsePattern("..#") + ParsePattern("###")
  {
    var top, middle, bottom := ".#.", "..#", "###";
    assert StartText == top + "/" + (middle + "/" + bottom);
    ParseSeparated(top, "/", middle + "/" + bottom);
    ParseSeparated(middle, "/", bottom);
  }

  /** A well-formed row of three. */
  lemma {:induction false} RowPixels(row: string)
    requires RowOf(row, 3)
    ensures ParsePattern(row) == [row[0] == '#', row[1] == '#', row[2] == '#']
  {
    ParseRowOf(row, 3);
  }

  // ---------------------------------------------------------------------
  // Pictures

  /** A picture whose pixels the methods below update in place. */
  class Pattern {
    const size: nat
    var pattern: Grid

    /** The size is the integer square root of the number of pixels. */
    constructor(pattern: Grid)
      ensures this.pattern == pattern && size == Isqrt(|pattern|)
    {
      this.pattern := pattern;
      size := Isqrt(|pattern|);
    }

    ghost predicate Valid()
      reads this
    {
      Square(pattern, size)
    }

    /** `hash`: shifting left and or-ing in a bit is doubling and adding it. */
    method Hash() returns (out: nat)
      ensures out == HashOf(pattern)
    {
      out := 0;
      for i := 0 to |pattern|
        invariant out == HashPrefix(pattern, i)
      {
        out := out * 2 + Bit(pattern[i]);
      }
    }

    /** `__str__`: the rows top down, '#' for on and '.' for off, separated by '/'. */
    method ToString() returns (text: string)
      requires Valid()
      ensures text == Shown(pattern, size)
    {
      text := "";
      for i := 0 to size
        invariant text == ShownRows(pattern, size, i)
      {
        if i != 0 {
          text := text + "/";
        }
        ghost var head := text;
        for j := 0 to size
          invariant text == head + RowText(pattern, size, i)[..j]
        {
          IndexOf(size, i, j);
          text := text + (if Get(i, j) then "#" else ".");
          assert RowText(pattern, size, i)[..j + 1] == RowText(pattern, size, i)[..j] + [RowText(pattern, size, i)[j]];
        }
        assert RowText(pattern, size, i)[..size] == RowText(pattern, size, i);
      }
    }

    function Get(row: nat, column: nat): bool
      reads this
      requires Index(size, row, column) < |pattern|
    {
      pattern[Index(size, row, column)]
    }

    method Set(row: nat, column: nat, value: bool)
      requires Index(size, row, column) < |pattern|
      modifies this
      ensures pattern == old(pattern)[Index(size, row, column) := value]
    {
      pattern := pattern[Index(size, row, column) := value];
    }

    /** `get_subpattern`: a new picture holding block (row, column). */
    method GetSubpattern(row: nat, column: nat) returns (sub: Pattern)
      requires Valid() && DivisorOf(size).Some?
      requires BlockFits(size, DivisorOf(size).value, row, column)
      ensures fresh(sub) && sub.Valid() && sub.size == DivisorOf(size).value
      ensures sub.pattern == Block(pattern, size, DivisorOf(size).value, row, column)
    {
      var divisor := DivisorOf(size).value;
      MulIsTimes(divisor, divisor);
      IsqrtSquare(divisor);
      sub := new Pattern(seq(divisor * divisor, _ => false));
      ghost var block := Block(pattern, size, divisor, row, column);
      for i := 0 to divisor
        invariant sub.Valid() && sub.size == divisor
        invariant Mul(i, divisor) <= Mul(divisor, divisor)
        invariant sub.pattern[..Mul(i, divisor)] == block[..Mul(i, divisor)]
      {
        var start := row * size * divisor + column * divisor + i * size;
        RowStart(size, divisor, row, column, i);
        BlockRow(pattern, size, divisor, row, column, i, start);
        MulIsTimes(i, divisor);
        MulIsTimes(i + 1, divisor);
        Splice(sub.pattern, block, pattern[start..start + divisor], i * divisor, (i + 1) * divisor);
        sub.pattern := sub.pattern[..i * divisor] + pattern[start..start + divisor] + sub.pattern[(i + 1) * divisor..];
      }
      assert sub.pattern == sub.pattern[..Mul(divisor, divisor)];
      assert block == block[..Mul(divisor, divisor)];
    }

    /** `set_subpattern`: block (row, column) of the size of `subPattern` becomes it. */
    method SetSubpattern(row: nat, column: nat, subPattern: Grid)
      requires Valid() && Square(subPattern, Isqrt(|subPattern|))
      requires Isqrt(|subPattern|) == 0 || BlockFits(size, Isqrt(|subPattern|), row, column)
      modifies this
      ensures Valid()
      ensures var s := Isqrt(|subPattern|);
        pattern == PutBlock(old(pattern), size, Mul(row, s), Mul(column, s), subPattern, s)
    {
      var subSize := Isqrt(|subPattern|);
      ghost var top, left := Mul(row, subSize), Mul(column, subSize);
      PutRowsZero(pattern, size, top, left, subPattern, subSize);
      if subSize > 0 {
        BlockInside(size, subSize, row, column, subSize - 1, subSize - 1);
      }
      for i := 0 to subSize
        invariant Valid()
        invariant pattern == PutRows(old(pattern), size, top, left, subPattern, subSize, i)
      {
        var start := row * size * subSize + column * subSize + i * size;
        RowStart(size, subSize, row, column, i);
        PutRowsStep(old(pattern), size, top, left, subPattern, subSize, i, pattern, start);
        MulIsTimes(i, subSize);
        MulIsTimes(i + 1, subSize);
        pattern := pattern[..start] + subPattern[i * subSize..(i + 1) * subSize] + pattern[start + subSize..];
      }
    }

    /** The inner loop shared by the three copies below: every pixel (i, j) of row `i` is
        written to its place under `s` in `target`. */
    method CopyRow(target: Pattern, s: Sym, i: nat)
      requires Valid() && target.Valid() && target.size == size && target != this && i < size
      requires Copied(target.pattern, pattern, size, s, Mul(i, size))
      modifies target
      ensures target.Valid() && Copied(target.pattern, pattern, size, s, Mul(i + 1, size))
    {
      for j := 0 to size
        invariant target.Valid()
        invariant Copied(target.pattern, pattern, size, s, Index(size, i, j))
      {
        var (r, c) := Dest(s, size, i, j);
        ghost var q := target.pattern;
        CopyStep(q, pattern, size, s, i, j, r, c);
        target.Set(r, c, Get(i, j));
        assert target.pattern == q[Index(size, r, c) := Cell(pattern, size, i, j)];
      }
    }

    /** `flip_horizontal`: pixel (i, j) is written to (i, size - j - 1). */
    method FlipHorizontal() returns (flipped: Pattern)
      requires Valid()
      ensures fresh(flipped) && flipped.Valid() && flipped.size == size
      ensures flipped.pattern == Apply(MirrorColumns, pattern, size)
    {
      flipped := new Pattern(seq(|pattern|, _ => false));
      IsqrtSquare(size);
      for i := 0 to size
        invariant flipped.Valid() && flipped.size == size
        invariant Copied(flipped.pattern, pattern, size, MirrorColumns, Mul(i, size))
      {
        CopyRow(flipped, MirrorColumns, i);
      }
      CopyDone(flipped.pattern, pattern, size, MirrorColumns);
    }

    /** `flip_vertical`: pixel (i, j) is written to (size - i - 1, j). */
    method FlipVertical() returns (flipped: Pattern)
      requires Valid()
      ensures fresh(flipped) && flipped.Valid() && flipped.size == size
      ensures flipped.pattern == Apply(MirrorRows, pattern, size)
    {
      flipped := new Pattern(seq(|pattern|, _ => false));
      IsqrtSquare(size);
      for i := 0 to size
        invariant flipped.Valid() && flipped.size == size
        invariant Copied(flipped.pattern, pattern, size, MirrorRows, Mul(i, size))
      {
        CopyRow(flipped, MirrorRows, i);
      }
      CopyDone(flipped.pattern, pattern, size, MirrorRows);
    }

    /** `rotate_ccw`: pixel (i, j) is written to (size - j - 1, i). */
    method RotateCcw() returns (rotated: Pattern)
      requires Valid()
      ensures fresh(rotated) && rotated.Valid() && rotated.size == size
      ensures rotated.pattern == Apply(QuarterTurn, pattern, size)
    {
      rotated := new Pattern(seq(|pattern|, _ => false));
      IsqrtSquare(size);
      for i := 0 to size
        invariant rotated.Valid() && rotated.size == size
        invariant Copied(rotated.pattern, pattern, size, QuarterTurn, Mul(i, size))
      {
        CopyRow(rotated, QuarterTurn, i);
      }
      CopyDone(rotated.pattern, pattern, size, QuarterTurn);
    }

    /** One step of `enchance`: look up the rules for the block size, find the one rule
        matching block (i, j) and write its output into `newPattern`. Fails, leaving
        `newPattern` alone, with the error `enchance` raises at that block. */
    method EnhanceBlock(newPattern: Pattern, rules: map<nat, seq<Rule>>, i: nat, j: nat,
                        d: nat, ghost count: nat, ghost outs: (nat, nat) -> Grid,
                        ghost p: Grid, ghost n: nat)
        returns (err: Option<EnhanceError>)
      requires Valid() && p == pattern && n == size
      requires RulesFit(rules) && DivisorOf(n) == Some(d) && count == n / d
      requires i < count && j < count
      requires Tiled(n, d, count) && OutputsFit(RulesFor(rules, d), d + 1)
      requires outs == Outputs(p, n, d, count, RulesFor(rules, d)) && Fits(outs, d + 1)
      requires newPattern != this && newPattern.Valid() && newPattern.size == n + count
      requires newPattern.pattern == Partial(outs, count, d + 1, i, j)
      modifies newPattern
      ensures err.None? ==>
        newPattern.Valid() && newPattern.size == n + count && d in rules &&
        newPattern.pattern == Partial(outs, count, d + 1, i, j + 1) &&
        FirstNonUnique(p, n, d, count, rules[d], i, j) == FirstNonUnique(p, n, d, count, rules[d], i, j + 1)
      ensures err.Some? ==>
        if d !in rules then err.value == MissingRules(d)
        else err.value.NotUnique? &&
             FirstNonUnique(p, n, d, count, rules[d], i, j) == Some(err.value.matched)
    {
      ghost var rs := RulesFor(rules, d);
      Grown(n, d);
      MulIsTimes(n + count, n + count);
      IsqrtSquare(d + 1);
      EnhanceStep(p, n, d, count, rs, i, j);
      var sub := GetSubpattern(i, j);
      if d !in rules {
        return Some(MissingRules(d));
      }
      var matching := Matching(rules[d], sub.pattern);
      assert matching == Matching(rs, Block(p, n, d, i, j));
      if |matching| != 1 {
        return Some(NotUnique(|matching|));
      }
      ghost var before := newPattern.pattern;
      ghost var out := matching[0].outPattern;
      ghost var s := Isqrt(|out|);
      assert s == d + 1;
      newPattern.SetSubpattern(i, j, matching[0].outPattern);
      assert newPattern.pattern == PutBlock(before, newPattern.size, Mul(i, s), Mul(j, s), out, s);
      assert newPattern.size == Mul(count, d + 1);
      assert before == Partial(outs, count, d + 1, i, j);
      assert newPattern.pattern == PutBlock(Partial(outs, count, d + 1, i, j), Mul(count, d + 1), Mul(i, d + 1), Mul(j, d + 1), out, d + 1);
      return None;
    }

    /** Row `i` of blocks in `enchance`: each block of the row in turn, as `EnhanceBlock`. */
    method EnhanceRow(newPattern: Pattern, rules: map<nat, seq<Rule>>, i: nat,
                      d: nat, count: nat, ghost outs: (nat, nat) -> Grid,
                      ghost p: Grid, ghost n: nat)
        returns (err: Option<EnhanceError>)
      requires Valid() && p == pattern && n == size
      requires RulesFit(rules) && DivisorOf(n) == Some(d) && count == n / d && i < count
      requires Tiled(n, d, count) && OutputsFit(RulesFor(rules, d), d + 1)
      requires outs == Outputs(p, n, d, count, RulesFor(rules, d)) && Fits(outs, d + 1)
      requires newPattern != this && newPattern.Valid() && newPattern.size == n + count
      requires newPattern.pattern == Partial(outs, count, d + 1, i, 0)
      modifies newPattern
      ensures err.None? ==>
        newPattern.Valid() && newPattern.size == n + count && d in rules &&
        newPattern.pattern == Partial(outs, count, d + 1, i + 1, 0) &&
        FirstNonUnique(p, n, d, count, rules[d], i, 0) == FirstNonUnique(p, n, d, count, rules[d], i + 1, 0)
      ensures err.Some? ==>
        if d !in rules then i == 0 ==> err.value == MissingRules(d)
        else err.value.NotUnique? &&
             FirstNonUnique(p, n, d, count, rules[d], i, 0) == Some(err.value.matched)
    {
      ghost var rs := RulesFor(rules, d);
      for j := 0 to count
        invariant newPattern.Valid() && newPattern.size == n + count
        invariant j > 0 ==> d in rules
        invariant newPattern.pattern == Partial(outs, count, d + 1, i, j)
        invariant FirstNonUnique(p, n, d, count, rs, i, 0) == FirstNonUnique(p, n, d, count, rs, i, j)
      {
        err := EnhanceBlock(newPattern, rules, i, j, d, count, outs, p, n);
        if err.Some? {
          return;
        }
      }
      EnhanceNextRow(p, n, d, count, rs, i);
      return None;
    }

    /** The rows of blocks of `enchance`, top to bottom, as `EnhanceRow`; stops at the first
        error. */
    method EnhanceRows(newPattern: Pattern, rules: map<nat, seq<Rule>>,
                       d: nat, count: nat, ghost outs: (nat, nat) -> Grid,
                       ghost p: Grid, ghost n: nat)
        returns (err: Option<EnhanceError>)
      requires Valid() && p == pattern && n == size
      requires RulesFit(rules) && DivisorOf(n) == Some(d) && count == n / d
      requires Tiled(n, d, count) && OutputsFit(RulesFor(rules, d), d + 1)
      requires outs == Outputs(p, n, d, count, RulesFor(rules, d)) && Fits(outs, d + 1)
      requires newPattern != this && newPattern.Valid() && newPattern.size == n + count
      requires newPattern.pattern == Partial(outs, count, d + 1, 0, 0)
      modifies newPattern
      ensures err.None? ==>
        newPattern.Valid() && newPattern.size == n + count &&
        newPattern.pattern == Partial(outs, count, d + 1, count, 0) &&
        (0 < count ==> d in rules && FirstNonUnique(p, n, d, count, rules[d], 0, 0).None?)
      ensures err.Some? ==>
        0 < count &&
        if d !in rules then err.value == MissingRules(d)
        else err.value.NotUnique? && FirstNonUnique(p, n, d, count, rules[d], 0, 0) == Some(err.value.matched)
    {
      ghost var rs := RulesFor(rules, d);
      for i := 0 to count
        invariant newPattern.Valid() && newPattern.size == n + count
        invariant i > 0 ==> d in rules
        invariant newPattern.pattern == Partial(outs, count, d + 1, i, 0)
        invariant FirstNonUnique(p, n, d, count, rs, 0, 0) == FirstNonUnique(p, n, d, count, rs, i, 0)
      {
        err := EnhanceRow(newPattern, rules, i, d, count, outs, p, n);
        if err.Some? {
          return;
        }
      }
      return None;
    }

    /** `enchance`: a new picture, each block replaced by the output of its one rule. */
    method Enhance(rules: map<nat, seq<Rule>>) returns (result: Result<Pattern, EnhanceError>)
      requires Valid() && RulesFit(rules)
      ensures result.Ok? <==> Enhanced(pattern, size, rules).Ok?
      ensures result.Ok? ==>
        (fresh(result.value) && result.value.Valid() &&
         result.value.size == size + size / DivisorOf(size).value &&
         result.value.pattern == Enhanced(pattern, size, rules).value)
      ensures result.Err? ==> result.error == Enhanced(pattern, size, rules).error
    {
      var divisor := DivisorOf(size);
      if divisor.None? {
        return Err(NotDivisible(size));
      }
      var d := divisor.value;
      var count := size / d;
      var newSize := size + count;
      Grown(size, d);
      MulIsTimes(newSize, newSize);
      IsqrtSquare(newSize);
      ghost var p := pattern;
      var newPattern := new Pattern(seq(newSize * newSize, _ => false));
      ghost var rs := RulesFor(rules, d);
      ghost var outs := Outputs(p, size, d, count, rs);
      OutputsFits(p, size, d, count, rs);
      assert newPattern.pattern == Partial(outs, count, d + 1, 0, 0);
      var err := EnhanceRows(newPattern, rules, d, count, outs, p, size);
      if err.Some? {
        return Err(err.value);
      }
      PartialComplete(outs, count, d + 1);
      return Ok(newPattern);
    }
  }

  /** `Rule(in_pattern, out_pattern)`: the hashes of the eight orientations of the input,
      computed with the picture methods. */
  method NewRule(inPattern: Pattern, outPattern: Pattern) returns (rule: Rule)
    requires inPattern.Valid()
    ensures rule == RuleFor(inPattern.pattern, inPattern.size, outPattern.pattern)
  {
    var r90 := inPattern.RotateCcw();
    var r180 := r90.RotateCcw();
    var r270 := r180.RotateCcw();
    var flippedH := inPattern.FlipHorizontal();
    var flippedV := inPattern.FlipVertical();
    var r90H := r90.FlipHorizontal();
    var r90V := r90.FlipVertical();
    var inPatterns := [inPattern, flippedH, flippedV, r90, r90H, r90V, r180, r270];
    ghost var pictures := [inPattern.pattern, flippedH.pattern, flippedV.pattern, r90.pattern,
                           r90H.pattern, r90V.pattern, r180.pattern, r270.pattern];
    assert pictures == Orientations(inPattern.pattern, inPattern.size);
    var hashes := Hashes(inPatterns, pictures);
    rule := Rule(outPattern.pattern, inPattern.size, hashes);
  }

  /** `set([p.hash() for p in in_patterns])`. */
  method Hashes(ps: seq<Pattern>, ghost pictures: seq<Grid>) returns (hashes: set<int>)
    requires |ps| == |pictures| && forall k | 0 <= k < |ps| :: ps[k].pattern == pictures[k]
    ensures hashes == HashSet(pictures)
  {
    hashes := {};
    for i := 0 to |ps|
      invariant hashes == HashSet(pictures[..i])
    {
      var h := ps[i].Hash();
      HashSetSnoc(pictures, i);
      hashes := hashes + {h};
    }
    assert pictures[..|ps|] == pictures;
  }

  /** `parse_rule`, building the rule with `NewRule`. */
  method ParseRule(line: string) returns (result: Result<Rule, RuleError>)
    ensures result == ParsedRule(line)
  {
    var arrow := FindArrow(line, 0);
    if arrow.None? {
      return Err(MissingArrow);
    }
    var k := arrow.value;
    var next := FindArrow(line, k + 2);
    var second := if next.None? then line[k + 2..] else line[k + 2..next.value];
    result := BuildRule(line[..k], second);
  }

  /** The two parts of a rule line read as patterns and made into a rule. */
  method BuildRule(first: string, second: string) returns (result: Result<Rule, RuleError>)
    ensures result == RuleFromParts(first, second)
  {
    var inPattern := new Pattern(ParsePattern(Strip(first)));
    var outPattern := new Pattern(ParsePattern(Strip(second)));
    if !Square(inPattern.pattern, inPattern.size) {
      return Err(NotSquare(|inPattern.pattern|));
    }
    var rule := NewRule(inPattern, outPattern);
    return Ok(rule);
  }

  /** `do_iterations`: `count` enhancements of the start picture, stopping at the first
      error. */
  method DoIterations(rules: map<nat, seq<Rule>>, count: nat)
      returns (result: Result<Pattern, EnhanceError>)
    requires RulesFit(rules)
    ensures Iterated(Start(), 3, rules, count).Ok? <==> result.Ok?
    ensures result.Ok? ==>
      fresh(result.value) && result.value.Valid() &&
      (result.value.pattern, result.value.size) == Iterated(Start(), 3, rules, count).value
    ensures result.Err? ==> result.error == Iterated(Start(), 3, rules, count).error
  {
    var pattern := new Pattern(ParsePattern(StartText));
    StartPixels();
    IsqrtSquare(3);
    result := Run(pattern, rules, count);
  }

  /** The loop of `do_iterations`: `count` enhancements of `pattern`. */
  method Run(pattern: Pattern, rules: map<nat, seq<Rule>>, count: nat)
      returns (result: Result<Pattern, EnhanceError>)
    requires pattern.Valid() && RulesFit(rules)
    ensures result.Ok? <==> Iterated(pattern.pattern, pattern.size, rules, count).Ok?
    ensures result.Ok? ==>
      (fresh(result.value) || result.value == pattern) && result.value.Valid() &&
      (result.value.pattern, result.value.size) == Iterated(pattern.pattern, pattern.size, rules, count).value
    ensures result.Err? ==> result.error == Iterated(pattern.pattern, pattern.size, rules, count).error
  {
    var current := pattern;
    ghost var target := Iterated(pattern.pattern, pattern.size, rules, count);
    for i := 0 to count
      invariant (fresh(current) || current == pattern) && current.Valid()
      invariant target == Iterated(current.pattern, current.size, rules, count - i)
    {
      var next := Step(current, rules, target, count - i);
      if next.Err? {
        return Err(next.error);
      }
      current := next.value;
    }
    return Ok(current);
  }

  /** One pass of the loop of `do_iterations`: the first of the `k` enhancements left. */
  method Step(current: Pattern, rules: map<nat, seq<Rule>>,
              ghost target: Result<(Grid, nat), EnhanceError>, ghost k: nat)
      returns (next: Result<Pattern, EnhanceError>)
    requires current.Valid() && RulesFit(rules) && 0 < k
    requires target == Iterated(current.pattern, current.size, rules, k)
    ensures next.Err? ==> target == Err(next.error)
    ensures next.Ok? ==>
      fresh(next.value) && next.value.Valid() &&
      target == Iterated(next.value.pattern, next.value.size, rules, k - 1)
  {
    ghost var p, n := current.pattern, current.size;
    next := current.Enhance(rules);
    if next.Err? {
      assert Enlarged(p, n, rules) == Err(next.error);
      IteratedFails(p, n, rules, k, target);
    } else {
      assert Enlarged(p, n, rules) == Ok((next.value.pattern, next.value.size));
      IteratedNext(p, n, rules, k, target, next.value.pattern, next.value.size);
    }
  }
}
