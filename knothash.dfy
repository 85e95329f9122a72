/** The knot hash of the disk defragmenter: a list of 256 marks is twisted by
    reversing circular sections whose lengths come from the input, 64 rounds
    long; the resulting sparse hash is folded with XOR into 16 bytes and
    written as 32 lowercase hexadecimal digits. */
module KnotHash {
  import opened Common

  /** The list position reached `k` steps after `start` on a circle of `n`. */
  function Wrap(n: nat, start: int, k: int): (r: nat)
    requires n > 0
    ensures r < n
  {
    (start + k) % n
  }

  /** Two different steps within one lap land on different positions. */
  lemma WrapDistinct(n: nat, start: int, k1: int, k2: int)
    requires n > 0 && 0 <= k1 < n && 0 <= k2 < n && k1 != k2
    ensures Wrap(n, start, k1) != Wrap(n, start, k2)
  {
    var a1, a2 := start + k1, start + k2;
    assert a1 == (a1 / n) * n + a1 % n;
    assert a2 == (a2 / n) * n + a2 % n;
    if a1 % n == a2 % n {
      assert (a2 / n - a1 / n) * n == k2 - k1;
      MultipleInsideIsZero(a2 / n - a1 / n, n);
    }
  }

  /** `s` after the first `count` swaps of `reverse(s, start, length)`:
      swap `k` exchanges the positions `k` and `length - k - 1` steps from
      `start`, both taken modulo the list length. */
  function Swaps(s: seq<int>, start: int, length: nat, count: nat): (r: seq<int>)
    requires |s| > 0
    ensures |r| == |s|
  {
    if count == 0 then s
    else
      var prev := Swaps(s, start, length, count - 1);
      Swap(prev, Wrap(|s|, start, count - 1), Wrap(|s|, start, length - count))
  }

  /** The list `reverse(values, start, length)` leaves behind: `length / 2`
      swaps, rounded down as `int(length / 2)` does for a natural length. */
  function Reversed(s: seq<int>, start: int, length: nat): (r: seq<int>)
    requires |s| > 0
    ensures |r| == |s|
  {
    Swaps(s, start, length, length / 2)
  }

  lemma {:induction false} SwapsMultiset(s: seq<int>, start: int, length: nat, count: nat)
    requires |s| > 0
    ensures multiset(Swaps(s, start, length, count)) == multiset(s)
  {
    if count > 0 {
      var prev := Swaps(s, start, length, count - 1);
      var p, q := Wrap(|s|, start, count - 1), Wrap(|s|, start, length - count);
      SwapsMultiset(s, start, length, count - 1);
      SwapMultiset(prev, p, q);
      assert Swaps(s, start, length, count) == Swap(prev, p, q);
    }
  }

  /** Reversing only reorders the list. */
  lemma ReversedMultiset(s: seq<int>, start: int, length: nat)
    requires |s| > 0
    ensures multiset(Reversed(s, start, length)) == multiset(s)
  {
    SwapsMultiset(s, start, length, length / 2);
  }

  /** After `count` of the swaps, the outer `count` places on each end of the
      section hold the mirrored values and every other place is untouched. */
  lemma {:induction false} SwapsShape(s: seq<int>, start: int, length: nat, count: nat, k: nat)
    requires 0 < length <= |s| && count <= length / 2 && k < |s|
    ensures Swaps(s, start, length, count)[Wrap(|s|, start, k)] ==
            if k < count || (length - count <= k < length)
            then s[Wrap(|s|, start, length - 1 - k)]
            else s[Wrap(|s|, start, k)]
    decreases count, 1
  {
    if count > 0 {
      if k == count - 1 || k == length - count {
        SwappedPlace(s, start, length, count, k);
      } else {
        UntouchedPlace(s, start, length, count, k);
      }
    }
  }

  /** The latest swap leaves the other places as they were. */
  lemma {:induction false} UntouchedPlace(s: seq<int>, start: int, length: nat, count: nat, k: nat)
    requires 0 < length <= |s| && 0 < count <= length / 2 && k < |s|
    requires k != count - 1 && k != length - count
    ensures Swaps(s, start, length, count)[Wrap(|s|, start, k)] ==
            if k < count || (length - count <= k < length)
            then s[Wrap(|s|, start, length - 1 - k)]
            else s[Wrap(|s|, start, k)]
    decreases count, 0
  {
    var n := |s|;
    WrapDistinct(n, start, k, count - 1);
    WrapDistinct(n, start, k, length - count);
    SwapsShape(s, start, length, count - 1, k);
  }

  /** The latest swap exchanges the places `count - 1` and `length - count`
      steps from `start`, which had not been touched before. */
  lemma {:induction false} SwappedPlace(s: seq<int>, start: int, length: nat, count: nat, k: nat)
    requires 0 < length <= |s| && 0 < count <= length / 2
    requires k == count - 1 || k == length - count
    ensures Swaps(s, start, length, count)[Wrap(|s|, start, k)] == s[Wrap(|s|, start, length - 1 - k)]
    decreases count, 0
  {
    var n := |s|;
    var other := length - 1 - k;
    WrapDistinct(n, start, k, other);
    SwapsShape(s, start, length, count - 1, other);
  }

  /** `reverse(values, start, length)` for a section no longer than the list:
      the place `k` steps from `start` now holds what was `length - 1 - k`
      steps from `start` when `k < length`, and keeps its value otherwise. */
  lemma ReversedShape(s: seq<int>, start: int, length: nat, k: nat)
    requires length <= |s| && k < |s|
    ensures Reversed(s, start, length)[Wrap(|s|, start, k)] ==
            if k < length then s[Wrap(|s|, start, length - 1 - k)] else s[Wrap(|s|, start, k)]
  {
    if length > 0 {
      SwapsShape(s, start, length, length / 2, k);
      if k < length && !(k < length / 2 || length - length / 2 <= k) {
        assert length - 1 - k == k;
      }
    }
  }

  /** `reverse`: the swap loop run on the list in place. */
  method Reverse(values: array<int>, start: int, length: nat)
    requires values.Length > 0
    modifies values
    ensures values[..] == Reversed(old(values[..]), start, length)
    ensures multiset(values[..]) == multiset(old(values[..]))
  {
    ghost var s := values[..];
    var i := 0;
    while i < length / 2
      invariant 0 <= i <= length / 2
      invariant values[..] == Swaps(s, start, length, i)
    {
      var index := (start + i) % values.Length;
      var opposite := (start + length - i - 1) % values.Length;
      assert index == Wrap(values.Length, start, i) && opposite == Wrap(values.Length, start, length - (i + 1));
      ghost var prev := values[..];
      values[index], values[opposite] := values[opposite], values[index];
      assert values[..] == Swap(prev, index, opposite) == Swaps(s, start, length, i + 1);
      i := i + 1;
    }
    ReversedMultiset(s, start, length);
  }

  /** The marks a round starts from: `list(range(256))`. */
  function Marks(): (r: seq<int>)
    ensures |r| == 256 && forall i | 0 <= i < 256 :: r[i] == i
  {
    seq(256, i => i)
  }

  /** The lengths the input stands for: its character codes followed by
      the fixed suffix 17, 31, 73, 47, 23. */
  function Lengths(value: string): (r: seq<nat>)
    ensures |r| == |value| + 5
    ensures forall i | 0 <= i < |value| :: r[i] == value[i] as int
    ensures r[|value|..] == [17, 31, 73, 47, 23]
  {
    seq(|value|, i requires 0 <= i < |value| => value[i] as nat) + [17, 31, 73, 47, 23]
  }

  datatype Knot = Knot(marks: seq<int>, position: int, skip: int)

  /** One length processed: reverse the section, then advance the position
      by the length plus the skip size and grow the skip, both modulo the
      list length. */
  function Twist(k: Knot, length: nat): (r: Knot)
    requires |k.marks| > 0
    ensures |r.marks| == |k.marks|
  {
    var n := |k.marks|;
    Knot(Reversed(k.marks, k.position, length), (k.position + length + k.skip) % n, (k.skip + 1) % n)
  }

  /** The knot after processing `lengths` in order. */
  function TwistAll(k: Knot, lengths: seq<nat>): (r: Knot)
    requires |k.marks| > 0
    ensures |r.marks| == |k.marks|
  {
    if lengths == [] then k
    else Twist(TwistAll(k, lengths[..|lengths| - 1]), lengths[|lengths| - 1])
  }

  /** The knot after `rounds` rounds over the same lengths, the position and
      skip size carried from round to round. */
  function Rounds(k: Knot, lengths: seq<nat>, rounds: nat): (r: Knot)
    requires |k.marks| > 0
    ensures |r.marks| == |k.marks|
  {
    if rounds == 0 then k else TwistAll(Rounds(k, lengths, rounds - 1), lengths)
  }

  /** The sparse hash of `value`: 64 rounds from the untouched marks. */
  function SparseHash(value: string): (r: seq<int>)
    ensures |r| == 256
  {
    Rounds(Knot(Marks(), 0, 0), Lengths(value), 64).marks
  }

  /** What every knot reached from the initial one satisfies: the marks are
      a permutation of 0..255 and the position and skip size stay in
      0..255. */
  ghost predicate Tied(k: Knot) {
    |k.marks| == 256 && multiset(k.marks) == multiset(Marks()) &&
    0 <= k.position < 256 && 0 <= k.skip < 256
  }

  lemma TwistTied(k: Knot, length: nat)
    requires Tied(k)
    ensures Tied(Twist(k, length))
  {
    ReversedMultiset(k.marks, k.position, length);
  }

  lemma {:induction false} TwistAllTied(k: Knot, lengths: seq<nat>)
    requires Tied(k)
    ensures Tied(TwistAll(k, lengths))
  {
    if lengths != [] {
      TwistAllTied(k, lengths[..|lengths| - 1]);
      TwistTied(TwistAll(k, lengths[..|lengths| - 1]), lengths[|lengths| - 1]);
    }
  }

  lemma {:induction false} RoundsTied(k: Knot, lengths: seq<nat>, rounds: nat)
    requires Tied(k)
    ensures Tied(Rounds(k, lengths, rounds))
  {
    if rounds > 0 {
      RoundsTied(k, lengths, rounds - 1);
      TwistAllTied(Rounds(k, lengths, rounds - 1), lengths);
    }
  }

  predicate IsByte(x: int) {
    0 <= x < 256
  }

  /** A permutation of 0..255 holds bytes only. */
  lemma PermutationHoldsBytes(s: seq<int>)
    requires multiset(s) == multiset(Marks())
    ensures forall i | 0 <= i < |s| :: IsByte(s[i])
  {
    forall i | 0 <= i < |s|
      ensures IsByte(s[i])
    {
      assert s[i] in multiset(s);
      assert s[i] in Marks();
    }
  }

  /** The sparse hash is a permutation of 0..255. */
  lemma SparseHashPermutation(value: string)
    ensures multiset(SparseHash(value)) == multiset(Marks())
    ensures forall i | 0 <= i < 256 :: IsByte(SparseHash(value)[i])
  {
    RoundsTied(Knot(Marks(), 0, 0), Lengths(value), 64);
    PermutationHoldsBytes(SparseHash(value));
  }

  function Byte(x: int): bv8
    requires IsByte(x)
  {
    x as bv8
  }

  /** The XOR of a run of bytes. */
  function Xor(s: seq<int>): bv8
    requires forall i | 0 <= i < |s| :: IsByte(s[i])
  {
    if s == [] then 0 else Xor(s[..|s| - 1]) ^ Byte(s[|s| - 1])
  }

  lemma XorStep(s: seq<int>, from: nat, j: nat)
    requires from + j < |s|
    requires forall i | 0 <= i < |s| :: IsByte(s[i])
    ensures Xor(s[from..from + j + 1]) == Xor(s[from..from + j]) ^ Byte(s[from + j])
  {
    assert s[from..from + j + 1][..j] == s[from..from + j];
  }

  /** The dense hash: byte `i` is the XOR of the sparse hash's block
      `16 * i .. 16 * i + 15`. */
  function Dense(sparse: seq<int>): (r: seq<bv8>)
    requires |sparse| == 256 && forall i | 0 <= i < 256 :: IsByte(sparse[i])
    ensures |r| == 16
    ensures forall i | 0 <= i < 16 :: r[i] == Xor(sparse[16 * i..16 * i + 16])
  {
    seq(16, i requires 0 <= i < 16 => Xor(sparse[16 * i..16 * i + 16]))
  }

  /** A lowercase hexadecimal digit. */
  predicate IsHexDigit(c: char) {
    '0' <= c <= '9' || 'a' <= c <= 'f'
  }

  /** The digit of a value below 16, lowercase as `'{:x}'` writes it. */
  function HexDigit(v: nat): (c: char)
    requires v < 16
    ensures IsHexDigit(c)
  {
    if v < 10 then '0' + v as char else 'a' + (v - 10) as char
  }

  /** The value of a hexadecimal digit, as `int(c, 16)` reads it. */
  function HexValue(c: char): (v: nat)
    requires IsHexDigit(c)
    ensures v < 16 && HexDigit(v) == c
  {
    if '0' <= c <= '9' then c as int - '0' as int else c as int - 'a' as int + 10
  }

  lemma HexValueOfDigit(v: nat)
    requires v < 16
    ensures HexValue(HexDigit(v)) == v
  {
  }

  /** `'{:02x}'.format(b)`: two hexadecimal digits, the high one first. */
  function HexByte(b: bv8): (r: string)
    ensures |r| == 2 && IsHexDigit(r[0]) && IsHexDigit(r[1])
  {
    [HexDigit(b as int / 16), HexDigit(b as int % 16)]
  }

  function HexString(bytes: seq<bv8>): (r: string)
    ensures |r| == 2 * |bytes|
    ensures forall i | 0 <= i < |r| :: IsHexDigit(r[i])
  {
    if bytes == [] then [] else HexString(bytes[..|bytes| - 1]) + HexByte(bytes[|bytes| - 1])
  }

  /** Reads a string of hexadecimal digit pairs back into bytes. */
  function ParseHex(s: string): (r: seq<bv8>)
    requires |s| % 2 == 0 && forall i | 0 <= i < |s| :: IsHexDigit(s[i])
    ensures |r| == |s| / 2
  {
    if s == [] then [] else ParseHex(s[..|s| - 2]) + [ParsePair(s[|s| - 2], s[|s| - 1])]
  }

  /** The byte written by two hexadecimal digits, the high one first. */
  function ParsePair(high: char, low: char): bv8
    requires IsHexDigit(high) && IsHexDigit(low)
  {
    (HexValue(high) * 16 + HexValue(low)) as bv8
  }

  lemma ParseHexSnoc(t: string, d: string)
    requires |t| % 2 == 0 && forall i | 0 <= i < |t| :: IsHexDigit(t[i])
    requires |d| == 2 && IsHexDigit(d[0]) && IsHexDigit(d[1])
    ensures ParseHex(t + d) == ParseHex(t) + [ParsePair(d[0], d[1])]
  {
    var s := t + d;
    assert s[..|s| - 2] == t;
  }

  /** Reading the two digits of `HexByte(b)` gives `b`. */
  lemma ParseHexByte(b: bv8)
    ensures ParsePair(HexByte(b)[0], HexByte(b)[1]) == b
  {
    var hi, lo := b as int / 16, b as int % 16;
    HexValueOfDigit(hi);
    HexValueOfDigit(lo);
    assert hi * 16 + lo == b as int;
  }

  /** The hexadecimal rendering loses nothing: reading it back gives the
      bytes again. */
  lemma {:induction false} ParseHexString(bytes: seq<bv8>)
    ensures ParseHex(HexString(bytes)) == bytes
  {
    if bytes != [] {
      var init, last := bytes[..|bytes| - 1], bytes[|bytes| - 1];
      var t, d := HexString(init), HexByte(last);
      assert HexString(bytes) == t + d;
      ParseHexSnoc(t, d);
      ParseHexString(init);
      ParseHexByte(last);
      assert bytes == init + [last];
    }
  }

  /** The dense hash of `value`. */
  function DenseHash(value: string): (r: seq<bv8>)
    ensures |r| == 16
  {
    SparseHashPermutation(value);
    Dense(SparseHash(value))
  }

  /** The knot hash of `value`, as `compute_hash` returns it. */
  function KnotHash(value: string): (r: string)
    ensures |r| == 32
  {
    HexString(DenseHash(value))
  }

  /** The hash is 32 lowercase hexadecimal digits, the sixteen dense-hash
      bytes in order. */
  lemma KnotHashDigits(value: string)
    ensures forall i | 0 <= i < 32 :: IsHexDigit(KnotHash(value)[i])
    ensures ParseHex(KnotHash(value)) == DenseHash(value)
  {
    ParseHexString(DenseHash(value));
  }

  /** The 64 rounds of `compute_hash`, run in place on a fresh array. */
  method TieKnot(lengths: seq<nat>) returns (sparse: array<int>)
    ensures fresh(sparse)
    ensures sparse[..] == Rounds(Knot(Marks(), 0, 0), lengths, 64).marks
  {
    sparse := new int[256](i => i);
    var position, skip := 0, 0;
    assert sparse[..] == Marks();
    ghost var start := Knot(Marks(), 0, 0);
    for i := 0 to 64
      invariant Knot(sparse[..], position, skip) == Rounds(start, lengths, i)
    {
      for j := 0 to |lengths|
        invariant Knot(sparse[..], position, skip) == TwistAll(Rounds(start, lengths, i), lengths[..j])
      {
        assert lengths[..j + 1][..j] == lengths[..j];
        Reverse(sparse, position, lengths[j]);
        position := (position + lengths[j] + skip) % sparse.Length;
        skip := (skip + 1) % sparse.Length;
      }
      assert lengths[..|lengths|] == lengths;
    }
  }

  /** The XOR fold of `compute_hash`: sixteen blocks of sixteen. */
  method Condense(sparse: array<int>) returns (dense: seq<bv8>)
    requires sparse.Length == 256 && forall i | 0 <= i < 256 :: IsByte(sparse[i])
    ensures dense == Dense(sparse[..])
  {
    ghost var s := sparse[..];
    var fold := new bv8[16](i => 0);
    for i := 0 to 16
      invariant forall k | 0 <= k < i :: fold[k] == Xor(s[16 * k..16 * k + 16])
      invariant forall k | i <= k < 16 :: fold[k] == 0
    {
      ghost var before := fold[..];
      for j := 0 to 16
        invariant forall k | 0 <= k < 16 && k != i :: fold[k] == before[k]
        invariant fold[i] == Xor(s[16 * i..16 * i + j])
      {
        XorStep(s, 16 * i, j);
        fold[i] := fold[i] ^ Byte(sparse[16 * i + j]);
      }
    }
    dense := fold[..];
  }

  /** `compute_hash`: the rounds are run on an array in place, then the
      blocks are folded and written out. */
  method ComputeHash(value: string) returns (hash: string)
    ensures hash == KnotHash(value)
  {
    var sparse := TieKnot(Lengths(value));
    SparseHashPermutation(value);
    var dense := Condense(sparse);
    hash := HexString(dense);
  }
}
