/** Small building blocks shared by the puzzle models: optional values and
    results, the parts of Python's integer semantics the solutions rely on
    (floor modulo, list indexing with negative wrap-around) and the parsing of
    decimal integer literals as `int(...)` does it. */
module Common {

  datatype Option<T> = None | Some(value: T)

  datatype Result<T, E> = Ok(value: T) | Err(error: E)

  function Abs(i: int): nat {
    if i < 0 then -i else i
  }

  function Max(a: int, b: int): int {
    if a < b then b else a
  }

  predicate IsDigit(c: char) {
    '0' <= c <= '9'
  }

  predicate AllDigits(s: string) {
    forall i | 0 <= i < |s| :: IsDigit(s[i])
  }

  /** The value of a non-empty run of decimal digits, most significant first. */
  function DigitsValue(s: string): nat
    requires AllDigits(s)
  {
    if s == [] then 0 else DigitsValue(s[..|s| - 1]) * 10 + (s[|s| - 1] as int - '0' as int)
  }

  /** The decimal digits of `n`, without leading zeros ("0" for zero). */
  function NatToString(n: nat): (s: string)
    ensures |s| > 0 && AllDigits(s)
    ensures n > 0 ==> s[0] != '0'
  {
    if n < 10 then ['0' + n as char]
    else NatToString(n / 10) + ['0' + (n % 10) as char]
  }

  lemma {:induction false} NatToStringValue(n: nat)
    ensures DigitsValue(NatToString(n)) == n
  {
    var s := NatToString(n);
    if n >= 10 {
      NatToStringValue(n / 10);
      assert s[..|s| - 1] == NatToString(n / 10);
    }
  }

  /** Decimal rendering of an integer with a leading '-' when negative. */
  function IntToString(i: int): string {
    if i < 0 then "-" + NatToString(-i) else NatToString(i)
  }

  /** The unsigned part of a literal: everything after an optional sign. */
  function Unsigned(s: string): string {
    if |s| > 0 && (s[0] == '+' || s[0] == '-') then s[1..] else s
  }

  /** An optional sign followed by at least one decimal digit. */
  predicate IsIntLiteral(s: string) {
    |Unsigned(s)| > 0 && AllDigits(Unsigned(s))
  }

  /** `int(s)` on a token without surrounding whitespace: `None` is the
      ValueError raised for anything that is not a literal. */
  function ParseInt(s: string): (r: Option<int>)
    ensures r.Some? <==> IsIntLiteral(s)
    ensures r.Some? && s[0] == '-' ==> r.value <= 0
    ensures r.Some? && s[0] != '-' ==> r.value >= 0
  {
    if !IsIntLiteral(s) then None
    else if s[0] == '-' then Some(-(DigitsValue(s[1..]) as int))
    else Some(DigitsValue(Unsigned(s)))
  }

  lemma ParseIntToString(i: int)
    ensures ParseInt(IntToString(i)) == Some(i)
  {
    if i < 0 {
      var d := NatToString(-i);
      assert IntToString(i)[1..] == d;
      assert Unsigned(IntToString(i)) == d;
      NatToStringValue(-i);
    } else {
      var d := NatToString(i);
      assert d[0] != '+' && d[0] != '-';
      assert Unsigned(d) == d;
      NatToStringValue(i);
    }
  }

  /** Python's `x // y` for a non-zero divisor: the quotient rounded down. */
  function FloorDiv(x: int, y: int): int
    requires y != 0
  {
    if y < 0 && x % y != 0 then x / y - 1 else x / y
  }

  /** Python's `x % y` for a non-zero divisor: the remainder takes the sign of
      the divisor (floor division), unlike Dafny's Euclidean `%`. */
  function FloorMod(x: int, y: int): (r: int)
    requires y != 0
    ensures y > 0 ==> 0 <= r < y
    ensures y < 0 ==> y < r <= 0
    ensures x == FloorDiv(x, y) * y + r
  {
    var e := x % y;
    assert x == (x / y) * y + e;
    if y < 0 && e != 0 then
      assert (x / y - 1) * y == (x / y) * y - y;
      e + y
    else e
  }

  /** Python's `xs[i]` position for a list of length `len`: negative indices
      count from the end; `None` is the IndexError. */
  function PyIndex(len: nat, i: int): (r: Option<nat>)
    ensures r.Some? <==> -(len as int) <= i < len
    ensures r.Some? ==> r.value < len && (r.value == i || r.value == i + len)
  {
    if 0 <= i < len then Some(i)
    else if -(len as int) <= i < 0 then Some(i + len)
    else None
  }

  /** `s` with the values at `i` and `j` exchanged. */
  function Swap<T>(s: seq<T>, i: nat, j: nat): (r: seq<T>)
    requires i < |s| && j < |s|
    ensures |r| == |s|
  {
    seq(|s|, k requires 0 <= k < |s| => if k == i then s[j] else if k == j then s[i] else s[k])
  }

  lemma SwapMultiset<T>(s: seq<T>, i: nat, j: nat)
    requires i < |s| && j < |s|
    ensures multiset(Swap(s, i, j)) == multiset(s)
  {
    var t := s[i := s[j]];
    assert Swap(s, i, j) == t[j := s[i]];
    assert multiset(t) == multiset(s) - multiset{s[i]} + multiset{s[j]};
    assert multiset(t[j := s[i]]) == multiset(t) - multiset{t[j]} + multiset{s[i]};
  }

  // Euclidean division by a positive divisor

  /** `d * n` strictly between `-n` and `n` forces `d == 0`. */
  lemma MultipleInsideIsZero(d: int, n: int)
    requires n > 0 && -n < d * n < n
    ensures d == 0
  {
  }

  /** Quotient and remainder are the only ones with `0 <= r < n`. */
  lemma ModUnique(x: int, n: int, d: int, r: int)
    requires n > 0 && x == d * n + r && 0 <= r < n
    ensures x % n == r && x / n == d
  {
    var d0, r0 := x / n, x % n;
    assert x == d0 * n + r0;
    assert (d - d0) * n == d * n - d0 * n;
    MultipleInsideIsZero(d - d0, n);
  }

  /** Adding whole multiples of `n` does not change the remainder. */
  lemma ModShift(x: int, q: int, n: int)
    requires n > 0
    ensures (x + q * n) % n == x % n
  {
    assert x == (x / n) * n + x % n;
    assert x + q * n == (x / n + q) * n + x % n;
    ModUnique(x + q * n, n, x / n + q, x % n);
  }

  /** Reducing a summand first gives the same remainder. */
  lemma ModOfSum(x: int, i: int, n: int)
    requires n > 0
    ensures (x % n + i) % n == (x + i) % n
  {
    assert x % n + i + (x / n) * n == x + i;
    ModShift(x % n + i, x / n, n);
  }

  /** Two numbers less than `n` apart have different remainders. */
  lemma ModApart(a: int, b: int, n: int)
    requires n > 0 && 0 < b - a < n
    ensures a % n != b % n
  {
    assert a == (a / n) * n + a % n;
    assert b == (b / n) * n + b % n;
    if a % n == b % n {
      assert (b / n - a / n) * n == b / n * n - a / n * n;
      MultipleInsideIsZero(b / n - a / n, n);
    }
  }

  // ---------------------------------------------------------------------
  // White space

  /** The characters Python's `str.split()` and `str.strip()` treat as white space. */
  predicate IsSpace(c: char) {
    var n := c as int;
    n == 32 || 9 <= n <= 13 || 28 <= n <= 31 || n == 0x85 || n == 0xA0 ||
    n == 0x1680 || 0x2000 <= n <= 0x200A || n == 0x2028 || n == 0x2029 ||
    n == 0x202F || n == 0x205F || n == 0x3000
  }

  /** `s.rstrip()`: `s` without its trailing white space. */
  function RStrip(s: string): (r: string)
    ensures |r| <= |s| && r == s[..|r|]
    ensures forall i | |r| <= i < |s| :: IsSpace(s[i])
    ensures r == [] || !IsSpace(r[|r| - 1])
  {
    if s == [] || !IsSpace(s[|s| - 1]) then s else RStrip(s[..|s| - 1])
  }

  /** `s.lstrip()`: `s` without its leading white space. */
  function LStrip(s: string): (r: string)
    ensures |r| <= |s| && r == s[|s| - |r|..]
    ensures forall i | 0 <= i < |s| - |r| :: IsSpace(s[i])
    ensures r == [] || !IsSpace(r[0])
  {
    if s == [] || !IsSpace(s[0]) then s else LStrip(s[1..])
  }

  /** `s.strip()`. */
  function Strip(s: string): string {
    LStrip(RStrip(s))
  }
}
