/** The permutation promenade: a line of programs, named by the letters from
    `a` on and numbered 0, 1, ... internally, performs a dance of spin,
    exchange and partner moves. The line is stored as a list that is never
    rotated plus the index `start` of the program at the front. The outcome
    of a dance is read off as a permutation, and repeated dances are worked
    out by composing that permutation with itself. */
module Dance {
  import opened Common

  // ---------------------------------------------------------------------
  // Lines and their rearrangements

  /** Programs 0, 1, ..., n - 1 in their initial order. */
  function Range(n: nat): (r: seq<int>)
    ensures |r| == n && forall i | 0 <= i < n :: r[i] == i
  {
    seq(n, i => i)
  }

  /** Each of 0, ..., |s| - 1 exactly once: every value lies in range and no
      two positions hold the same value. */
  predicate IsPermutation(s: seq<int>) {
    (forall i | 0 <= i < |s| :: 0 <= s[i] < |s|) &&
    (forall i, j | 0 <= i < j < |s| :: s[i] != s[j])
  }

  /** The line read from position `start` of the stored list on, wrapping
      around: what `get_transforms` returns. */
  function Rotated(programs: seq<int>, start: int): (r: seq<int>)
    requires |programs| > 0
    ensures |r| == |programs|
  {
    seq(|programs|, i requires 0 <= i < |programs| => programs[(start + i) % |programs|])
  }

  /** The line after a spin of `count`: the last `count` programs (modulo
      the line length) move to the front, keeping their order. */
  function SpinLine(line: seq<int>, count: int): (r: seq<int>)
    requires |line| > 0
    ensures |r| == |line|
  {
    var k := count % |line|;
    line[|line| - k..] + line[..|line| - k]
  }

  /** The line after the programs `a` and `b` have traded places, wherever
      they stand. */
  function SwapValues(line: seq<int>, a: int, b: int): (r: seq<int>)
    ensures |r| == |line|
  {
    seq(|line|, i requires 0 <= i < |line| => if line[i] == a then b else if line[i] == b then a else line[i])
  }

  /** The first position of `v` in `s`, as `list.index` finds it. */
  function IndexOf(s: seq<int>, v: int): (r: nat)
    requires v in s
    ensures r < |s| && s[r] == v && forall i | 0 <= i < r :: s[i] != v
  {
    if s[0] == v then 0 else 1 + IndexOf(s[1..], v)
  }

  // ---------------------------------------------------------------------
  // Facts about the rearrangements

  lemma RangeIsPermutation(n: nat)
    ensures IsPermutation(Range(n))
  {
  }

  lemma SwapKeepsPermutation(s: seq<int>, i: nat, j: nat)
    requires IsPermutation(s) && i < |s| && j < |s|
    ensures IsPermutation(Swap(s, i, j))
  {
    var r := Swap(s, i, j);
    forall p, q | 0 <= p < q < |r|
      ensures r[p] != r[q]
    {
      var p' := if p == i then j else if p == j then i else p;
      var q' := if q == i then j else if q == j then i else q;
      assert r[p] == s[p'] && r[q] == s[q'] && p' != q';
    }
  }

  lemma RotatedKeepsPermutation(programs: seq<int>, start: int)
    requires |programs| > 0 && IsPermutation(programs)
    ensures IsPermutation(Rotated(programs, start))
  {
    var n := |programs|;
    var r := Rotated(programs, start);
    forall p, q | 0 <= p < q < n
      ensures r[p] != r[q]
    {
      WrapApart(n, start, p, q);
    }
  }

  /** Two different offsets within one lap from `start` land on different
      places. */
  lemma WrapApart(n: nat, start: int, p: int, q: int)
    requires n > 0 && 0 <= p < q < n
    ensures (start + p) % n != (start + q) % n
  {
    ModApart(start + p, start + q, n);
  }

  lemma SwapValuesKeepsPermutation(line: seq<int>, a: int, b: int)
    requires IsPermutation(line) && a in line && b in line
    ensures IsPermutation(SwapValues(line, a, b))
  {
    var r := SwapValues(line, a, b);
    forall p, q | 0 <= p < q < |r|
      ensures r[p] != r[q]
    {
    }
  }

  /** `spin(count)` only moves `start`, and that rotates the line right by
      `count`. */
  lemma SpinRotatesLine(programs: seq<int>, start: int, count: int)
    requires |programs| > 0 && 0 <= start < |programs|
    ensures Rotated(programs, (start + |programs| - count) % |programs|) == SpinLine(Rotated(programs, start), count)
  {
    var n := |programs|;
    var line := Rotated(programs, start);
    var k := count % n;
    var x := start + n - count;
    var r := Rotated(programs, x % n);
    var s := SpinLine(line, count);
    assert count == (count / n) * n + k;
    forall i | 0 <= i < n
      ensures r[i] == s[i]
    {
      ModOfSum(x, i, n);
      assert r[i] == programs[(x + i) % n];
      ModShift(x + i, count / n, n);
      assert x + i + (count / n) * n == start + n - k + i;
      if i < k {
        assert s[i] == line[n - k + i];
      } else {
        assert s[i] == line[i - k];
        ModShift(start + i - k, 1, n);
      }
    }
  }

  /** `exchange(pos1, pos2)` on the stored list swaps the line positions
      `pos1` and `pos2`, both taken modulo the line length. */
  lemma ExchangeSwapsLine(programs: seq<int>, start: int, pos1: int, pos2: int)
    requires |programs| > 0
    ensures Rotated(Swap(programs, (start + pos1) % |programs|, (start + pos2) % |programs|), start) ==
            Swap(Rotated(programs, start), pos1 % |programs|, pos2 % |programs|)
  {
    var n := |programs|;
    var i1, i2 := (start + pos1) % n, (start + pos2) % n;
    var r := Rotated(Swap(programs, i1, i2), start);
    var s := Swap(Rotated(programs, start), pos1 % n, pos2 % n);
    ModOfSum(pos1, start, n);
    ModOfSum(pos2, start, n);
    forall i | 0 <= i < n
      ensures r[i] == s[i]
    {
      var k := (start + i) % n;
      if i != pos1 % n && k == i1 {
        WrapApart(n, start, Min(i, pos1 % n), Max(i, pos1 % n));
      }
      if i != pos2 % n && k == i2 {
        WrapApart(n, start, Min(i, pos2 % n), Max(i, pos2 % n));
      }
    }
  }

  function Min(a: int, b: int): int {
    if a < b then a else b
  }

  /** `partner(A, B)` on the stored list trades the places of the programs
      `a` and `b` in the line, wherever they stand. */
  lemma PartnerSwapsLine(programs: seq<int>, start: int, a: int, b: int)
    requires |programs| > 0 && IsPermutation(programs) && a in programs && b in programs
    ensures Rotated(Swap(programs, IndexOf(programs, a), IndexOf(programs, b)), start) ==
            SwapValues(Rotated(programs, start), a, b)
  {
    var n := |programs|;
    var i1, i2 := IndexOf(programs, a), IndexOf(programs, b);
    var r := Rotated(Swap(programs, i1, i2), start);
    var s := SwapValues(Rotated(programs, start), a, b);
    forall i | 0 <= i < n
      ensures r[i] == s[i]
    {
      var k := (start + i) % n;
      assert r[i] == Swap(programs, i1, i2)[k];
      assert s[i] == if programs[k] == a then b else if programs[k] == b then a else programs[k];
    }
  }

  /** Read from position 0 on, the stored list is the line. */
  lemma RotatedFromZero(programs: seq<int>)
    requires |programs| > 0
    ensures Rotated(programs, 0) == programs
  {
    forall i | 0 <= i < |programs|
      ensures Rotated(programs, 0)[i] == programs[i]
    {
      ModUnique(i, |programs|, 0, i);
    }
  }

  /** The line holds the same programs as the stored list. */
  lemma RotatedSameMembers(programs: seq<int>, start: int)
    requires |programs| > 0
    ensures forall v :: v in Rotated(programs, start) <==> v in programs
  {
    var n := |programs|;
    var line := Rotated(programs, start);
    forall j | 0 <= j < n
      ensures programs[j] in line
    {
      var i := (j - start) % n;
      ModOfSum(j - start, start, n);
      ModUnique(j, n, 0, j);
      assert (start + i) % n == j;
      assert line[i] == programs[j];
    }
    forall i | 0 <= i < n
      ensures line[i] in programs
    {
      assert line[i] == programs[(start + i) % n];
    }
  }

  // ---------------------------------------------------------------------
  // The dance moves, as the line sees them

  datatype DanceError =
    | EmptyMove            // `command[0]` of an empty move: IndexError
    | BadNumber            // `int(...)` of something not a literal: ValueError
    | MissingParameter     // `params[1]` without a '/': IndexError
    | BadName              // `ord(...)` of a name that is not one character: TypeError
    | NotInLine            // `programs.index(...)` of an absent program: ValueError
    | UnknownMove(kind: char)  // RuntimeError("Unknown command type")

  /** `str.split(separator)`: the pieces between the separators; there is
      always at least one. */
  function Split(s: string, separator: char): (r: seq<string>)
    ensures |r| > 0
  {
    if s == [] then [[]]
    else
      var rest := Split(s[1..], separator);
      if s[0] == separator then [[]] + rest else [[s[0]] + rest[0]] + rest[1..]
  }

  /** Pieces glued back together with the separator. */
  function Join(pieces: seq<string>, separator: char): string
    requires |pieces| > 0
  {
    if |pieces| == 1 then pieces[0] else pieces[0] + [separator] + Join(pieces[1..], separator)
  }

  lemma {:induction false} SplitJoin(s: string, separator: char)
    ensures Join(Split(s, separator), separator) == s
    ensures forall k | 0 <= k < |Split(s, separator)| :: separator !in Split(s, separator)[k]
  {
    if s != [] {
      SplitJoin(s[1..], separator);
      var rest := Split(s[1..], separator);
      if s[0] != separator {
        assert Split(s, separator)[1..] == rest[1..];
        if |rest| > 1 {
          assert rest[1..][1..] == rest[2..];
        }
      }
    }
  }

  /** The program number behind a name: `ord(name) - 97`, defined only for a
      one-character name. */
  function ProgramNumber(name: string): Option<int> {
    if |name| == 1 then Some(name[0] as int - 97) else None
  }

  /** `spin` with the number written after the `s`. */
  function SpinMove(line: seq<int>, count: string): (r: Result<seq<int>, DanceError>)
    requires |line| > 0
  {
    match ParseInt(count)
    case None => Err(BadNumber)
    case Some(k) => Ok(SpinLine(line, k))
  }

  /** `exchange(int(params[0]), int(params[1]))`, evaluated left to right. */
  function ExchangeMove(line: seq<int>, params: seq<string>): (r: Result<seq<int>, DanceError>)
    requires |line| > 0 && |params| > 0
  {
    match ParseInt(params[0])
    case None => Err(BadNumber)
    case Some(pos1) =>
      if |params| < 2 then Err(MissingParameter)
      else
        match ParseInt(params[1])
        case None => Err(BadNumber)
        case Some(pos2) => Ok(Swap(line, pos1 % |line|, pos2 % |line|))
  }

  /** `partner(program1, program2)`: each name is turned into a number and
      looked up in the line before the next name is looked at. */
  function PartnerMove(line: seq<int>, program1: string, program2: string): (r: Result<seq<int>, DanceError>)
  {
    match ProgramNumber(program1)
    case None => Err(BadName)
    case Some(a) =>
      if a !in line then Err(NotInLine)
      else
        match ProgramNumber(program2)
        case None => Err(BadName)
        case Some(b) =>
          if b !in line then Err(NotInLine)
          else Ok(SwapValues(line, a, b))
  }

  /** One move performed on the line, as `get_transforms` dispatches it,
      with the errors and the order in which they are raised. */
  function Move(line: seq<int>, command: string, includePartner: bool): (r: Result<seq<int>, DanceError>)
    requires |line| > 0
  {
    if command == [] then Err(EmptyMove)
    else if command[0] == 's' then SpinMove(line, command[1..])
    else if command[0] == 'x' then ExchangeMove(line, Split(command[1..], '/'))
    else if command[0] == 'p' then
      if !includePartner then Ok(line)
      else
        var params := Split(command[1..], '/');
        if |params| < 2 then Err(MissingParameter) else PartnerMove(line, params[0], params[1])
    else Err(UnknownMove(command[0]))
  }

  /** The line after the moves, or the error of the first move that fails. */
  function Perform(line: seq<int>, commands: seq<string>, includePartner: bool): (r: Result<seq<int>, DanceError>)
    requires |line| > 0
    ensures r.Ok? ==> |r.value| == |line|
  {
    if commands == [] then Ok(line)
    else
      match Perform(line, commands[..|commands| - 1], includePartner)
      case Err(e) => Err(e)
      case Ok(before) => Move(before, commands[|commands| - 1], includePartner)
  }

  lemma SpinMoveKeepsPermutation(line: seq<int>, count: string)
    requires |line| > 0 && IsPermutation(line) && SpinMove(line, count).Ok?
    ensures IsPermutation(SpinMove(line, count).value)
  {
    SpinKeepsPermutation(line, ParseInt(count).value);
  }

  lemma SpinKeepsPermutation(line: seq<int>, count: int)
    requires |line| > 0 && IsPermutation(line)
    ensures IsPermutation(SpinLine(line, count))
  {
    var n := |line|;
    SpinRotatesLine(line, 0, count);
    RotatedFromZero(line);
    RotatedKeepsPermutation(line, (0 + n - count) % n);
  }

  lemma ExchangeMoveKeepsPermutation(line: seq<int>, params: seq<string>)
    requires |line| > 0 && |params| > 0 && IsPermutation(line) && ExchangeMove(line, params).Ok?
    ensures IsPermutation(ExchangeMove(line, params).value)
  {
    SwapKeepsPermutation(line, ParseInt(params[0]).value % |line|, ParseInt(params[1]).value % |line|);
  }

  lemma PartnerMoveKeepsPermutation(line: seq<int>, program1: string, program2: string)
    requires IsPermutation(line) && PartnerMove(line, program1, program2).Ok?
    ensures IsPermutation(PartnerMove(line, program1, program2).value)
  {
    SwapValuesKeepsPermutation(line, ProgramNumber(program1).value, ProgramNumber(program2).value);
  }

  /** Every move keeps the line a permutation. */
  lemma MoveKeepsPermutation(line: seq<int>, command: string, includePartner: bool)
    requires |line| > 0 && IsPermutation(line)
    requires Move(line, command, includePartner).Ok?
    ensures IsPermutation(Move(line, command, includePartner).value)
  {
    if command[0] == 's' {
      SpinMoveKeepsPermutation(line, command[1..]);
    } else if command[0] == 'x' {
      ExchangeMoveKeepsPermutation(line, Split(command[1..], '/'));
    } else if includePartner {
      var params := Split(command[1..], '/');
      PartnerMoveKeepsPermutation(line, params[0], params[1]);
    }
  }

  /** After any dance the line is a permutation of the programs. */
  lemma {:induction false} PerformKeepsPermutation(line: seq<int>, commands: seq<string>, includePartner: bool)
    requires |line| > 0 && IsPermutation(line)
    requires Perform(line, commands, includePartner).Ok?
    ensures IsPermutation(Perform(line, commands, includePartner).value)
  {
    if commands != [] {
      var rest := commands[..|commands| - 1];
      PerformKeepsPermutation(line, rest, includePartner);
      MoveKeepsPermutation(Perform(line, rest, includePartner).value, commands[|commands| - 1], includePartner);
    }
  }

  /** Without partner moves, a `p` move of any shape leaves the line as it
      is. */
  lemma PartnerSkipped(line: seq<int>, command: string)
    requires |line| > 0 && |command| > 0 && command[0] == 'p'
    ensures Move(line, command, false) == Ok(line)
  {
  }

  /** A move letter other than `s`, `x` and `p` fails, whatever follows. */
  lemma UnknownMoveFails(line: seq<int>, command: string, includePartner: bool)
    requires |line| > 0 && |command| > 0 && command[0] !in "sxp"
    ensures Move(line, command, includePartner) == Err(UnknownMove(command[0]))
  {
  }

  // ---------------------------------------------------------------------
  // The line as the source stores it

  /** `Programs`: the stored list and the index of the front program. */
  class Programs {
    var programs: seq<int>
    var start: int

    ghost predicate Valid()
      reads this
    {
      |programs| > 0 && IsPermutation(programs) && 0 <= start < |programs|
    }

    /** The line, front program first. */
    function Line(): (r: seq<int>)
      reads this
      requires |programs| > 0
      ensures |r| == |programs|
    {
      Rotated(programs, start)
    }

    /** A line of `size` programs in order (the source fixes `size` at 16). */
    constructor(size: nat)
      requires size > 0
      ensures Valid() && programs == Range(size) && start == 0
    {
      programs := Range(size);
      start := 0;
      RangeIsPermutation(size);
    }

    /** `get_transforms`: the line read out front first. */
    method GetTransforms() returns (transforms: seq<int>)
      requires Valid()
      ensures transforms == Line() && IsPermutation(transforms)
    {
      var n := |programs|;
      var t := new int[n](i => 0);
      for i := 0 to n
        invariant forall k | 0 <= k < i :: t[k] == programs[(start + k) % n]
      {
        t[i] := programs[(start + i) % n];
      }
      transforms := t[..];
      assert transforms == Line();
      RotatedKeepsPermutation(programs, start);
    }

    /** `spin(count)`: only `start` moves; the line turns right by `count`. */
    method Spin(count: int)
      requires Valid()
      modifies this
      ensures Valid() && programs == old(programs)
      ensures start == (old(start) + |programs| - count) % |programs|
      ensures Line() == SpinLine(old(Line()), count)
    {
      start := (start + |programs| - count) % |programs|;
      SpinRotatesLine(programs, old(start), count);
    }

    /** `exchange(pos1, pos2)`: the programs at line positions `pos1` and
        `pos2` (modulo the length) trade places. */
    method Exchange(pos1: int, pos2: int)
      requires Valid()
      modifies this
      ensures Valid() && start == old(start)
      ensures programs == Swap(old(programs), (old(start) + pos1) % |old(programs)|, (old(start) + pos2) % |old(programs)|)
      ensures Line() == Swap(old(Line()), pos1 % |old(programs)|, pos2 % |old(programs)|)
    {
      var i1 := (start + pos1) % |programs|;
      var i2 := (start + pos2) % |programs|;
      ExchangeSwapsLine(programs, start, pos1, pos2);
      SwapKeepsPermutation(programs, i1, i2);
      programs := Swap(programs, i1, i2);
    }

    /** `partner(program1, program2)`: the two named programs trade places.
        A name that is not one character is the TypeError of `ord`, a
        program not in the line the ValueError of `index`; both leave the
        line as it is. */
    method Partner(program1: string, program2: string) returns (r: Result<(), DanceError>)
      requires Valid()
      modifies this
      ensures Valid() && start == old(start) && |programs| == |old(programs)|
      ensures r.Err? ==> programs == old(programs)
      ensures PartnerMove(old(Line()), program1, program2) == if r.Ok? then Ok(Line()) else Err(r.error)
    {
      RotatedSameMembers(programs, start);
      if |program1| != 1 {
        return Err(BadName);
      }
      var a := program1[0] as int - 97;
      if a !in programs {
        return Err(NotInLine);
      }
      var pos1 := IndexOf(programs, a);
      if |program2| != 1 {
        return Err(BadName);
      }
      var b := program2[0] as int - 97;
      if b !in programs {
        return Err(NotInLine);
      }
      var pos2 := IndexOf(programs, b);
      PartnerSwapsLine(programs, start, a, b);
      SwapKeepsPermutation(programs, pos1, pos2);
      programs := Swap(programs, pos1, pos2);
      r := Ok(());
    }
  }

  /** A spin move on the stored line. */
  method DoSpin(line: Programs, count: string) returns (r: Result<(), DanceError>)
    requires line.Valid()
    modifies line
    ensures line.Valid() && |line.programs| == old(|line.programs|)
    ensures SpinMove(old(line.Line()), count) == if r.Ok? then Ok(line.Line()) else Err(r.error)
  {
    var k := ParseInt(count);
    if k.None? {
      return Err(BadNumber);
    }
    line.Spin(k.value);
    r := Ok(());
  }

  /** An exchange move on the stored line. */
  method DoExchange(line: Programs, params: seq<string>) returns (r: Result<(), DanceError>)
    requires line.Valid() && |params| > 0
    modifies line
    ensures line.Valid() && |line.programs| == old(|line.programs|)
    ensures ExchangeMove(old(line.Line()), params) == if r.Ok? then Ok(line.Line()) else Err(r.error)
  {
    var pos1 := ParseInt(params[0]);
    if pos1.None? {
      return Err(BadNumber);
    }
    if |params| < 2 {
      return Err(MissingParameter);
    }
    var pos2 := ParseInt(params[1]);
    if pos2.None? {
      return Err(BadNumber);
    }
    line.Exchange(pos1.value, pos2.value);
    r := Ok(());
  }

  /** One pass of the dispatch loop of `get_transforms`. */
  method Dispatch(line: Programs, command: string, includePartner: bool) returns (r: Result<(), DanceError>)
    requires line.Valid()
    modifies line
    ensures line.Valid() && |line.programs| == old(|line.programs|)
    ensures Move(old(line.Line()), command, includePartner) == if r.Ok? then Ok(line.Line()) else Err(r.error)
  {
    if command == [] {
      r := Err(EmptyMove);
    } else if command[0] == 's' {
      r := DoSpin(line, command[1..]);
    } else {
      var params := Split(command[1..], '/');
      if command[0] == 'x' {
        r := DoExchange(line, params);
      } else if command[0] == 'p' {
        if !includePartner {
          r := Ok(());
        } else if |params| < 2 {
          r := Err(MissingParameter);
        } else {
          r := line.Partner(params[0], params[1]);
        }
      } else {
        r := Err(UnknownMove(command[0]));
      }
    }
  }

  /** `get_transforms(commands, include_partner)` for a line of `size`
      programs: the line after the dance, read out front first, or the
      error of the first move that fails. */
  method GetTransformsOf(commands: seq<string>, includePartner: bool, size: nat) returns (r: Result<seq<int>, DanceError>)
    requires size > 0
    ensures r == Perform(Range(size), commands, includePartner)
    ensures r.Ok? ==> IsPermutation(r.value) && |r.value| == size
  {
    var line := new Programs(size);
    RotatedFromZero(line.programs);
    for k := 0 to |commands|
      invariant line.Valid() && |line.programs| == size
      invariant Perform(Range(size), commands[..k], includePartner) == Ok(line.Line())
    {
      var step := Dispatch(line, commands[k], includePartner);
      assert commands[..k + 1][..k] == commands[..k];
      if step.Err? {
        PerformErrStays(Range(size), commands, includePartner, k + 1);
        return Err(step.error);
      }
    }
    assert commands[..|commands|] == commands;
    var t := line.GetTransforms();
    r := Ok(t);
  }

  /** Once a prefix of the dance fails, the whole dance fails the same way. */
  lemma {:induction false} PerformErrStays(line: seq<int>, commands: seq<string>, includePartner: bool, k: nat)
    requires |line| > 0 && k <= |commands|
    requires Perform(line, commands[..k], includePartner).Err?
    ensures Perform(line, commands, includePartner) == Perform(line, commands[..k], includePartner)
    decreases |commands| - k
  {
    if k < |commands| {
      assert commands[..k + 1][..k] == commands[..k];
      PerformErrStays(line, commands, includePartner, k + 1);
    } else {
      assert commands[..k] == commands;
    }
  }

  // ---------------------------------------------------------------------
  // Repeating a dance

  /** A list of positions into a list of length `n`: the shape of a
      transform. */
  predicate IsIndexMap(t: seq<int>, n: nat) {
    forall i | 0 <= i < |t| :: 0 <= t[i] < n
  }

  /** One round of `apply_transforms`: position `i` receives what stood at
      `t[i]`. */
  function Step(p: seq<int>, t: seq<int>): (r: seq<int>)
    requires IsIndexMap(t, |p|)
    ensures |r| == |t|
  {
    seq(|t|, i requires 0 <= i < |t| => p[t[i]])
  }

  /** `p` after `repeats` rounds of the transform `t`. */
  function Apply(p: seq<int>, t: seq<int>, repeats: nat): (r: seq<int>)
    requires |t| == |p| && IsIndexMap(t, |p|)
    ensures |r| == |p|
  {
    if repeats == 0 then p else Step(Apply(p, t, repeats - 1), t)
  }

  /** Rounds compose: `a` rounds followed by `b` rounds are `a + b` rounds. */
  lemma {:induction false} ApplyAdd(p: seq<int>, t: seq<int>, a: nat, b: nat)
    requires |t| == |p| && IsIndexMap(t, |p|)
    ensures Apply(Apply(p, t, a), t, b) == Apply(p, t, a + b)
  {
    if b > 0 {
      ApplyAdd(p, t, a, b - 1);
    }
  }

  /** Reading through two transforms one after the other is reading through
      their composite. */
  lemma StepAssociative(p: seq<int>, u: seq<int>, v: seq<int>)
    requires |u| == |p| && IsIndexMap(u, |p|) && |v| == |p| && IsIndexMap(v, |p|)
    ensures Step(Step(p, u), v) == Step(p, Step(u, v))
  {
  }

  lemma StepKeepsIndexMap(u: seq<int>, v: seq<int>)
    requires IsIndexMap(u, |u|) && |v| == |u| && IsIndexMap(v, |u|)
    ensures IsIndexMap(Step(u, v), |u|)
  {
  }

  /** `n` rounds on any list read it through `n` rounds on the identity. */
  lemma {:induction false} ApplyThroughPower(p: seq<int>, t: seq<int>, n: nat)
    requires |t| == |p| && IsIndexMap(t, |p|)
    ensures IsIndexMap(Apply(Range(|p|), t, n), |p|)
    ensures Apply(p, t, n) == Step(p, Apply(Range(|p|), t, n))
  {
    var id := Range(|p|);
    if n == 0 {
      assert Step(p, id) == p;
    } else {
      ApplyThroughPower(p, t, n - 1);
      var power := Apply(id, t, n - 1);
      StepKeepsIndexMap(power, t);
      StepAssociative(p, power, t);
    }
  }

  /** Rounds of the transform `t` itself applied `a` times are `a * b`
      rounds of `t`: feeding `apply_transforms` its own result multiplies
      the repeat counts. */
  lemma {:induction false} ApplyPower(p: seq<int>, t: seq<int>, a: nat, b: nat, ab: nat)
    requires |t| == |p| && IsIndexMap(t, |p|) && ab == a * b
    ensures IsIndexMap(Apply(Range(|p|), t, a), |p|)
    ensures Apply(p, Apply(Range(|p|), t, a), b) == Apply(p, t, ab)
  {
    var id := Range(|p|);
    ApplyThroughPower(p, t, a);
    var power := Apply(id, t, a);
    if b > 0 {
      var m: nat := ab - a;
      assert m == a * (b - 1);
      ApplyPower(p, t, a, b - 1, m);
      var before := Apply(p, t, m);
      assert Apply(p, power, b) == Step(before, power);
      ApplyThroughPower(before, t, a);
      assert Range(|before|) == id;
      ApplyAdd(p, t, m, a);
    }
  }

  /** `apply_transforms` started from the identity with the transform `t`
      returns `t` raised to the number of repeats. */
  lemma IdentityStep(t: seq<int>)
    requires IsIndexMap(t, |t|)
    ensures Step(Range(|t|), t) == t
  {
  }

  /** The nesting of part two: three calls of a thousand repeats each, every
      call fed the result of the one before, make a billion rounds. */
  lemma BillionRounds(t: seq<int>, thousand: nat)
    requires IsIndexMap(t, |t|) && thousand == 1000
    ensures IsIndexMap(Apply(Range(|t|), t, thousand), |t|)
    ensures IsIndexMap(Apply(Range(|t|), Apply(Range(|t|), t, thousand), thousand), |t|)
    ensures Apply(Range(|t|), Apply(Range(|t|), Apply(Range(|t|), t, thousand), thousand), thousand) ==
            Apply(Range(|t|), t, 1000000000)
  {
    var id := Range(|t|);
    ApplyPower(id, t, thousand, thousand, 1000000);
    var million := Apply(id, t, 1000000);
    ApplyThroughPower(id, t, 1000000);
    ApplyPower(id, t, 1000000, thousand, 1000000000);
  }

  /** `apply_transforms(programs, transforms, repeats)`: two buffers take
      turns as source and destination, and the list passed in stays as it
      is. */
  method ApplyTransforms(programs: seq<int>, transforms: seq<int>, repeats: nat) returns (r: seq<int>)
    requires |transforms| == |programs| && IsIndexMap(transforms, |programs|)
    ensures r == Apply(programs, transforms, repeats)
  {
    var n := |programs|;
    var source := new int[n](i requires 0 <= i < n => programs[i]);
    var destination := new int[n](i => 0);
    assert source[..] == Apply(programs, transforms, 0);
    for round := 0 to repeats
      invariant fresh(source) && fresh(destination)
      invariant source != destination && source.Length == n && destination.Length == n
      invariant source[..] == Apply(programs, transforms, round)
    {
      Round(source, destination, transforms);
      source, destination := destination, source;
    }
    r := source[..];
  }

  /** The inner loop of `apply_transforms`: one round from `source` into
      `destination`. */
  method Round(source: array<int>, destination: array<int>, transforms: seq<int>)
    requires source != destination && destination.Length == |transforms| && IsIndexMap(transforms, source.Length)
    modifies destination
    ensures destination[..] == Step(source[..], transforms)
  {
    for i := 0 to |transforms|
      invariant forall k | 0 <= k < i :: destination[k] == source[transforms[k]]
    {
      destination[i] := source[transforms[i]];
    }
  }

  // ---------------------------------------------------------------------
  // Names

  /** `transforms_to_string`: program `i` is the letter `chr(i + 97)`. */
  function TransformsToString(t: seq<int>): (r: string)
    requires forall i | 0 <= i < |t| :: 0 <= t[i] + 97 < 0xD800
    ensures |r| == |t|
  {
    seq(|t|, i requires 0 <= i < |t| => (t[i] + 97) as char)
  }

  /** The name printed for a program leads back to its number. */
  lemma NamesRoundTrip(t: seq<int>)
    requires forall i | 0 <= i < |t| :: 0 <= t[i] + 97 < 0xD800
    ensures forall i | 0 <= i < |t| :: ProgramNumber([TransformsToString(t)[i]]) == Some(t[i])
  {
  }

  // ---------------------------------------------------------------------
  // The example of five programs

  /** `s1`: `abcde` becomes `eabcd`; `s3` on `abcde` gives `cdeab`. */
  lemma SpinExamples()
    ensures SpinLine([0, 1, 2, 3, 4], 1) == [4, 0, 1, 2, 3]
    ensures SpinLine([0, 1, 2, 3, 4], 3) == [2, 3, 4, 0, 1]
  {
    assert [0, 1, 2, 3, 4][4..] == [4];
    assert [0, 1, 2, 3, 4][2..] == [2, 3, 4];
  }

  /** A piece without the separator splits into itself. */
  lemma SplitSingle(c: char, separator: char)
    requires c != separator
    ensures Split([c], separator) == [[c]]
  {
    var rest := Split([], separator);
    assert [c][1..] == [];
    assert rest == [[]];
    assert [c] + rest[0] == [c] && rest[1..] == [];
    assert Split([c], separator) == [[c] + rest[0]] + rest[1..];
  }

  /** `a/b` for single characters `a` and `b` splits into `a` and `b`. */
  lemma SplitPair(a: char, b: char, separator: char)
    requires a != separator && b != separator
    ensures Split([a, separator, b], separator) == [[a], [b]]
  {
    SplitSingle(b, separator);
    assert [separator, b][1..] == [b];
    assert Split([separator, b], separator) == [[]] + [[b]];
    var rest := Split([separator, b], separator);
    assert [a] + rest[0] == [a] && rest[1..] == [[b]];
    assert [a, separator, b][1..] == [separator, b];
  }

  /** `int` of a one-digit literal. */
  lemma ParseDigit(i: nat)
    requires i < 10
    ensures ParseInt(['0' + i as char]) == Some(i)
  {
    assert IntToString(i) == ['0' + i as char];
    ParseIntToString(i);
  }

  /** `s1`: `abcde` becomes `eabcd`. */
  lemma FirstMove(line: seq<int>, command: string)
    requires line == [0, 1, 2, 3, 4] && command == "s1"
    ensures Move(line, command, true) == Ok([4, 0, 1, 2, 3])
  {
    SpinExamples();
    assert command[1..] == ['0' + 1 as char];
    ParseDigit(1);
  }

  /** `x3/4`: `eabcd` becomes `eabdc`. */
  lemma SecondMove(line: seq<int>, command: string)
    requires line == [4, 0, 1, 2, 3] && command == "x3/4"
    ensures Move(line, command, true) == Ok([4, 0, 1, 3, 2])
  {
    assert command[1..] == ['3', '/', '4'];
    SplitPair('3', '4', '/');
    ParseDigit(3);
    ParseDigit(4);
    var params := Split(command[1..], '/');
    assert params == ["3", "4"];
    assert ParseInt(params[0]) == Some(3) && ParseInt(params[1]) == Some(4);
    assert 3 % 5 == 3 && 4 % 5 == 4;
    assert ExchangeMove(line, params) == Ok(Swap(line, 3, 4));
    var r := Swap(line, 3, 4);
    assert r[0] == 4 && r[1] == 0 && r[2] == 1 && r[3] == 3 && r[4] == 2;
    assert r == [4, 0, 1, 3, 2];
  }

  /** `pe/b`: `eabdc` becomes `baedc`. */
  lemma ThirdMove(line: seq<int>, command: string)
    requires line == [4, 0, 1, 3, 2] && command == "pe/b"
    ensures Move(line, command, true) == Ok([1, 0, 4, 3, 2])
  {
    assert command[1..] == ['e', '/', 'b'];
    SplitPair('e', 'b', '/');
    var params := Split(command[1..], '/');
    assert params == ["e", "b"];
    assert ProgramNumber(params[0]) == Some(4) && ProgramNumber(params[1]) == Some(1);
    assert line[0] == 4 && line[2] == 1;
    assert PartnerMove(line, params[0], params[1]) == Ok(SwapValues(line, 4, 1));
    var r := SwapValues(line, 4, 1);
    assert r[0] == 1 && r[1] == 0 && r[2] == 4 && r[3] == 3 && r[4] == 2;
    assert r == [1, 0, 4, 3, 2];
  }

  /** A dance with one more move performs that move on the line the
      shorter dance leaves. */
  lemma PerformSnoc(line: seq<int>, commands: seq<string>, command: string, includePartner: bool)
    requires |line| > 0
    ensures Perform(line, commands + [command], includePartner) ==
            if Perform(line, commands, includePartner).Err? then Perform(line, commands, includePartner)
            else Move(Perform(line, commands, includePartner).value, command, includePartner)
  {
    assert (commands + [command])[..|commands|] == commands;
  }

  /** The line `1, 0, 4, 3, 2` is printed `baedc`. */
  lemma FiveProgramNames(t: seq<int>)
    requires t == [1, 0, 4, 3, 2]
    ensures TransformsToString(t) == "baedc"
  {
    var r := TransformsToString(t);
    assert r[0] == 'b' && r[1] == 'a' && r[2] == 'e' && r[3] == 'd' && r[4] == 'c';
  }

  /** `s1,x3/4,pe/b` on five programs ends in `1, 0, 4, 3, 2`, which
      `FiveProgramNames` prints as `baedc`. */
  lemma FiveProgramDance(moves: seq<string>)
    requires moves == ["s1", "x3/4", "pe/b"]
    ensures Perform(Range(5), moves, true) == Ok([1, 0, 4, 3, 2])
  {
    var line := Range(5);
    assert line == [0, 1, 2, 3, 4];
    var m0: seq<string> := [];
    var m1 := m0 + [moves[0]];
    var m2 := m1 + [moves[1]];
    assert m2 + [moves[2]] == moves;
    PerformSnoc(line, m0, moves[0], true);
    FirstMove(line, moves[0]);
    PerformSnoc(line, m1, moves[1], true);
    SecondMove([4, 0, 1, 2, 3], moves[1]);
    PerformSnoc(line, m2, moves[2], true);
    ThirdMove([4, 0, 1, 3, 2], moves[2]);
  }
}
