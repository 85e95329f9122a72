/** The "Duet" register machine. A program is a list of instructions over 26
    integer registers named `a` to `z`. In the sound variant a `snd` plays a
    frequency and a `rcv` with a non-zero operand recovers the last one
    played. In the duet variant two copies of the program run side by side
    and `snd`/`rcv` pass integers through a pair of FIFO mailboxes; the two
    copies are stepped in turn until neither can make progress. */
module Duet {
  import opened Common

  // ---------------------------------------------------------------------
  // Tokens

  /** A token: non-empty and free of white space. */
  predicate IsWord(w: string) {
    |w| > 0 && forall i | 0 <= i < |w| :: !IsSpace(w[i])
  }

  /** The length of the leading run of non-space characters. */
  function WordEnd(s: string): (n: nat)
    ensures n <= |s|
    ensures forall i | 0 <= i < n :: !IsSpace(s[i])
    ensures n < |s| ==> IsSpace(s[n])
  {
    if s == [] || IsSpace(s[0]) then 0 else 1 + WordEnd(s[1..])
  }

  /** `s.split()`: the maximal runs of non-space characters, in order. */
  function Words(s: string): (r: seq<string>)
    ensures forall k | 0 <= k < |r| :: IsWord(r[k])
    decreases |s|
  {
    if s == [] then []
    else if IsSpace(s[0]) then Words(s[1..])
    else
      var n := WordEnd(s);
      [s[..n]] + Words(s[n..])
  }

  /** The tokens joined by single spaces. */
  function Unwords(ws: seq<string>): string {
    if ws == [] then "" else if |ws| == 1 then ws[0] else ws[0] + " " + Unwords(ws[1..])
  }

  /** A word followed by a space, or by nothing, ends where the word does. */
  lemma {:induction false} WordEndOfWord(w: string, tail: string)
    requires IsWord(w) && (tail == [] || IsSpace(tail[0]))
    ensures WordEnd(w + tail) == |w|
    decreases |w|
  {
    var s := w + tail;
    assert s[0] == w[0] && !IsSpace(w[0]);
    assert s[1..] == w[1..] + tail;
    if |w| > 1 {
      WordEndOfWord(w[1..], tail);
    } else {
      assert s[1..] == tail;
    }
  }

  /** Splitting a line made of tokens and single spaces gives back the tokens. */
  lemma {:induction false} WordsOfUnwords(ws: seq<string>)
    requires forall k | 0 <= k < |ws| :: IsWord(ws[k])
    ensures Words(Unwords(ws)) == ws
  {
    if ws != [] {
      var w := ws[0];
      if |ws| == 1 {
        WordEndOfWord(w, "");
        assert w + "" == w;
        assert w[|w|..] == [];
      } else {
        var rest := Unwords(ws[1..]);
        var s := w + " " + rest;
        WordEndOfWord(w, " " + rest);
        assert s == w + (" " + rest);
        assert s[..|w|] == w;
        assert s[|w|..] == " " + rest;
        assert (" " + rest)[1..] == rest;
        WordsOfUnwords(ws[1..]);
      }
    }
  }

  /** Trailing white space never changes the tokens, so the `rstrip()` before
      `split()` in `create_command` has no effect. */
  lemma {:induction false} WordsIgnoreTrailingSpace(u: string, t: string)
    requires forall i | 0 <= i < |t| :: IsSpace(t[i])
    ensures Words(u + t) == Words(u)
    decreases |u| + |t|
  {
    if u == [] {
      assert u + t == t;
      WordsOfSpaces(t);
    } else if IsSpace(u[0]) {
      assert (u + t)[1..] == u[1..] + t;
      WordsIgnoreTrailingSpace(u[1..], t);
    } else {
      var n := WordEnd(u);
      if n < |u| {
        WordEndPrefix(u, t, n);
      } else {
        assert u == u[..n] + [];
        WordEndOfWord(u, t);
      }
      assert (u + t)[..n] == u[..n];
      assert (u + t)[n..] == u[n..] + t;
      WordsIgnoreTrailingSpace(u[n..], t);
    }
  }

  lemma WordsOfSpaces(t: string)
    requires forall i | 0 <= i < |t| :: IsSpace(t[i])
    ensures Words(t) == []
  {
  }

  lemma WordEndPrefix(u: string, t: string, n: nat)
    requires n == WordEnd(u) && n < |u|
    ensures WordEnd(u + t) == n
    decreases n
  {
    if n > 0 {
      assert (u + t)[1..] == u[1..] + t;
      WordEndPrefix(u[1..], t, n - 1);
    }
  }

  lemma {:induction false} WordsOfRStrip(s: string)
    ensures Words(RStrip(s)) == Words(s)
  {
    var r := RStrip(s);
    assert s == r + s[|r|..];
    WordsIgnoreTrailingSpace(r, s[|r|..]);
  }

  // ---------------------------------------------------------------------
  // Instructions

  /** An operand fixed at decode time: a literal, or the register read when
      the instruction executes. */
  datatype Operand = Literal(value: int) | Register(name: char)

  /** One decoded line. Register names written to are kept as the token
      itself and only checked when the instruction executes. */
  datatype Instruction =
    | Snd(x: Operand)
    | Set(target: string, y: Operand)
    | Add(target: string, y: Operand)
    | Mul(target: string, y: Operand)
    | Mod(target: string, y: Operand)
    | Rcv1(x: Operand)
    | Rcv2(target: string)
    | Jgz(x: Operand, y: Operand)

  /** The two instruction tables: the sound variant reads `rcv` as Rcv1, the
      duet variant as Rcv2. */
  datatype Dialect = Sound | Duet

  datatype DecodeError =
    | EmptyLine                              // IndexError from parts[0]
    | UnknownCommand(name: string)           // the RuntimeError
    | WrongArgumentCount(name: string, count: nat) // TypeError of the constructor call
    | WrongRegistryName(token: string)       // the ValueError of generate_get_value

  /** `generate_get_value`: an integer literal stands for itself, any other
      one-character token for a register, anything longer is an error. */
  function DecodeOperand(token: string): (r: Result<Operand, DecodeError>)
    ensures r.Ok? && r.value.Literal? <==> ParseInt(token).Some?
    ensures r.Ok? && r.value.Literal? ==> Some(r.value.value) == ParseInt(token)
    ensures r.Ok? && r.value.Register? <==> ParseInt(token).None? && |token| == 1
    ensures r.Ok? && r.value.Register? ==> [r.value.name] == token
    ensures r.Err? <==> ParseInt(token).None? && |token| != 1
  {
    var n := ParseInt(token);
    if n.Some? then Ok(Literal(n.value))
    else if |token| != 1 then Err(WrongRegistryName(token))
    else Ok(Register(token[0]))
  }

  /** The keys of the command tables. */
  datatype Opcode = SndOp | SetOp | AddOp | MulOp | ModOp | RcvOp | JgzOp

  function Keyword(op: Opcode): string {
    match op
    case SndOp => "snd"
    case SetOp => "set"
    case AddOp => "add"
    case MulOp => "mul"
    case ModOp => "mod"
    case RcvOp => "rcv"
    case JgzOp => "jgz"
  }

  /** `name in command_types`, and which entry it is. */
  function Lookup(name: string): (r: Option<Opcode>)
    ensures r.Some? ==> Keyword(r.value) == name
  {
    if name == "snd" then Some(SndOp)
    else if name == "set" then Some(SetOp)
    else if name == "add" then Some(AddOp)
    else if name == "mul" then Some(MulOp)
    else if name == "mod" then Some(ModOp)
    else if name == "rcv" then Some(RcvOp)
    else if name == "jgz" then Some(JgzOp)
    else None
  }

  /** Every keyword is found, as its own entry. */
  lemma LookupKeyword(op: Opcode)
    ensures Lookup(Keyword(op)) == Some(op)
  {
  }

  /** The number of arguments each constructor takes. */
  function Arity(op: Opcode): nat {
    if op == SndOp || op == RcvOp then 1 else 2
  }

  /** The constructor call `command_types[name](*args)`. */
  function Construct(dialect: Dialect, op: Opcode, args: seq<string>): (r: Result<Instruction, DecodeError>)
    requires |args| == Arity(op)
    ensures r.Err? ==> r.error.WrongRegistryName?
    ensures r.Ok? && dialect == Sound ==> !r.value.Rcv2?
    ensures r.Ok? && dialect == Duet ==> !r.value.Rcv1?
  {
    match op
    case SndOp =>
      var x := DecodeOperand(args[0]);
      if x.Err? then Err(x.error) else Ok(Snd(x.value))
    case RcvOp =>
      if dialect == Duet then Ok(Rcv2(args[0]))
      else
        var x := DecodeOperand(args[0]);
        if x.Err? then Err(x.error) else Ok(Rcv1(x.value))
    case JgzOp =>
      var x := DecodeOperand(args[0]);
      if x.Err? then Err(x.error)
      else
        var y := DecodeOperand(args[1]);
        if y.Err? then Err(y.error) else Ok(Jgz(x.value, y.value))
    case SetOp =>
      var y := DecodeOperand(args[1]);
      if y.Err? then Err(y.error) else Ok(Set(args[0], y.value))
    case AddOp =>
      var y := DecodeOperand(args[1]);
      if y.Err? then Err(y.error) else Ok(Add(args[0], y.value))
    case MulOp =>
      var y := DecodeOperand(args[1]);
      if y.Err? then Err(y.error) else Ok(Mul(args[0], y.value))
    case ModOp =>
      var y := DecodeOperand(args[1]);
      if y.Err? then Err(y.error) else Ok(Mod(args[0], y.value))
  }

  /** `create_command`: split the line into tokens, look the first one up in
      the dialect's table and construct the instruction from the rest. */
  function Decode(dialect: Dialect, line: string): (r: Result<Instruction, DecodeError>)
  {
    var parts := Words(RStrip(line));
    if parts == [] then Err(EmptyLine)
    else
      var name := parts[0];
      var args := parts[1..];
      var op := Lookup(name);
      if op.None? then Err(UnknownCommand(name))
      else if |args| != Arity(op.value) then Err(WrongArgumentCount(name, |args|))
      else Construct(dialect, op.value, args)
  }

  /** A line without tokens is the IndexError, and only such a line. */
  lemma DecodeBlank(dialect: Dialect, line: string)
    ensures Words(line) == [] <==> Decode(dialect, line) == Err(EmptyLine)
  {
    WordsOfRStrip(line);
  }

  /** A first token that is not in the table is the RuntimeError. */
  lemma DecodeUnknown(dialect: Dialect, line: string)
    requires Words(line) != [] && Lookup(Words(line)[0]).None?
    ensures Decode(dialect, line) == Err(UnknownCommand(Words(line)[0]))
  {
    WordsOfRStrip(line);
  }

  /** A known keyword with the wrong number of tokens after it is the
      TypeError of the constructor call. */
  lemma DecodeArity(dialect: Dialect, line: string, op: Opcode)
    requires Words(line) != [] && Lookup(Words(line)[0]) == Some(op)
    requires |Words(line)| - 1 != Arity(op)
    ensures Decode(dialect, line) == Err(WrongArgumentCount(Words(line)[0], |Words(line)| - 1))
  {
    WordsOfRStrip(line);
  }

  /** Each dialect decodes `rcv` as its own instruction only. */
  lemma DecodeDialect(dialect: Dialect, line: string)
    requires Decode(dialect, line).Ok?
    ensures dialect == Sound ==> !Decode(dialect, line).value.Rcv2?
    ensures dialect == Duet ==> !Decode(dialect, line).value.Rcv1?
  {
  }

  /** The text of an operand. */
  function OperandText(x: Operand): string {
    if x.Literal? then IntToString(x.value) else [x.name]
  }

  /** The table entry that produces an instruction. */
  function OpOf(instr: Instruction): Opcode {
    match instr
    case Snd(_) => SndOp
    case Set(_, _) => SetOp
    case Add(_, _) => AddOp
    case Mul(_, _) => MulOp
    case Mod(_, _) => ModOp
    case Rcv1(_) => RcvOp
    case Rcv2(_) => RcvOp
    case Jgz(_, _) => JgzOp
  }

  /** The argument tokens of an instruction. */
  function ArgsOf(instr: Instruction): seq<string> {
    match instr
    case Snd(x) => [OperandText(x)]
    case Set(t, y) => [t, OperandText(y)]
    case Add(t, y) => [t, OperandText(y)]
    case Mul(t, y) => [t, OperandText(y)]
    case Mod(t, y) => [t, OperandText(y)]
    case Rcv1(x) => [OperandText(x)]
    case Rcv2(t) => [t]
    case Jgz(x, y) => [OperandText(x), OperandText(y)]
  }

  /** An instruction written out as a line of its keyword and arguments. */
  function Show(instr: Instruction): string {
    Unwords([Keyword(OpOf(instr))] + ArgsOf(instr))
  }

  /** An operand that reads back as itself: a register named by a character
      that is neither a digit, a sign nor white space. */
  predicate Readable(x: Operand) {
    x.Register? ==> !IsDigit(x.name) && x.name != '+' && x.name != '-' && !IsSpace(x.name)
  }

  /** An instruction the dialect's table can produce, with readable operands
      and target registers that are single tokens. */
  predicate WellFormed(dialect: Dialect, instr: Instruction) {
    match instr
    case Snd(x) => Readable(x)
    case Set(t, y) => IsWord(t) && Readable(y)
    case Add(t, y) => IsWord(t) && Readable(y)
    case Mul(t, y) => IsWord(t) && Readable(y)
    case Mod(t, y) => IsWord(t) && Readable(y)
    case Rcv1(x) => dialect == Sound && Readable(x)
    case Rcv2(t) => dialect == Duet && IsWord(t)
    case Jgz(x, y) => Readable(x) && Readable(y)
  }

  lemma OperandTextDecodes(x: Operand)
    requires Readable(x)
    ensures IsWord(OperandText(x))
    ensures DecodeOperand(OperandText(x)) == Ok(x)
  {
    if x.Literal? {
      ParseIntToString(x.value);
      var s := IntToString(x.value);
      if x.value < 0 {
        assert s == "-" + NatToString(-x.value);
      }
      assert forall i | 0 <= i < |s| :: s[i] == '-' || IsDigit(s[i]);
    } else {
      var s := [x.name];
      assert Unsigned(s) == s || Unsigned(s) == [];
    }
  }

  /** A line of a keyword and the right number of tokens decodes as the
      constructor call on those tokens. */
  lemma DecodeTokens(dialect: Dialect, op: Opcode, args: seq<string>)
    requires |args| == Arity(op)
    requires forall k | 0 <= k < |args| :: IsWord(args[k])
    ensures Decode(dialect, Unwords([Keyword(op)] + args)) == Construct(dialect, op, args)
  {
    KeywordIsWord(op);
    var ws := [Keyword(op)] + args;
    TokensOfLine(ws);
    assert ws[1..] == args;
    LookupKeyword(op);
  }

  lemma TokensOfLine(ws: seq<string>)
    requires ws != [] && IsWord(ws[0])
    requires forall k | 1 <= k < |ws| :: IsWord(ws[k])
    ensures Words(RStrip(Unwords(ws))) == ws
  {
    WordsOfUnwords(ws);
    WordsOfRStrip(Unwords(ws));
  }

  lemma KeywordIsWord(op: Opcode)
    ensures IsWord(Keyword(op))
  {
    var w := Keyword(op);
    assert |w| == 3 && 'a' <= w[0] <= 'z' && 'a' <= w[1] <= 'z' && 'a' <= w[2] <= 'z';
  }

  /** The arguments of a well-formed instruction are tokens that the
      constructor call turns back into the instruction. */
  lemma ConstructArgs(dialect: Dialect, instr: Instruction)
    requires WellFormed(dialect, instr)
    ensures |ArgsOf(instr)| == Arity(OpOf(instr))
    ensures forall k | 0 <= k < |ArgsOf(instr)| :: IsWord(ArgsOf(instr)[k])
    ensures Construct(dialect, OpOf(instr), ArgsOf(instr)) == Ok(instr)
  {
    match instr {
      case Snd(x) => OperandTextDecodes(x);
      case Set(t, y) => OperandTextDecodes(y);
      case Add(t, y) => OperandTextDecodes(y);
      case Mul(t, y) => OperandTextDecodes(y);
      case Mod(t, y) => OperandTextDecodes(y);
      case Rcv1(x) => OperandTextDecodes(x);
      case Rcv2(t) =>
      case Jgz(x, y) => OperandTextDecodes(x); OperandTextDecodes(y);
    }
  }

  /** Decoding the written-out form of a well-formed instruction gives the
      instruction back. */
  lemma DecodeShow(dialect: Dialect, instr: Instruction)
    requires WellFormed(dialect, instr)
    ensures Decode(dialect, Show(instr)) == Ok(instr)
  {
    ConstructArgs(dialect, instr);
    DecodeTokens(dialect, OpOf(instr), ArgsOf(instr));
  }

  // ---------------------------------------------------------------------
  // Executing one instruction

  datatype ExecError =
    | NotARegister(name: string)      // TypeError of ord() on a longer token
    | RegisterOutOfRange(index: int)  // IndexError of registers[ord(r) - 97]
    | DivisionByZero                  // ZeroDivisionError of `mod X 0`
    | PositionOutOfRange(pos: int)    // IndexError of commands1[pos]

  /** What an instruction reports back: the jump offset, the value sent and,
      for a sound-variant `rcv` with a non-zero operand, that value. */
  datatype CommandResult = CommandResult(shift: int, snd: Option<int>, rcv: Option<int>)

  /** The default result: advance by one, nothing sent, nothing recovered. */
  const Advance := CommandResult(1, None, None)

  /** The register list slot `ord(c) - 97` names, with Python's negative
      wrap-around. */
  function CharSlot(c: char): (r: Result<nat, ExecError>)
    ensures r.Ok? ==> r.value < 26
    ensures 'a' <= c <= 'z' ==> r == Ok(c as int - 'a' as int)
  {
    var i := PyIndex(26, c as int - 97);
    if i.None? then Err(RegisterOutOfRange(c as int - 97)) else Ok(i.value)
  }

  /** The slot a target register token names; `ord` rejects tokens that are
      not a single character. */
  function Slot(name: string): (r: Result<nat, ExecError>)
    ensures r.Ok? ==> r.value < 26
  {
    if |name| != 1 then Err(NotARegister(name)) else CharSlot(name[0])
  }

  /** The value an operand resolves to against the registers. */
  function Value(x: Operand, regs: seq<int>): (r: Result<int, ExecError>)
    requires |regs| == 26
    ensures x.Literal? ==> r == Ok(x.value)
  {
    if x.Literal? then Ok(x.value)
    else
      var s := CharSlot(x.name);
      if s.Err? then Err(s.error) else Ok(regs[s.value])
  }

  /** The registers and mailboxes after an instruction, and its result. */
  datatype Effect = Effect(registers: seq<int>, inbox: seq<int>, outbox: seq<int>, result: CommandResult)

  /** `Command.execute` on values: the registers, the incoming mailbox and the
      outgoing mailbox before the instruction, and what they become. */
  function Execute(instr: Instruction, regs: seq<int>, inbox: seq<int>, outbox: seq<int>): (r: Result<Effect, ExecError>)
    requires |regs| == 26
    ensures r.Ok? ==> |r.value.registers| == 26
  {
    match instr
    case Snd(x) =>
      var v := Value(x, regs);
      if v.Err? then Err(v.error)
      else Ok(Effect(regs, inbox, outbox + [v.value], CommandResult(1, Some(v.value), None)))
    case Set(t, y) =>
      var v := Value(y, regs);
      if v.Err? then Err(v.error)
      else
        var s := Slot(t);
        if s.Err? then Err(s.error) else Ok(Effect(regs[s.value := v.value], inbox, outbox, Advance))
    case Add(t, y) =>
      var s := Slot(t);
      if s.Err? then Err(s.error)
      else
        var v := Value(y, regs);
        if v.Err? then Err(v.error)
        else Ok(Effect(regs[s.value := regs[s.value] + v.value], inbox, outbox, Advance))
    case Mul(t, y) =>
      var s := Slot(t);
      if s.Err? then Err(s.error)
      else
        var v := Value(y, regs);
        if v.Err? then Err(v.error)
        else Ok(Effect(regs[s.value := regs[s.value] * v.value], inbox, outbox, Advance))
    case Mod(t, y) =>
      var s := Slot(t);
      if s.Err? then Err(s.error)
      else
        var v := Value(y, regs);
        if v.Err? then Err(v.error)
        else if v.value == 0 then Err(DivisionByZero)
        else Ok(Effect(regs[s.value := FloorMod(regs[s.value], v.value)], inbox, outbox, Advance))
    case Rcv1(x) =>
      var v := Value(x, regs);
      if v.Err? then Err(v.error)
      else Ok(Effect(regs, inbox, outbox, CommandResult(1, None, if v.value != 0 then Some(v.value) else None)))
    case Rcv2(t) =>
      if inbox == [] then Ok(Effect(regs, inbox, outbox, CommandResult(0, None, None)))
      else
        var s := Slot(t);
        if s.Err? then Err(s.error) else Ok(Effect(regs[s.value := inbox[0]], inbox[1..], outbox, Advance))
    case Jgz(x, y) =>
      var c := Value(x, regs);
      if c.Err? then Err(c.error)
      else if c.value <= 0 then Ok(Effect(regs, inbox, outbox, Advance))
      else
        var v := Value(y, regs);
        if v.Err? then Err(v.error) else Ok(Effect(regs, inbox, outbox, CommandResult(v.value, None, None)))
  }

  /** The register an instruction writes, if any. */
  function Target(instr: Instruction): Option<string> {
    match instr
    case Set(t, _) => Some(t)
    case Add(t, _) => Some(t)
    case Mul(t, _) => Some(t)
    case Mod(t, _) => Some(t)
    case Rcv2(t) => Some(t)
    case _ => None
  }

  /** Nothing else changes: an instruction writes at most its target register,
      sends only from `snd` (appending the value of its operand at the back),
      takes only from the front of the incoming mailbox and only by a `rcv` of
      the duet variant, and only a sound-variant `rcv` recovers. */
  lemma ExecuteFrame(instr: Instruction, regs: seq<int>, inbox: seq<int>, outbox: seq<int>)
    requires |regs| == 26 && Execute(instr, regs, inbox, outbox).Ok?
    ensures var e := Execute(instr, regs, inbox, outbox).value;
      && (forall k | 0 <= k < 26 && e.registers[k] != regs[k] ::
            Target(instr).Some? && Slot(Target(instr).value) == Ok(k))
      && (e.result.snd.Some? <==> instr.Snd?)
      && (instr.Snd? ==> Value(instr.x, regs).Ok? && e.result.snd == Some(Value(instr.x, regs).value))
      && e.outbox == (if instr.Snd? then outbox + [e.result.snd.value] else outbox)
      && (if instr.Rcv2? && inbox != [] then e.inbox == inbox[1..] else e.inbox == inbox)
      && (e.result.rcv.Some? ==> instr.Rcv1?)
  {
  }

  /** `set`, `add`, `mul` and `mod` leave the mailboxes alone, advance by one
      and store into register X the value of Y, X + Y, X * Y or Python's
      `X % Y` (which takes the sign of Y). */
  lemma {:induction false} ArithmeticResult(instr: Instruction, regs: seq<int>, inbox: seq<int>, outbox: seq<int>, s: nat, x: int, v: int)
    requires |regs| == 26 && (instr.Set? || instr.Add? || instr.Mul? || instr.Mod?)
    requires Slot(instr.target) == Ok(s) && x == regs[s] && Value(instr.y, regs) == Ok(v)
    requires instr.Mod? ==> v != 0
    ensures Execute(instr, regs, inbox, outbox).Ok?
    ensures var e := Execute(instr, regs, inbox, outbox).value;
      && e.inbox == inbox && e.outbox == outbox && e.result == Advance
      && (forall k | 0 <= k < 26 && k != s :: e.registers[k] == regs[k])
      && (instr.Set? ==> e.registers[s] == v)
      && (instr.Add? ==> e.registers[s] == x + v)
      && (instr.Mul? ==> e.registers[s] == x * v)
      && (instr.Mod? && v > 0 ==> 0 <= e.registers[s] < v)
      && (instr.Mod? && v < 0 ==> v < e.registers[s] <= 0)
      && (instr.Mod? ==> (x - e.registers[s]) % v == 0)
  {
    if instr.Mod? {
      var m := FloorMod(x, v);
      assert x - m == FloorDiv(x, v) * v;
      MultipleModIsZero(FloorDiv(x, v), v);
    }
  }

  /** A whole multiple of `n`, of either sign, leaves no remainder. */
  lemma MultipleModIsZero(d: int, n: int)
    requires n != 0
    ensures (d * n) % n == 0
  {
    if n > 0 {
      ModUnique(d * n, n, d, 0);
    } else {
      assert d * n == (-d) * (-n);
      ModUnique(d * n, -n, -d, 0);
      assert (d * n) % n == (d * n) % (-n);
    }
  }

  /** `mod X 0` raises ZeroDivisionError. */
  lemma ModByZeroFails(t: string, y: Operand, regs: seq<int>, inbox: seq<int>, outbox: seq<int>)
    requires |regs| == 26 && Slot(t).Ok? && Value(y, regs) == Ok(0)
    ensures Execute(Mod(t, y), regs, inbox, outbox) == Err(DivisionByZero)
  {
  }

  /** `rcv X` in the duet variant takes the oldest queued value into X; on an
      empty mailbox it reports a shift of 0 and changes nothing. */
  lemma ReceiveResult(t: string, regs: seq<int>, inbox: seq<int>, outbox: seq<int>)
    requires |regs| == 26 && (inbox != [] ==> Slot(t).Ok?)
    ensures var r := Execute(Rcv2(t), regs, inbox, outbox);
      && r.Ok?
      && (inbox == [] ==> r.value == Effect(regs, inbox, outbox, CommandResult(0, None, None)))
      && (inbox != [] ==> r.value.registers == regs[Slot(t).value := inbox[0]] &&
                          r.value.inbox == inbox[1..] && r.value.result == Advance)
  {
  }

  /** `jgz X Y` advances by the value of Y when X is positive and by one
      otherwise; Y is not even read when X is not positive. */
  lemma JumpResult(x: Operand, y: Operand, regs: seq<int>, inbox: seq<int>, outbox: seq<int>, c: int)
    requires |regs| == 26 && Value(x, regs) == Ok(c)
    ensures var r := Execute(Jgz(x, y), regs, inbox, outbox);
      && (c <= 0 ==> r == Ok(Effect(regs, inbox, outbox, Advance)))
      && (c > 0 && Value(y, regs).Ok? ==> r == Ok(Effect(regs, inbox, outbox, CommandResult(Value(y, regs).value, None, None))))
      && (c > 0 && Value(y, regs).Err? ==> r == Err(Value(y, regs).error))
  {
  }

  /** A zero shift only comes with no change at all. */
  lemma ShiftZeroChangesNothing(instr: Instruction, regs: seq<int>, inbox: seq<int>, outbox: seq<int>)
    requires |regs| == 26 && Execute(instr, regs, inbox, outbox).Ok?
    requires Execute(instr, regs, inbox, outbox).value.result.shift == 0
    ensures Execute(instr, regs, inbox, outbox).value == Effect(regs, inbox, outbox, CommandResult(0, None, None))
  {
  }

  // ---------------------------------------------------------------------
  // One program of the duet

  /** A `Program` as values: position, number of values sent, registers and
      the outgoing mailbox. */
  datatype Process = Process(pos: int, sndCount: nat, registers: seq<int>, outbox: seq<int>)

  /** A fresh program numbered `number`: position 0, nothing sent, an empty
      mailbox and every register 0 except `p`, which holds the number. */
  function Initial(number: int): (r: Process)
    ensures |r.registers| == 26 && Slot("p") == Ok(15)
    ensures forall k | 0 <= k < 26 :: r.registers[k] == if k == 15 then number else 0
  {
    Process(0, 0, seq(26, k => if k == 15 then number else 0), [])
  }

  /** The result of `Program.execute`: whether progress was made, the new
      program state and what is left in the incoming mailbox. */
  datatype Stepped = Stepped(executed: bool, process: Process, inbox: seq<int>)

  /** `Program.execute` on values. */
  function ProgramStep(commands: seq<Instruction>, p: Process, inbox: seq<int>): (r: Result<Stepped, ExecError>)
    requires |p.registers| == 26
    ensures r.Ok? ==> |r.value.process.registers| == 26
  {
    if p.pos < 0 || p.pos >= |commands| then Ok(Stepped(false, p, inbox))
    else
      var e := Execute(commands[p.pos], p.registers, inbox, p.outbox);
      if e.Err? then Err(e.error)
      else if e.value.result.shift == 0 then Ok(Stepped(false, p, inbox))
      else
        var count := if e.value.result.snd.Some? then p.sndCount + 1 else p.sndCount;
        Ok(Stepped(true, Process(p.pos + e.value.result.shift, count, e.value.registers, e.value.outbox), e.value.inbox))
  }

  /** A position outside the program stops it without changing anything. */
  lemma OutOfRangeStops(commands: seq<Instruction>, p: Process, inbox: seq<int>)
    requires |p.registers| == 26 && !(0 <= p.pos < |commands|)
    ensures ProgramStep(commands, p, inbox) == Ok(Stepped(false, p, inbox))
  {
  }

  /** A step that makes no progress changes nothing; one that does counts a
      send exactly when it executed `snd`, appends the value of its operand at
      the back of its own mailbox, and takes from the incoming mailbox only at the
      front (first in, first out). */
  lemma StepEffects(commands: seq<Instruction>, p: Process, inbox: seq<int>)
    requires |p.registers| == 26 && ProgramStep(commands, p, inbox).Ok?
    ensures var s := ProgramStep(commands, p, inbox).value;
      && (!s.executed ==> s.process == p && s.inbox == inbox)
      && (s.executed ==> 0 <= p.pos < |commands|)
      && (s.process.sndCount == if s.executed && commands[p.pos].Snd? then p.sndCount + 1 else p.sndCount)
      && (s.executed && commands[p.pos].Snd? ==>
            var v := Value(commands[p.pos].x, p.registers); v.Ok? && s.process.outbox == p.outbox + [v.value])
      && (!(s.executed && commands[p.pos].Snd?) ==> s.process.outbox == p.outbox)
      && (s.inbox == inbox || (inbox != [] && s.inbox == inbox[1..]))
  {
    if 0 <= p.pos < |commands| {
      var e := Execute(commands[p.pos], p.registers, inbox, p.outbox);
      if e.value.result.shift == 0 {
        ShiftZeroChangesNothing(commands[p.pos], p.registers, inbox, p.outbox);
      } else {
        ExecuteFrame(commands[p.pos], p.registers, inbox, p.outbox);
      }
    }
  }

  /** `jgz` on a literal condition that is not positive only moves on by one. */
  lemma NonPositiveJumpAdvances(commands: seq<Instruction>, p: Process, inbox: seq<int>)
    requires |p.registers| == 26 && 0 <= p.pos < |commands|
    requires commands[p.pos].Jgz? && commands[p.pos].x.Literal? && commands[p.pos].x.value <= 0
    ensures ProgramStep(commands, p, inbox) == Ok(Stepped(true, p.(pos := p.pos + 1), inbox))
  {
  }

  /** A `rcv` of the duet variant on an empty mailbox blocks: no progress and
      no change, so the same instruction is tried again later. */
  lemma EmptyReceiveBlocks(commands: seq<Instruction>, p: Process)
    requires |p.registers| == 26 && 0 <= p.pos < |commands| && commands[p.pos].Rcv2?
    ensures ProgramStep(commands, p, []) == Ok(Stepped(false, p, []))
  {
  }

  // ---------------------------------------------------------------------
  // The scheduler

  /** One turn of the duet loop: program 0 steps first, reading program 1's
      mailbox, then program 1 steps, reading program 0's mailbox. */
  datatype Turn = Turn(executed0: bool, executed1: bool, p0: Process, p1: Process)

  function Round(commands: seq<Instruction>, p0: Process, p1: Process): (r: Result<Turn, ExecError>)
    requires |p0.registers| == 26 && |p1.registers| == 26
    ensures r.Ok? ==> |r.value.p0.registers| == 26 && |r.value.p1.registers| == 26
  {
    var s0 := ProgramStep(commands, p0, p1.outbox);
    if s0.Err? then Err(s0.error)
    else
      var q1 := p1.(outbox := s0.value.inbox);
      var s1 := ProgramStep(commands, q1, s0.value.process.outbox);
      if s1.Err? then Err(s1.error)
      else Ok(Turn(s0.value.executed, s1.value.executed, s0.value.process.(outbox := s1.value.inbox), s1.value.process))
  }

  /** How a run ends: with its answer, with the exception that ended it, or
      undecided when the step bound ran out first. */
  datatype Run<T> = Halted(value: T) | Crashed(error: ExecError) | OutOfFuel

  /** The duet loop, at most `fuel` turns: it ends with the first turn in
      which neither program made progress. */
  function Schedule(commands: seq<Instruction>, p0: Process, p1: Process, fuel: nat): Run<(Process, Process)>
    requires |p0.registers| == 26 && |p1.registers| == 26
    decreases fuel
  {
    if fuel == 0 then OutOfFuel
    else
      var t := Round(commands, p0, p1);
      if t.Err? then Crashed(t.error)
      else if !t.value.executed0 && !t.value.executed1 then Halted((t.value.p0, t.value.p1))
      else Schedule(commands, t.value.p0, t.value.p1, fuel - 1)
  }

  /** One turn of the loop: it stops the run, ends it with an exception, or
      the run goes on from the new state with one turn fewer. */
  lemma ScheduleStep(commands: seq<Instruction>, p0: Process, p1: Process, fuel: nat)
    requires |p0.registers| == 26 && |p1.registers| == 26 && fuel > 0
    ensures var t := Round(commands, p0, p1);
      && (t.Err? ==> Schedule(commands, p0, p1, fuel) == Crashed(t.error))
      && (t.Ok? && !t.value.executed0 && !t.value.executed1 ==>
            Schedule(commands, p0, p1, fuel) == Halted((t.value.p0, t.value.p1)))
      && (t.Ok? && (t.value.executed0 || t.value.executed1) ==>
            Schedule(commands, p0, p1, fuel) == Schedule(commands, t.value.p0, t.value.p1, fuel - 1))
  {
  }

  /** A turn in which neither program made progress changes nothing. */
  lemma StalledRoundChangesNothing(commands: seq<Instruction>, p0: Process, p1: Process)
    requires |p0.registers| == 26 && |p1.registers| == 26 && Round(commands, p0, p1).Ok?
    requires !Round(commands, p0, p1).value.executed0 && !Round(commands, p0, p1).value.executed1
    ensures Round(commands, p0, p1).value.p0 == p0 && Round(commands, p0, p1).value.p1 == p1
  {
    var s0 := ProgramStep(commands, p0, p1.outbox);
    StepEffects(commands, p0, p1.outbox);
    var q1 := p1.(outbox := s0.value.inbox);
    assert q1 == p1;
    StepEffects(commands, q1, s0.value.process.outbox);
  }

  /** The loop stops in a mutual stall: from the final state neither program
      can make progress, and a further turn would change nothing. */
  lemma {:induction false} ScheduleEndsInStall(commands: seq<Instruction>, p0: Process, p1: Process, fuel: nat)
    requires |p0.registers| == 26 && |p1.registers| == 26 && Schedule(commands, p0, p1, fuel).Halted?
    ensures var (a, b) := Schedule(commands, p0, p1, fuel).value;
      |a.registers| == 26 && |b.registers| == 26 &&
      Round(commands, a, b) == Ok(Turn(false, false, a, b))
    decreases fuel
  {
    var t := Round(commands, p0, p1);
    if !t.value.executed0 && !t.value.executed1 {
      StalledRoundChangesNothing(commands, p0, p1);
    } else {
      ScheduleEndsInStall(commands, t.value.p0, t.value.p1, fuel - 1);
    }
  }

  /** A turn in which some program moves lets the run go on from the state
      it leaves, with one turn fewer. */
  lemma Continue(commands: seq<Instruction>, a: Process, b: Process, moved0: bool, moved1: bool,
                 a': Process, b': Process, fuel: nat)
    requires |a.registers| == 26 && |b.registers| == 26 && |a'.registers| == 26 && |b'.registers| == 26
    requires Round(commands, a, b) == Ok(Turn(moved0, moved1, a', b')) && (moved0 || moved1) && fuel > 0
    ensures Schedule(commands, a, b, fuel) == Schedule(commands, a', b', fuel - 1)
  { ScheduleStep(commands, a, b, fuel); }

  /** More fuel never changes a decided run. */
  lemma {:induction false} ScheduleFuelMonotone(commands: seq<Instruction>, p0: Process, p1: Process, fuel: nat, more: nat)
    requires |p0.registers| == 26 && |p1.registers| == 26 && fuel <= more
    requires !Schedule(commands, p0, p1, fuel).OutOfFuel?
    ensures Schedule(commands, p0, p1, more) == Schedule(commands, p0, p1, fuel)
    decreases fuel
  {
    var t := Round(commands, p0, p1);
    if t.Ok? && (t.value.executed0 || t.value.executed1) {
      var a, b := t.value.p0, t.value.p1;
      Continue(commands, p0, p1, t.value.executed0, t.value.executed1, a, b, fuel);
      Continue(commands, p0, p1, t.value.executed0, t.value.executed1, a, b, more);
      ScheduleFuelMonotone(commands, a, b, fuel - 1, more - 1);
    } else {
      ScheduleStep(commands, p0, p1, fuel);
      ScheduleStep(commands, p0, p1, more);
    }
  }

  /** The part 2 answer: how many values program 1 sent. */
  function Program1Sends(run: Run<(Process, Process)>): Run<nat> {
    match run
    case Halted((_, p1)) => Halted(p1.sndCount)
    case Crashed(e) => Crashed(e)
    case OutOfFuel => OutOfFuel
  }

  // ---------------------------------------------------------------------
  // The sound variant

  function Zeros(): (r: seq<int>)
    ensures |r| == 26 && forall k | 0 <= k < 26 :: r[k] == 0
  {
    seq(26, _ => 0)
  }

  /** The part 1 loop from position `pos`, at most `fuel` steps: each step
      runs `commands[pos]` with throw-away mailboxes, remembers the last
      value sent and stops at the first recovery, answering the last value
      sent. A position outside the list wraps as Python indexing does. */
  function Recover(commands: seq<Instruction>, pos: int, lastSound: int, regs: seq<int>, fuel: nat): Run<int>
    requires |regs| == 26
    decreases fuel
  {
    if fuel == 0 then OutOfFuel
    else
      var i := PyIndex(|commands|, pos);
      if i.None? then Crashed(PositionOutOfRange(pos))
      else
        var e := Execute(commands[i.value], regs, [], []);
        if e.Err? then Crashed(e.error)
        else
          var sound := if e.value.result.snd.Some? then e.value.result.snd.value else lastSound;
          if e.value.result.rcv.Some? then Halted(sound)
          else Recover(commands, pos + e.value.result.shift, sound, e.value.registers, fuel - 1)
  }

  /** One step of the part 1 loop that recovers nothing moves on to the
      next position with the registers the instruction left. */
  lemma RecoverAdvances(commands: seq<Instruction>, pos: int, lastSound: int, regs: seq<int>, fuel: nat, e: Effect, sound: int)
    requires |regs| == 26 && fuel > 0 && PyIndex(|commands|, pos).Some?
    requires Execute(commands[PyIndex(|commands|, pos).value], regs, [], []) == Ok(e) && e.result.rcv.None?
    requires sound == if e.result.snd.Some? then e.result.snd.value else lastSound
    ensures Recover(commands, pos, lastSound, regs, fuel) == Recover(commands, pos + e.result.shift, sound, e.registers, fuel - 1)
  {
  }

  // ---------------------------------------------------------------------
  // Examples

  /** The sound-variant example program `set a 1`, `add a 2`, `mul a a`,
      `mod a 5`, `snd a`, `set a 0`, `rcv a`, `jgz a -1`, `set a 1`,
      `jgz a -2`, instruction by instruction. */
  predicate IsSoundExample(commands: seq<Instruction>) {
    |commands| == 10 &&
    commands[0] == Set("a", Literal(1)) && commands[1] == Add("a", Literal(2)) &&
    commands[2] == Mul("a", Register('a')) && commands[3] == Mod("a", Literal(5)) &&
    commands[4] == Snd(Register('a')) && commands[5] == Set("a", Literal(0)) &&
    commands[6] == Rcv1(Register('a')) && commands[7] == Jgz(Register('a'), Literal(-1)) &&
    commands[8] == Set("a", Literal(1)) && commands[9] == Jgz(Register('a'), Literal(-2))
  }

  /** The first five steps: `a` becomes 1, 3, 9, then 4, which is played. */
  lemma SoundExampleHead(commands: seq<Instruction>, z: seq<int>, fuel: nat)
    requires IsSoundExample(commands) && |z| == 26 && fuel >= 5
    ensures Recover(commands, 0, 0, z, fuel) == Recover(commands, 5, 4, z[0 := 4], fuel - 5)
  {
    assert Slot("a") == Ok(0);
    assert z[0 := 1][0 := 3] == z[0 := 3];
    assert z[0 := 3][0 := 9] == z[0 := 9];
    assert z[0 := 9][0 := 4] == z[0 := 4];
    RecoverAdvances(commands, 0, 0, z, fuel, Effect(z[0 := 1], [], [], Advance), 0);
    RecoverAdvances(commands, 1, 0, z[0 := 1], fuel - 1, Effect(z[0 := 3], [], [], Advance), 0);
    RecoverAdvances(commands, 2, 0, z[0 := 3], fuel - 2, Effect(z[0 := 9], [], [], Advance), 0);
    assert FloorMod(9, 5) == 4;
    RecoverAdvances(commands, 3, 0, z[0 := 9], fuel - 3, Effect(z[0 := 4], [], [], Advance), 0);
    assert Value(Register('a'), z[0 := 4]) == Ok(4);
    assert [] + [4] == [4];
    RecoverAdvances(commands, 4, 0, z[0 := 4], fuel - 4, Effect(z[0 := 4], [], [4], CommandResult(1, Some(4), None)), 4);
  }

  /** The remaining steps: `a` is cleared, so `rcv a` and `jgz a -1` are
      skipped; then `a` is 1 and the two jumps lead back to `rcv a`, which
      now recovers the 4 played last. */
  lemma SoundExampleTail(commands: seq<Instruction>, z: seq<int>, fuel: nat)
    requires IsSoundExample(commands) && |z| == 26 && fuel >= 7
    ensures Recover(commands, 5, 4, z[0 := 4], fuel) == Halted(4)
  {
    assert Slot("a") == Ok(0);
    var y := z[0 := 0];
    assert z[0 := 4][0 := 0] == y;
    assert y[0 := 1] == z[0 := 1];
    RecoverAdvances(commands, 5, 4, z[0 := 4], fuel, Effect(y, [], [], Advance), 4);
    RecoverAdvances(commands, 6, 4, y, fuel - 1, Effect(y, [], [], Advance), 4);
    RecoverAdvances(commands, 7, 4, y, fuel - 2, Effect(y, [], [], Advance), 4);
    RecoverAdvances(commands, 8, 4, y, fuel - 3, Effect(z[0 := 1], [], [], Advance), 4);
    RecoverAdvances(commands, 9, 4, z[0 := 1], fuel - 4, Effect(z[0 := 1], [], [], CommandResult(-2, None, None)), 4);
    RecoverAdvances(commands, 7, 4, z[0 := 1], fuel - 5, Effect(z[0 := 1], [], [], CommandResult(-1, None, None)), 4);
    assert Execute(commands[6], z[0 := 1], [], []) == Ok(Effect(z[0 := 1], [], [], CommandResult(1, None, Some(1))));
  }

  /** The example recovers 4 on its twelfth step. */
  lemma SoundExample(commands: seq<Instruction>, fuel: nat)
    requires IsSoundExample(commands) && fuel >= 12
    ensures Recover(commands, 0, 0, Zeros(), fuel) == Halted(4)
  {
    SoundExampleHead(commands, Zeros(), fuel);
    SoundExampleTail(commands, Zeros(), fuel - 5);
  }

  /** Two copies that both start by receiving stall in the first turn, with
      nothing sent by either. */
  lemma DeadlockExample(commands: seq<Instruction>, fuel: nat)
    requires commands == [Rcv2("a")] && fuel >= 1
    ensures Schedule(commands, Initial(0), Initial(1), fuel) == Halted((Initial(0), Initial(1)))
    ensures Initial(0).sndCount == 0 && Initial(1).sndCount == 0
  {
    ScheduleStep(commands, Initial(0), Initial(1), fuel);
    EmptyReceiveBlocks(commands, Initial(0));
    EmptyReceiveBlocks(commands, Initial(1));
  }

  /** The duet example program `snd 1`, `snd 2`, `snd p`, `rcv a`, `rcv b`,
      `rcv c`, `rcv d`, instruction by instruction. */
  predicate IsDuetExample(commands: seq<Instruction>) {
    |commands| == 7 &&
    commands[0] == Snd(Literal(1)) && commands[1] == Snd(Literal(2)) && commands[2] == Snd(Register('p')) &&
    commands[3] == Rcv2("a") && commands[4] == Rcv2("b") && commands[5] == Rcv2("c") && commands[6] == Rcv2("d")
  }

  /** A turn of the example in which both copies send: each appends the
      value of its operand to its own mailbox. */
  lemma DuetSend(commands: seq<Instruction>, pos: int, a: Process, b: Process, v0: int, v1: int)
    requires IsDuetExample(commands) && 0 <= pos <= 2 && a.pos == pos && b.pos == pos
    requires |a.registers| == 26 && |b.registers| == 26
    requires Value(commands[pos].x, a.registers) == Ok(v0) && Value(commands[pos].x, b.registers) == Ok(v1)
    ensures Round(commands, a, b) ==
      Ok(Turn(true, true,
              Process(pos + 1, a.sndCount + 1, a.registers, a.outbox + [v0]),
              Process(pos + 1, b.sndCount + 1, b.registers, b.outbox + [v1])))
  {
    assert ProgramStep(commands, a, b.outbox) ==
      Ok(Stepped(true, Process(pos + 1, a.sndCount + 1, a.registers, a.outbox + [v0]), b.outbox));
    assert b.(outbox := b.outbox) == b;
  }

  /** A turn of the example in which both copies receive: each takes the
      front of the other's mailbox into register `t`. */
  lemma DuetReceive(commands: seq<Instruction>, pos: int, t: string, slot: nat, a: Process, b: Process)
    requires IsDuetExample(commands) && 3 <= pos <= 5 && commands[pos] == Rcv2(t) && Slot(t) == Ok(slot)
    requires |a.registers| == 26 && |b.registers| == 26 && a.pos == pos && b.pos == pos
    requires a.outbox != [] && b.outbox != []
    ensures Round(commands, a, b) ==
      Ok(Turn(true, true,
              Process(pos + 1, a.sndCount, a.registers[slot := b.outbox[0]], a.outbox[1..]),
              Process(pos + 1, b.sndCount, b.registers[slot := a.outbox[0]], b.outbox[1..])))
  {
    var s0 := ProgramStep(commands, a, b.outbox);
    assert s0 == Ok(Stepped(true, Process(pos + 1, a.sndCount, a.registers[slot := b.outbox[0]], a.outbox), b.outbox[1..]));
    var q1 := b.(outbox := b.outbox[1..]);
    assert ProgramStep(commands, q1, a.outbox) ==
      Ok(Stepped(true, Process(pos + 1, b.sndCount, b.registers[slot := a.outbox[0]], b.outbox[1..]), a.outbox[1..]));
  }

  /** Turns four to six of the example: each copy receives the other's three
      values, in the order they were sent. */
  lemma DuetExampleReceives(commands: seq<Instruction>, r0: seq<int>, r1: seq<int>, fuel: nat)
    requires IsDuetExample(commands) && |r0| == 26 && |r1| == 26 && fuel >= 3
    ensures Schedule(commands, Process(3, 3, r0, [1, 2, 0]), Process(3, 3, r1, [1, 2, 1]), fuel) ==
      Schedule(commands, Process(6, 3, r0[0 := 1][1 := 2][2 := 1], []), Process(6, 3, r1[0 := 1][1 := 2][2 := 0], []), fuel - 3)
  {
    assert Slot("a") == Ok(0) && Slot("b") == Ok(1) && Slot("c") == Ok(2);
    var p3, q3 := Process(3, 3, r0, [1, 2, 0]), Process(3, 3, r1, [1, 2, 1]);
    var p4, q4 := Process(4, 3, r0[0 := 1], [2, 0]), Process(4, 3, r1[0 := 1], [2, 1]);
    var p5, q5 := Process(5, 3, r0[0 := 1][1 := 2], [0]), Process(5, 3, r1[0 := 1][1 := 2], [1]);
    var p6, q6 := Process(6, 3, r0[0 := 1][1 := 2][2 := 1], []), Process(6, 3, r1[0 := 1][1 := 2][2 := 0], []);
    assert p3.outbox[1..] == [2, 0] && q3.outbox[1..] == [2, 1];
    DuetReceive(commands, 3, "a", 0, p3, q3);
    assert p4.outbox[1..] == [0] && q4.outbox[1..] == [1];
    DuetReceive(commands, 4, "b", 1, p4, q4);
    assert p5.outbox[1..] == [] && q5.outbox[1..] == [];
    DuetReceive(commands, 5, "c", 2, p5, q5);
    ThreeTurns(commands, p3, q3, p4, q4, p5, q5, p6, q6, fuel);
  }

  /** Three turns in a row in which both programs move. */
  lemma ThreeTurns(commands: seq<Instruction>, a0: Process, b0: Process, a1: Process, b1: Process,
                   a2: Process, b2: Process, a3: Process, b3: Process, fuel: nat)
    requires |a0.registers| == 26 && |b0.registers| == 26 && |a1.registers| == 26 && |b1.registers| == 26
    requires |a2.registers| == 26 && |b2.registers| == 26 && |a3.registers| == 26 && |b3.registers| == 26
    requires Round(commands, a0, b0) == Ok(Turn(true, true, a1, b1))
    requires Round(commands, a1, b1) == Ok(Turn(true, true, a2, b2))
    requires Round(commands, a2, b2) == Ok(Turn(true, true, a3, b3))
    requires fuel >= 3
    ensures Schedule(commands, a0, b0, fuel) == Schedule(commands, a3, b3, fuel - 3)
  {
    Continue(commands, a0, b0, true, true, a1, b1, fuel);
    Continue(commands, a1, b1, true, true, a2, b2, fuel - 1);
    Continue(commands, a2, b2, true, true, a3, b3, fuel - 2);
  }

  /** The seventh turn: both copies wait at `rcv d` on empty mailboxes. */
  lemma DuetExampleStall(commands: seq<Instruction>, a: Process, b: Process, fuel: nat)
    requires IsDuetExample(commands) && |a.registers| == 26 && |b.registers| == 26 && fuel >= 1
    requires a.pos == 6 && b.pos == 6 && a.outbox == [] && b.outbox == []
    ensures Schedule(commands, a, b, fuel) == Halted((a, b))
  {
    EmptyReceiveBlocks(commands, a);
    EmptyReceiveBlocks(commands, b);
    assert Round(commands, a, b) == Ok(Turn(false, false, a, b));
    ScheduleStep(commands, a, b, fuel);
  }

  /** The first three turns of the example: both copies send three values. */
  lemma DuetExampleHead(commands: seq<Instruction>, r0: seq<int>, r1: seq<int>, fuel: nat)
    requires IsDuetExample(commands) && |r0| == 26 && |r1| == 26 && r0[15] == 0 && r1[15] == 1 && fuel >= 3
    ensures Schedule(commands, Process(0, 0, r0, []), Process(0, 0, r1, []), fuel) ==
      Schedule(commands, Process(3, 3, r0, [1, 2, 0]), Process(3, 3, r1, [1, 2, 1]), fuel - 3)
  {
    assert Slot("p") == Ok(15);
    assert [] + [1] == [1] && [1] + [2] == [1, 2] && [1, 2] + [0] == [1, 2, 0] && [1, 2] + [1] == [1, 2, 1];
    DuetSend(commands, 0, Process(0, 0, r0, []), Process(0, 0, r1, []), 1, 1);
    DuetSend(commands, 1, Process(1, 1, r0, [1]), Process(1, 1, r1, [1]), 2, 2);
    DuetSend(commands, 2, Process(2, 2, r0, [1, 2]), Process(2, 2, r1, [1, 2]), 0, 1);
    ScheduleStep(commands, Process(0, 0, r0, []), Process(0, 0, r1, []), fuel);
    ScheduleStep(commands, Process(1, 1, r0, [1]), Process(1, 1, r1, [1]), fuel - 1);
    ScheduleStep(commands, Process(2, 2, r0, [1, 2]), Process(2, 2, r1, [1, 2]), fuel - 2);
  }

  /** The example `snd 1`, `snd 2`, `snd p`, `rcv a`, `rcv b`, `rcv c`,
      `rcv d`: after six turns both copies wait at the fourth `rcv`, the
      seventh turn stalls, and program 1 has sent 3 values. */
  lemma DuetExample(commands: seq<Instruction>, fuel: nat)
    requires IsDuetExample(commands) && fuel >= 7
    ensures Schedule(commands, Initial(0), Initial(1), fuel).Halted?
    ensures Schedule(commands, Initial(0), Initial(1), fuel).value.1.sndCount == 3
  {
    var r0, r1 := Initial(0).registers, Initial(1).registers;
    assert Initial(0) == Process(0, 0, r0, []) && Initial(1) == Process(0, 0, r1, []);
    DuetExampleFrom(commands, r0, r1, fuel);
  }

  /** Turns four to seven of the example: the receives, then the stall. */
  lemma DuetExampleTail(commands: seq<Instruction>, r0: seq<int>, r1: seq<int>, fuel: nat)
    requires IsDuetExample(commands) && |r0| == 26 && |r1| == 26 && fuel >= 4
    ensures Schedule(commands, Process(3, 3, r0, [1, 2, 0]), Process(3, 3, r1, [1, 2, 1]), fuel) ==
      Halted((Process(6, 3, r0[0 := 1][1 := 2][2 := 1], []), Process(6, 3, r1[0 := 1][1 := 2][2 := 0], [])))
  {
    DuetExampleReceives(commands, r0, r1, fuel);
    DuetExampleStall(commands, Process(6, 3, r0[0 := 1][1 := 2][2 := 1], []), Process(6, 3, r1[0 := 1][1 := 2][2 := 0], []), fuel - 3);
  }

  lemma DuetExampleFrom(commands: seq<Instruction>, r0: seq<int>, r1: seq<int>, fuel: nat)
    requires IsDuetExample(commands) && |r0| == 26 && |r1| == 26 && r0[15] == 0 && r1[15] == 1 && fuel >= 7
    ensures Schedule(commands, Process(0, 0, r0, []), Process(0, 0, r1, []), fuel) ==
      Halted((Process(6, 3, r0[0 := 1][1 := 2][2 := 1], []), Process(6, 3, r1[0 := 1][1 := 2][2 := 0], [])))
  {
    DuetExampleHead(commands, r0, r1, fuel);
    DuetExampleTail(commands, r0, r1, fuel - 3);
  }

  /** The sound-variant line `jgz a -1` decodes to its instruction. */
  lemma DecodeExample(line: string)
    requires line == "jgz a -1"
    ensures Decode(Sound, line) == Ok(Jgz(Register('a'), Literal(-1)))
  {
    var instr := Jgz(Register('a'), Literal(-1));
    assert NatToString(1) == "1";
    assert OperandText(Literal(-1)) == "-1";
    assert ArgsOf(instr) == ["a", "-1"];
    assert Unwords(["jgz", "a", "-1"]) == "jgz" + " " + ("a" + " " + "-1");
    assert Show(instr) == line;
    DecodeShow(Sound, instr);
  }

  // ---------------------------------------------------------------------
  // Mutable state

  /** A `queue.Queue` used from a single thread: a FIFO list of integers. */
  class Mailbox {
    var items: seq<int>

    constructor()
      ensures items == []
    {
      items := [];
    }

    method Put(v: int)
      modifies this
      ensures items == old(items) + [v]
    {
      items := items + [v];
    }

    method Get() returns (v: int)
      requires items != []
      modifies this
      ensures v == old(items)[0] && items == old(items)[1..]
    {
      v := items[0];
      items := items[1..];
    }
  }

  /** `Command.execute`: runs one instruction against a 26-slot register list,
      taking from `queueIn` and putting into `queueOut`. */
  method RunCommand(instr: Instruction, registers: array<int>, queueIn: Mailbox, queueOut: Mailbox) returns (r: Result<CommandResult, ExecError>)
    requires registers.Length == 26 && queueIn != queueOut
    modifies registers, queueIn, queueOut
    ensures var e := Execute(instr, old(registers[..]), old(queueIn.items), old(queueOut.items));
      if r.Ok? then e == Ok(Effect(registers[..], queueIn.items, queueOut.items, r.value))
      else e == Err(r.error)
  {
    var regs := registers[..];
    match instr {
      case Snd(x) =>
        var v := Value(x, regs);
        if v.Err? { return Err(v.error); }
        queueOut.Put(v.value);
        r := Ok(CommandResult(1, Some(v.value), None));
      case Set(t, y) =>
        var v := Value(y, regs);
        if v.Err? { return Err(v.error); }
        var s := Slot(t);
        if s.Err? { return Err(s.error); }
        registers[s.value] := v.value;
        r := Ok(Advance);
      case Add(t, y) =>
        var s := Slot(t);
        if s.Err? { return Err(s.error); }
        var v := Value(y, regs);
        if v.Err? { return Err(v.error); }
        registers[s.value] := registers[s.value] + v.value;
        r := Ok(Advance);
      case Mul(t, y) =>
        var s := Slot(t);
        if s.Err? { return Err(s.error); }
        var v := Value(y, regs);
        if v.Err? { return Err(v.error); }
        registers[s.value] := registers[s.value] * v.value;
        r := Ok(Advance);
      case Mod(t, y) =>
        var s := Slot(t);
        if s.Err? { return Err(s.error); }
        var v := Value(y, regs);
        if v.Err? { return Err(v.error); }
        if v.value == 0 { return Err(DivisionByZero); }
        registers[s.value] := FloorMod(registers[s.value], v.value);
        r := Ok(Advance);
      case Rcv1(x) =>
        var v := Value(x, regs);
        if v.Err? { return Err(v.error); }
        r := Ok(CommandResult(1, None, if v.value != 0 then Some(v.value) else None));
      case Rcv2(t) =>
        if queueIn.items == [] { return Ok(CommandResult(0, None, None)); }
        var received := queueIn.Get();
        var s := Slot(t);
        if s.Err? { return Err(s.error); }
        registers[s.value] := received;
        r := Ok(Advance);
      case Jgz(x, y) =>
        var c := Value(x, regs);
        if c.Err? { return Err(c.error); }
        if c.value <= 0 { return Ok(Advance); }
        var v := Value(y, regs);
        if v.Err? { return Err(v.error); }
        r := Ok(CommandResult(v.value, None, None));
    }
  }

  /** One copy of the program in the duet: its position, send counter,
      registers and outgoing mailbox. */
  class Program {
    const commands: seq<Instruction>
    const queueOut: Mailbox
    const registers: array<int>
    var pos: int
    var sndCount: nat

    ghost predicate Valid()
      reads this
    {
      registers.Length == 26
    }

    /** The program's state as values. */
    function Snapshot(): (r: Process)
      reads this, registers, queueOut
      ensures |r.registers| == registers.Length
    {
      Process(pos, sndCount, registers[..], queueOut.items)
    }

    constructor(commands: seq<Instruction>, number: int)
      ensures Valid() && this.commands == commands
      ensures fresh(queueOut) && fresh(registers)
      ensures Snapshot() == Initial(number)
    {
      this.commands := commands;
      queueOut := new Mailbox();
      var regs := new int[26](_ => 0);
      regs[15] := number;
      registers := regs;
      pos := 0;
      sndCount := 0;
      new;
      assert registers[..] == Initial(number).registers;
    }

    /** `Program.execute`: run the instruction at pos against `queueIn`;
        report whether progress was made. */
    method Execute(queueIn: Mailbox) returns (r: Result<bool, ExecError>)
      requires Valid() && queueIn != queueOut
      modifies this, registers, queueIn, queueOut
      ensures Valid()
      ensures var s := ProgramStep(commands, old(Snapshot()), old(queueIn.items));
        if r.Ok? then s == Ok(Stepped(r.value, Snapshot(), queueIn.items)) else s == Err(r.error)
    {
      if pos < 0 || pos >= |commands| {
        return Ok(false);
      }
      var res := RunCommand(commands[pos], registers, queueIn, queueOut);
      if res.Err? {
        return Err(res.error);
      }
      if res.value.shift == 0 {
        ShiftZeroChangesNothing(commands[pos], old(registers[..]), old(queueIn.items), old(queueOut.items));
        return Ok(false);
      }
      pos := pos + res.value.shift;
      if res.value.snd.Some? {
        sndCount := sndCount + 1;
      }
      r := Ok(true);
    }
  }

  /** One turn of the duet loop: program 0 executes against program 1's
      mailbox, then program 1 against program 0's. */
  method TakeTurn(program0: Program, program1: Program) returns (r: Result<(bool, bool), ExecError>)
    requires program0.Valid() && program1.Valid() && program0.commands == program1.commands
    requires program0.registers != program1.registers && program0.queueOut != program1.queueOut
    modifies program0, program0.registers, program0.queueOut, program1, program1.registers, program1.queueOut
    ensures program0.Valid() && program1.Valid()
    ensures var t := Round(program0.commands, old(program0.Snapshot()), old(program1.Snapshot()));
      if r.Ok? then t == Ok(Turn(r.value.0, r.value.1, program0.Snapshot(), program1.Snapshot()))
      else t == Err(r.error)
  {
    ghost var before0, before1 := program0.Snapshot(), program1.Snapshot();
    var r0 := program0.Execute(program1.queueOut);
    if r0.Err? {
      return Err(r0.error);
    }
    ghost var mid0, mid1 := program0.Snapshot(), program1.Snapshot();
    assert mid1 == before1.(outbox := program1.queueOut.items);
    var r1 := program1.Execute(program0.queueOut);
    if r1.Err? {
      return Err(r1.error);
    }
    assert program0.Snapshot() == mid0.(outbox := program0.queueOut.items);
    r := Ok((r0.value, r1.value));
  }

  /** The duet loop over two programs already built: turns until neither
      makes progress, at most `fuel` of them. */
  method RunDuet(program0: Program, program1: Program, fuel: nat) returns (r: Run<nat>)
    requires program0.Valid() && program1.Valid() && program0.commands == program1.commands
    requires program0.registers != program1.registers && program0.queueOut != program1.queueOut
    modifies program0, program0.registers, program0.queueOut, program1, program1.registers, program1.queueOut
    ensures r == Program1Sends(Schedule(program0.commands, old(program0.Snapshot()), old(program1.Snapshot()), fuel))
  {
    ghost var commands := program0.commands;
    ghost var total := Schedule(commands, program0.Snapshot(), program1.Snapshot(), fuel);
    var executed0, executed1 := true, true;
    var rounds := 0;
    while executed0 || executed1
      invariant program0.Valid() && program1.Valid()
      invariant rounds <= fuel
      invariant executed0 || executed1 ==>
        total == Schedule(commands, program0.Snapshot(), program1.Snapshot(), fuel - rounds)
      invariant !executed0 && !executed1 ==> total == Halted((program0.Snapshot(), program1.Snapshot()))
      decreases fuel - rounds
    {
      if rounds == fuel {
        return OutOfFuel;
      }
      ghost var before0, before1 := program0.Snapshot(), program1.Snapshot();
      var t := TakeTurn(program0, program1);
      ScheduleStep(commands, before0, before1, fuel - rounds);
      if t.Err? {
        return Crashed(t.error);
      }
      executed0, executed1 := t.value.0, t.value.1;
      rounds := rounds + 1;
    }
    r := Halted(program1.sndCount);
  }

  /** Part 2: run two copies numbered 0 and 1, program 0 first in each turn,
      until a turn in which neither makes progress; answer how many values
      program 1 sent. At most `fuel` turns are run. */
  method CountSends(commands: seq<Instruction>, fuel: nat) returns (r: Run<nat>)
    ensures r == Program1Sends(Schedule(commands, Initial(0), Initial(1), fuel))
  {
    var program0 := new Program(commands, 0);
    var program1 := new Program(commands, 1);
    r := RunDuet(program0, program1, fuel);
  }

  /** One pass of the part 1 loop body: run the instruction at `pos` with
      throw-away mailboxes and update the position and the last sound. The
      run either ends here (`stop`) or goes on from the new state. */
  method SoundStep(commands: seq<Instruction>, registers: array<int>, pos: int, lastSound: int, ghost fuel: nat)
    returns (stop: Option<Run<int>>, pos': int, lastSound': int)
    requires registers.Length == 26 && fuel > 0
    modifies registers
    ensures stop.Some? ==> stop.value == Recover(commands, pos, lastSound, old(registers[..]), fuel)
    ensures stop.None? ==> Recover(commands, pos', lastSound', registers[..], fuel - 1) == Recover(commands, pos, lastSound, old(registers[..]), fuel)
  {
    pos', lastSound' := pos, lastSound;
    var index := PyIndex(|commands|, pos);
    if index.None? {
      return Some(Crashed(PositionOutOfRange(pos))), pos', lastSound';
    }
    var queueIn := new Mailbox();
    var queueOut := new Mailbox();
    var res := RunCommand(commands[index.value], registers, queueIn, queueOut);
    if res.Err? {
      return Some(Crashed(res.error)), pos', lastSound';
    }
    pos' := pos + res.value.shift;
    if res.value.snd.Some? {
      lastSound' := res.value.snd.value;
    }
    if res.value.rcv.Some? {
      return Some(Halted(lastSound')), pos', lastSound';
    }
    stop := None;
  }

  /** Part 1: run the sound variant from position 0 with all registers 0 and
      no sound played yet, for at most `fuel` steps. */
  method RecoverFrequency(commands: seq<Instruction>, fuel: nat) returns (r: Run<int>)
    ensures r == Recover(commands, 0, 0, Zeros(), fuel)
  {
    var pos := 0;
    var lastSound := 0;
    var registers := new int[26](_ => 0);
    assert registers[..] == Zeros();
    var steps := 0;
    while true
      invariant registers.Length == 26 && steps <= fuel
      invariant Recover(commands, pos, lastSound, registers[..], fuel - steps) == Recover(commands, 0, 0, Zeros(), fuel)
      decreases fuel - steps
    {
      if steps == fuel {
        return OutOfFuel;
      }
      var stop;
      stop, pos, lastSound := SoundStep(commands, registers, pos, lastSound, fuel - steps);
      if stop.Some? {
        return stop.value;
      }
      steps := steps + 1;
    }
  }
}
