module FractalExample {
  import opened Common
  import opened Fractal

  /** A picture is its own one block. */
  lemma {:induction false} BlockWhole(p: Grid, n: nat)
    requires Square(p, n) && 0 < n
    ensures BlockFits(n, n, 0, 0) && Block(p, n, n, 0, 0) == p
  {
    assert Mul(1, n) == n;
    forall r: nat, c: nat | r < n && c < n
      ensures Cell(Block(p, n, n, 0, 0), n, r, c) == Cell(p, n, r, c)
    {
      BlockCellAt(p, n, n, 0, 0, r, c);
    }
    SameCells(Block(p, n, n, 0, 0), p, n);
  }

  /** A block that is an orientation of a rule's input matches that rule. */
  lemma {:induction false} MatchedBy(p: Grid, n: nat, d: nat, R: nat, C: nat, inPattern: Grid, outPattern: Grid, s: Sym)
    requires Square(p, n) && BlockFits(n, d, R, C) && Square(inPattern, d)
    requires Block(p, n, d, R, C) == Apply(s, inPattern, d)
    ensures Match(RuleFor(inPattern, d, outPattern), Block(p, n, d, R, C))
  {
    MatchOrientations(inPattern, d, outPattern, Block(p, n, d, R, C));
  }

  /** When there is one rule for the block size `d` and each of the `m` by `m` blocks
      matches it, enhancing succeeds and every block of the result is that rule's
      output. */
  lemma {:induction false} UniformEnhancement(q: Grid, n: nat, d: nat, m: nat, rules: map<nat, seq<Rule>>, rule: Rule,
                                              big: nat, s: nat)
    requires Square(q, n) && RulesFit(rules) && DivisorOf(n) == Some(d) && m == n / d && 0 < m
    requires big == n + m && s == d + 1
    requires d in rules && rules[d] == [rule]
    requires forall R: nat, C: nat | R < m && C < m :: BlockFits(n, d, R, C) && Match(rule, Block(q, n, d, R, C))
    ensures Enhanced(q, n, rules).Ok?
    ensures forall R: nat, C: nat | R < m && C < m ::
      BlockFits(big, s, R, C) && Block(Enhanced(q, n, rules).value, big, s, R, C) == rule.outPattern
  {
    Grown(n, d);
    assert [rule][1..] == [];
    forall R: nat, C: nat | R < m && C < m
      ensures UniqueAt(q, n, d, m, rules[d], R, C)
    {
      assert Matching(rules[d], Block(q, n, d, R, C)) == [rule];
    }
    EnhancedErrors(q, n, rules);
    forall R: nat, C: nat | R < m && C < m
      ensures BlockFits(big, s, R, C) && Block(Enhanced(q, n, rules).value, big, s, R, C) == rule.outPattern
    {
      UniformBlock(q, n, d, m, rules, rule, big, s, R, C);
    }
  }

  lemma {:induction false} UniformBlock(q: Grid, n: nat, d: nat, m: nat, rules: map<nat, seq<Rule>>, rule: Rule,
                                        big: nat, s: nat, R: nat, C: nat)
    requires Square(q, n) && RulesFit(rules) && DivisorOf(n) == Some(d) && m == n / d
    requires big == n + m && s == d + 1
    requires d in rules && rules[d] == [rule] && Enhanced(q, n, rules).Ok?
    requires R < m && C < m && BlockFits(n, d, R, C) && Match(rule, Block(q, n, d, R, C))
    ensures BlockFits(big, s, R, C) && Block(Enhanced(q, n, rules).value, big, s, R, C) == rule.outPattern
  {
    EnhancedBlocks(q, n, rules, R, C);
    assert [rule][1..] == [];
    assert Matching(rules[d], Block(q, n, d, R, C)) == [rule];
  }

  /** Pixels put one after the other: the on pixels of both. */
  lemma {:induction false} CountPrefixAgree(p: Grid, q: Grid, i: nat)
    requires i <= |p| && i <= |q| && p[..i] == q[..i]
    ensures CountPrefix(p, i) == CountPrefix(q, i)
  {
    if i > 0 {
      assert p[..i - 1] == p[..i][..i - 1] && q[..i - 1] == q[..i][..i - 1];
      assert p[i - 1] == p[..i][i - 1] && q[i - 1] == q[..i][i - 1];
      CountPrefixAgree(p, q, i - 1);
    }
  }

  lemma {:induction false} CountConcatPrefix(a: Grid, b: Grid, i: nat)
    requires i <= |b|
    ensures CountPrefix(a + b, |a| + i) == CountOn(a) + CountPrefix(b, i)
  {
    if i == 0 {
      assert (a + b)[..|a|] == a[..|a|];
      CountPrefixAgree(a + b, a, |a|);
    } else {
      CountConcatPrefix(a, b, i - 1);
      assert (a + b)[|a| + i - 1] == b[i - 1];
    }
  }

  lemma {:induction false} CountConcat(a: Grid, b: Grid)
    ensures CountOn(a + b) == CountOn(a) + CountOn(b)
  {
    CountConcatPrefix(a, b, |b|);
  }

  /** Counting a slice in two pieces. */
  lemma {:induction false} CountPieces(p: Grid, a: nat, b: nat, c: nat)
    requires a <= b <= c <= |p|
    ensures CountOn(p[a..c]) == CountOn(p[a..b]) + CountOn(p[b..c])
  {
    assert p[a..c] == p[a..b] + p[b..c];
    CountConcat(p[a..b], p[b..c]);
  }

  /** Row `i` of block (R, C) of a 6 by 6 picture, as a slice of the picture. */
  lemma {:induction false} RowOfBlock(e: Grid, b: Grid, R: nat, C: nat, i: nat, start: nat)
    requires Square(e, 6) && R < 2 && C < 2 && i < 3 && BlockFits(6, 3, R, C) && Block(e, 6, 3, R, C) == b
    requires start == 18 * R + 6 * i + 3 * C
    ensures start + 3 <= 36 && e[start..start + 3] == b[3 * i..3 * i + 3]
  {
    RowStart(6, 3, R, C, i);
    MulIsTimes(i, 3);
    MulIsTimes(i + 1, 3);
    BlockRow(e, 6, 3, R, C, i, start);
  }

  /** Row `6 * R + i` of a 6 by 6 picture whose two blocks in band `R` are both `b`:
      row `i` of `b` twice. */
  lemma {:induction false} RowTwice(e: Grid, b: Grid, R: nat, i: nat, start: nat)
    requires Square(e, 6) && R < 2 && i < 3 && start == 18 * R + 6 * i
    requires BlockFits(6, 3, R, 1) && Block(e, 6, 3, R, 0) == b && Block(e, 6, 3, R, 1) == b
    ensures start + 6 <= 36 && CountOn(e[start..start + 6]) == 2 * CountOn(b[3 * i..3 * i + 3])
  {
    RowOfBlock(e, b, R, 0, i, start);
    RowOfBlock(e, b, R, 1, i, start + 3);
    CountPieces(e, start, start + 3, start + 6);
  }

  /** The top or bottom half of a 6 by 6 picture whose two blocks there are both `b`
      holds twice the on pixels of `b`. */
  lemma {:induction false} HalfCount(e: Grid, b: Grid, R: nat, top: nat)
    requires Square(e, 6) && Square(b, 3) && R < 2 && top == 18 * R
    requires BlockFits(6, 3, R, 1) && Block(e, 6, 3, R, 0) == b && Block(e, 6, 3, R, 1) == b
    ensures top + 18 <= 36
    ensures CountOn(e[top..top + 18]) == 2 * (CountOn(b[0..3]) + CountOn(b[3..6]) + CountOn(b[6..9]))
  {
    RowTwice(e, b, R, 0, top);
    RowTwice(e, b, R, 1, top + 6);
    RowTwice(e, b, R, 2, top + 12);
    CountPieces(e, top, top + 6, top + 12);
    CountPieces(e, top, top + 12, top + 18);
  }

  /** A 6 by 6 picture whose four 3 by 3 blocks are all `b` holds four times the on
      pixels of `b`. */
  lemma {:induction false} FourBlocksCount(e: Grid, b: Grid)
    requires Square(e, 6) && Square(b, 3)
    requires forall R: nat, C: nat | R < 2 && C < 2 :: BlockFits(6, 3, R, C) && Block(e, 6, 3, R, C) == b
    ensures CountOn(e) == 4 * (CountOn(b[0..3]) + CountOn(b[3..6]) + CountOn(b[6..9]))
  {
    HalfCount(e, b, 0, 0);
    HalfCount(e, b, 1, 18);
    CountPieces(e, 0, 18, 36);
    assert e[0..36] == e;
  }

  /** The rows of `##./#../...` hold 2, 1 and 0 on pixels. */
  lemma {:induction false} OutputRows(b: Grid)
    requires b == [true, true, false, true, false, false, false, false, false]
    ensures Square(b, 3) && CountOn(b[0..3]) + CountOn(b[3..6]) + CountOn(b[6..9]) == 3
  {
    assert b[0..3] == [true, true, false] && CountOn([true, true, false]) == 2;
    assert b[3..6] == [true, false, false] && CountOn([true, false, false]) == 1;
    assert b[6..9] == [false, false, false] && CountOn([false, false, false]) == 0;
  }

  /** Two 2 by 2 pictures with the same four pixels are equal. */
  lemma {:induction false} SameFour(a: Grid, b: Grid)
    requires Square(a, 2) && Square(b, 2)
    requires Cell(a, 2, 0, 0) == Cell(b, 2, 0, 0) && Cell(a, 2, 0, 1) == Cell(b, 2, 0, 1)
    requires Cell(a, 2, 1, 0) == Cell(b, 2, 1, 0) && Cell(a, 2, 1, 1) == Cell(b, 2, 1, 1)
    ensures a == b
  {
    SameCells(a, b, 2);
  }

  /** Block (0, 0) of `#..#/..../..../#..#`. */
  lemma {:induction false} TopLeftBlock(q: Grid)
    requires q == [true, false, false, true, false, false, false, false, false, false, false, false, true, false, false, true]
    ensures BlockFits(4, 2, 0, 0) && Block(q, 4, 2, 0, 0) == [true, false, false, false]
  {
    BlockFitsIn(4, 2, 2, 0, 0);
    BlockCellAt(q, 4, 2, 0, 0, 0, 0);
    BlockCellAt(q, 4, 2, 0, 0, 0, 1);
    BlockCellAt(q, 4, 2, 0, 0, 1, 0);
    BlockCellAt(q, 4, 2, 0, 0, 1, 1);
    SameFour(Block(q, 4, 2, 0, 0), [true, false, false, false]);
  }

  /** Block (0, 1) of `#..#/..../..../#..#`. */
  lemma {:induction false} TopRightBlock(q: Grid)
    requires q == [true, false, false, true, false, false, false, false, false, false, false, false, true, false, false, true]
    ensures BlockFits(4, 2, 0, 1) && Block(q, 4, 2, 0, 1) == [false, true, false, false]
  {
    BlockFitsIn(4, 2, 2, 0, 1);
    BlockCellAt(q, 4, 2, 0, 1, 0, 0);
    BlockCellAt(q, 4, 2, 0, 1, 0, 1);
    BlockCellAt(q, 4, 2, 0, 1, 1, 0);
    BlockCellAt(q, 4, 2, 0, 1, 1, 1);
    SameFour(Block(q, 4, 2, 0, 1), [false, true, false, false]);
  }

  /** Block (1, 0) of `#..#/..../..../#..#`. */
  lemma {:induction false} BottomLeftBlock(q: Grid)
    requires q == [true, false, false, true, false, false, false, false, false, false, false, false, true, false, false, true]
    ensures BlockFits(4, 2, 1, 0) && Block(q, 4, 2, 1, 0) == [false, false, true, false]
  {
    BlockFitsIn(4, 2, 2, 1, 0);
    BlockCellAt(q, 4, 2, 1, 0, 0, 0);
    BlockCellAt(q, 4, 2, 1, 0, 0, 1);
    BlockCellAt(q, 4, 2, 1, 0, 1, 0);
    BlockCellAt(q, 4, 2, 1, 0, 1, 1);
    SameFour(Block(q, 4, 2, 1, 0), [false, false, true, false]);
  }

  /** Block (1, 1) of `#..#/..../..../#..#`. */
  lemma {:induction false} BottomRightBlock(q: Grid)
    requires q == [true, false, false, true, false, false, false, false, false, false, false, false, true, false, false, true]
    ensures BlockFits(4, 2, 1, 1) && Block(q, 4, 2, 1, 1) == [false, false, false, true]
  {
    BlockFitsIn(4, 2, 2, 1, 1);
    BlockCellAt(q, 4, 2, 1, 1, 0, 0);
    BlockCellAt(q, 4, 2, 1, 1, 0, 1);
    BlockCellAt(q, 4, 2, 1, 1, 1, 0);
    BlockCellAt(q, 4, 2, 1, 1, 1, 1);
    SameFour(Block(q, 4, 2, 1, 1), [false, false, false, true]);
  }

  /** `../.#` turned half way round, mirrored top to bottom, mirrored left to right and
      as it is. */
  lemma {:induction false} CornerTurns(inPattern: Grid)
    requires inPattern == [false, false, false, true]
    ensures Square(inPattern, 2)
    ensures Apply(Sym(false, true, true), inPattern, 2) == [true, false, false, false]
    ensures Apply(MirrorRows, inPattern, 2) == [false, true, false, false]
    ensures Apply(MirrorColumns, inPattern, 2) == [false, false, true, false]
    ensures Apply(Identity, inPattern, 2) == [false, false, false, true]
  {
    ApplyCell(Sym(false, true, true), inPattern, 2, 0, 0);
    ApplyCell(Sym(false, true, true), inPattern, 2, 0, 1);
    ApplyCell(Sym(false, true, true), inPattern, 2, 1, 0);
    ApplyCell(Sym(false, true, true), inPattern, 2, 1, 1);
    SameFour(Apply(Sym(false, true, true), inPattern, 2), [true, false, false, false]);
    ApplyCell(MirrorRows, inPattern, 2, 0, 0);
    ApplyCell(MirrorRows, inPattern, 2, 0, 1);
    ApplyCell(MirrorRows, inPattern, 2, 1, 0);
    ApplyCell(MirrorRows, inPattern, 2, 1, 1);
    SameFour(Apply(MirrorRows, inPattern, 2), [false, true, false, false]);
    ApplyCell(MirrorColumns, inPattern, 2, 0, 0);
    ApplyCell(MirrorColumns, inPattern, 2, 0, 1);
    ApplyCell(MirrorColumns, inPattern, 2, 1, 0);
    ApplyCell(MirrorColumns, inPattern, 2, 1, 1);
    SameFour(Apply(MirrorColumns, inPattern, 2), [false, false, true, false]);
    ApplyCell(Identity, inPattern, 2, 0, 0);
    ApplyCell(Identity, inPattern, 2, 0, 1);
    ApplyCell(Identity, inPattern, 2, 1, 0);
    ApplyCell(Identity, inPattern, 2, 1, 1);
    SameFour(Apply(Identity, inPattern, 2), [false, false, false, true]);
  }

  /** The first enhancement: the start picture is the input of the 3 by 3 rule, shown
      as it is, so the picture becomes that rule's output. */
  lemma {:induction false} FirstEnhancement(p: Grid, inPattern: Grid, outPattern: Grid, rules: map<nat, seq<Rule>>)
    requires Square(p, 3) && p == inPattern && Square(outPattern, 4)
    requires RulesFit(rules) && 3 in rules && rules[3] == [RuleFor(inPattern, 3, outPattern)]
    ensures Enlarged(p, 3, rules) == Ok((outPattern, 4))
  {
    BlockWhole(p, 3);
    ApplyIdentity(inPattern, 3);
    MatchedBy(p, 3, 3, 0, 0, inPattern, outPattern, Identity);
    UniformEnhancement(p, 3, 3, 1, rules, RuleFor(inPattern, 3, outPattern), 4, 4);
    BlockWhole(Enhanced(p, 3, rules).value, 4);
  }

  /** The second enhancement: when each 2 by 2 block of a 4 by 4 picture is a rotation
      or flip of the input of the one 2 by 2 rule, the result is 6 by 6 and holds that
      rule's output four times. */
  lemma {:induction false} SecondEnhancement(q: Grid, inPattern: Grid, outPattern: Grid, rules: map<nat, seq<Rule>>)
    requires Square(q, 4) && Square(inPattern, 2) && Square(outPattern, 3) && BlockFits(4, 2, 1, 1)
    requires Block(q, 4, 2, 0, 0) == Apply(Sym(false, true, true), inPattern, 2)
    requires Block(q, 4, 2, 0, 1) == Apply(MirrorRows, inPattern, 2)
    requires Block(q, 4, 2, 1, 0) == Apply(MirrorColumns, inPattern, 2)
    requires Block(q, 4, 2, 1, 1) == Apply(Identity, inPattern, 2)
    requires RulesFit(rules) && 2 in rules && rules[2] == [RuleFor(inPattern, 2, outPattern)]
    ensures Enlarged(q, 4, rules).Ok? && Enlarged(q, 4, rules).value.1 == 6
    ensures CountOn(Enlarged(q, 4, rules).value.0) ==
            4 * (CountOn(outPattern[0..3]) + CountOn(outPattern[3..6]) + CountOn(outPattern[6..9]))
  {
    var rule := RuleFor(inPattern, 2, outPattern);
    MatchedBy(q, 4, 2, 0, 0, inPattern, outPattern, Sym(false, true, true));
    MatchedBy(q, 4, 2, 0, 1, inPattern, outPattern, MirrorRows);
    MatchedBy(q, 4, 2, 1, 0, inPattern, outPattern, MirrorColumns);
    MatchedBy(q, 4, 2, 1, 1, inPattern, outPattern, Identity);
    UniformEnhancement(q, 4, 2, 2, rules, rule, 6, 3);
    FourBlocksCount(Enhanced(q, 4, rules).value, outPattern);
  }

  /** Two enhancements, one after the other. */
  lemma {:induction false} TwoSteps(p: Grid, n: nat, rules: map<nat, seq<Rule>>, q: Grid, m: nat, e: Grid, k: nat)
    requires Square(p, n) && RulesFit(rules)
    requires Enlarged(p, n, rules) == Ok((q, m)) && Enlarged(q, m, rules) == Ok((e, k))
    ensures Iterated(p, n, rules, 2) == Ok((e, k))
  {
    IteratedNext(p, n, rules, 2, Iterated(p, n, rules, 2), q, m);
    IteratedNext(q, m, rules, 1, Iterated(q, m, rules, 1), e, k);
  }

  /** The two rules of the example, `../.# => ##./#../...` and
      `.#./..#/### => #..#/..../..../#..#`, fit the sizes they are stored under. */
  lemma {:induction false} ExampleRulesFit(inSmall: Grid, outSmall: Grid, inLarge: Grid, outLarge: Grid,
                                          rules: map<nat, seq<Rule>>)
    requires inSmall == [false, false, false, true]
    requires outSmall == [true, true, false, true, false, false, false, false, false]
    requires inLarge == [false, true, false, false, false, true, true, true, true]
    requires outLarge == [true, false, false, true, false, false, false, false, false, false, false, false, true, false, false, true]
    requires rules == map[2 := [RuleFor(inSmall, 2, outSmall)], 3 := [RuleFor(inLarge, 3, outLarge)]]
    ensures RulesFit(rules)
  {
    assert Square(outSmall, 3) && Square(outLarge, 4);
    assert rules.Keys == {2, 3};
    forall d | d in rules
      ensures OutputsFit(rules[d], d + 1)
    {
      assert rules[d] == [rules[d][0]];
    }
  }

  /** The first enhancement of the example turns the start picture into
      `#..#/..../..../#..#`. */
  lemma {:induction false} ExampleFirst(inSmall: Grid, outSmall: Grid, inLarge: Grid, outLarge: Grid,
                                          rules: map<nat, seq<Rule>>)
    requires inSmall == [false, false, false, true]
    requires outSmall == [true, true, false, true, false, false, false, false, false]
    requires inLarge == [false, true, false, false, false, true, true, true, true]
    requires outLarge == [true, false, false, true, false, false, false, false, false, false, false, false, true, false, false, true]
    requires rules == map[2 := [RuleFor(inSmall, 2, outSmall)], 3 := [RuleFor(inLarge, 3, outLarge)]]
    ensures RulesFit(rules)
    ensures Enlarged(Start(), 3, rules) == Ok((outLarge, 4))
  {
    ExampleRulesFit(inSmall, outSmall, inLarge, outLarge, rules);
    StartPixels();
    FirstEnhancement(Start(), inLarge, outLarge, rules);
  }

  /** The second turns that into a 6 by 6 picture with 12 pixels on. */
  lemma {:induction false} ExampleSecond(inSmall: Grid, outSmall: Grid, inLarge: Grid, outLarge: Grid,
                                          rules: map<nat, seq<Rule>>)
    requires inSmall == [false, false, false, true]
    requires outSmall == [true, true, false, true, false, false, false, false, false]
    requires inLarge == [false, true, false, false, false, true, true, true, true]
    requires outLarge == [true, false, false, true, false, false, false, false, false, false, false, false, true, false, false, true]
    requires rules == map[2 := [RuleFor(inSmall, 2, outSmall)], 3 := [RuleFor(inLarge, 3, outLarge)]]
    ensures RulesFit(rules)
    ensures Enlarged(outLarge, 4, rules).Ok? && Enlarged(outLarge, 4, rules).value.1 == 6
    ensures CountOn(Enlarged(outLarge, 4, rules).value.0) == 12
  {
    ExampleRulesFit(inSmall, outSmall, inLarge, outLarge, rules);
    TopLeftBlock(outLarge);
    TopRightBlock(outLarge);
    BottomLeftBlock(outLarge);
    BottomRightBlock(outLarge);
    CornerTurns(inSmall);
    OutputRows(outSmall);
    SecondEnhancement(outLarge, inSmall, outSmall, rules);
  }

  /** With the rules `../.# => ##./#../...` and `.#./..#/### => #..#/..../..../#..#`,
      two enhancements of the start picture give a 6 by 6 picture with 12 pixels on. */
  lemma {:induction false} TwoEnhancements(inSmall: Grid, outSmall: Grid, inLarge: Grid, outLarge: Grid,
                                          rules: map<nat, seq<Rule>>)
    requires inSmall == [false, false, false, true]
    requires outSmall == [true, true, false, true, false, false, false, false, false]
    requires inLarge == [false, true, false, false, false, true, true, true, true]
    requires outLarge == [true, false, false, true, false, false, false, false, false, false, false, false, true, false, false, true]
    requires rules == map[2 := [RuleFor(inSmall, 2, outSmall)], 3 := [RuleFor(inLarge, 3, outLarge)]]
    ensures RulesFit(rules)
    ensures Iterated(Start(), 3, rules, 2).Ok? && Iterated(Start(), 3, rules, 2).value.1 == 6
    ensures CountOn(Iterated(Start(), 3, rules, 2).value.0) == 12
  {
    ExampleFirst(inSmall, outSmall, inLarge, outLarge, rules);
    ExampleSecond(inSmall, outSmall, inLarge, outLarge, rules);
    StartPixels();
    TwoSteps(Start(), 3, rules, outLarge, 4, Enlarged(outLarge, 4, rules).value.0, 6);
  }

  /** A line of two parts in printed form reads as the rule for the pixels they spell. */
  lemma {:induction false} RuleLine(line: string, a: string, b: string, inPattern: Grid, n: nat, outPattern: Grid)
    requires line == a + " => " + b && Plain(a) && Plain(b)
    requires ParsePattern(a) == inPattern && Square(inPattern, n) && ParsePattern(b) == outPattern
    ensures ParsedRule(line) == Ok(RuleFor(inPattern, n, outPattern))
  {
    ParsedPlain(a, b);
    StripTrailing(a);
    StripLeading(b);
    IsqrtSquare(n);
  }

  lemma {:induction false} TwoRows(a: string, b: string)
    requires RowOf(a, 2) && RowOf(b, 2)
    ensures ParsePattern(a + "/" + b) == [a[0] == '#', a[1] == '#', b[0] == '#', b[1] == '#']
  {
    ParseSeparated(a, "/", b);
    ParseRowOf(a, 2);
    ParseRowOf(b, 2);
  }

  lemma {:induction false} ThreeRows(a: string, b: string, c: string)
    requires RowOf(a, 3) && RowOf(b, 3) && RowOf(c, 3)
    ensures ParsePattern(a + "/" + b + "/" + c) == ParsePattern(a) + ParsePattern(b) + ParsePattern(c)
  {
    assert a + "/" + b + "/" + c == a + "/" + (b + "/" + c);
    ParseSeparated(a, "/", b + "/" + c);
    ParseSeparated(b, "/", c);
  }

  lemma {:induction false} FourRows(a: string, b: string, c: string, d: string)
    ensures ParsePattern(a + "/" + b + "/" + c + "/" + d) ==
      ParsePattern(a) + ParsePattern(b) + ParsePattern(c) + ParsePattern(d)
  {
    assert a + "/" + b + "/" + c + "/" + d == a + "/" + (b + "/" + (c + "/" + d));
    ParseSeparated(a, "/", b + "/" + (c + "/" + d));
    ParseSeparated(b, "/", c + "/" + d);
    ParseSeparated(c, "/", d);
  }

  lemma {:induction false} SmallInText(a: string)
    requires a == "../.#"
    ensures Plain(a) && ParsePattern(a) == [false, false, false, true]
  {
    assert a == ".." + "/" + ".#";
    TwoRows("..", ".#");
  }

  lemma {:induction false} SmallOutText(b: string)
    requires b == "##./#../..."
    ensures Plain(b) && ParsePattern(b) == [true, true, false, true, false, false, false, false, false]
  {
    assert b == "##." + "/" + "#.." + "/" + "...";
    ThreeRows("##.", "#..", "...");
    RowPixels("##.");
    RowPixels("#..");
    RowPixels("...");
  }

  lemma {:induction false} LargeOutText(b: string)
    requires b == "#..#/..../..../#..#"
    ensures ParsePattern(b) == [true, false, false, true, false, false, false, false,
                                false, false, false, false, true, false, false, true]
  {
    assert b == "#..#" + "/" + "...." + "/" + "...." + "/" + "#..#";
    FourRows("#..#", "....", "....", "#..#");
    RowOfFour("#..#");
    RowOfFour("....");
  }

  /** The texts of the example rule with the larger input have no white space. */
  lemma {:induction false} LargePlain(b: string)
    requires b == "#..#/..../..../#..#"
    ensures Plain(StartText) && Plain(b)
  {
  }

  lemma {:induction false} RowOfFour(row: string)
    requires RowOf(row, 4)
    ensures ParsePattern(row) == [row[0] == '#', row[1] == '#', row[2] == '#', row[3] == '#']
  {
    ParseRowOf(row, 4);
  }

  /** `../.# => ##./#../...` */
  lemma {:induction false} SmallRuleLine(line: string, inSmall: Grid, outSmall: Grid)
    requires line == "../.# => ##./#../..."
    requires inSmall == [false, false, false, true]
    requires outSmall == [true, true, false, true, false, false, false, false, false]
    ensures Square(inSmall, 2) && ParsedRule(line) == Ok(RuleFor(inSmall, 2, outSmall))
  {
    var a, b := "../.#", "##./#../...";
    assert line == a + " => " + b;
    SmallInText(a);
    SmallOutText(b);
    assert Mul(2, 2) == 4;
    RuleLine(line, a, b, inSmall, 2, outSmall);
  }

  /** `.#./..#/### => #..#/..../..../#..#` */
  lemma {:induction false} LargeRuleLine(line: string, inLarge: Grid, outLarge: Grid)
    requires line == ".#./..#/### => #..#/..../..../#..#"
    requires inLarge == [false, true, false, false, false, true, true, true, true]
    requires outLarge == [true, false, false, true, false, false, false, false,
                          false, false, false, false, true, false, false, true]
    ensures ParsedRule(line) == Ok(RuleFor(inLarge, 3, outLarge))
  {
    var a, b := StartText, "#..#/..../..../#..#";
    assert line == a + " => " + b;
    StartPixels();
    LargePlain(b);
    LargeOutText(b);
    RuleLine(line, a, b, inLarge, 3, outLarge);
  }

  /** The example as the puzzle states it: the two rule lines read, then two enhancements
      of the start picture leave 12 pixels on. */
  lemma {:induction false} ExampleFromText(line1: string, line2: string, small: Rule, large: Rule,
                                           rules: map<nat, seq<Rule>>)
    requires line1 == "../.# => ##./#../..." && line2 == ".#./..#/### => #..#/..../..../#..#"
    requires ParsedRule(line1) == Ok(small) && ParsedRule(line2) == Ok(large)
    requires rules == map[2 := [small], 3 := [large]]
    ensures RulesFit(rules)
    ensures Iterated(Start(), 3, rules, 2).Ok? && Iterated(Start(), 3, rules, 2).value.1 == 6
    ensures CountOn(Iterated(Start(), 3, rules, 2).value.0) == 12
  {
    var inSmall, outSmall := [false, false, false, true], [true, true, false, true, false, false, false, false, false];
    var inLarge := [false, true, false, false, false, true, true, true, true];
    var outLarge := [true, false, false, true, false, false, false, false, false, false, false, false, true, false, false, true];
    SmallRuleLine(line1, inSmall, outSmall);
    LargeRuleLine(line2, inLarge, outLarge);
    TwoEnhancements(inSmall, outSmall, inLarge, outLarge, rules);
  }
}
