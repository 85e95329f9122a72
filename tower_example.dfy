/** The worked example of day 7, read from the text of its thirteen lines. */
module TowerExample {
  import opened Common
  import opened Tower

  // ---------------------------------------------------------------------
  // Lines as the puzzle writes them

  /** A name as the input writes it: no space, comma or line break in it. */
  predicate Bare(s: string) {
    forall k | 0 <= k < |s| :: s[k] != ' ' && s[k] != ',' && s[k] != '\r' && s[k] != '\n'
  }

  /** A text without line breaks. */
  predicate Unbroken(s: string) {
    forall k | 0 <= k < |s| :: s[k] != '\r' && s[k] != '\n'
  }

  /** The names on a disc as a line lists them: each but the last followed by a comma. */
  function Listed(cs: seq<string>): (ws: seq<string>)
    ensures |ws| == |cs|
  {
    seq(|cs|, k requires 0 <= k < |cs| => if k < |cs| - 1 then cs[k] + "," else cs[k])
  }

  /** The words of the line that describes `e`: the name, the weight in parentheses
      and, for a program holding a disc, the arrow and the listed names. */
  function LineWords(e: Entry): (ws: seq<string>)
    ensures |ws| >= 2
  {
    [e.name, "(" + IntToString(e.weight) + ")"] + (if e.children == [] then [] else ["->"] + Listed(e.children))
  }

  /** The line that describes `e`, its words separated by single spaces. */
  function LineText(e: Entry): string {
    Join(LineWords(e), ' ')
  }

  /** A well-written entry: its name and the names on its disc are bare. */
  predicate Written(e: Entry) {
    Bare(e.name) && forall c | c in e.children :: Bare(c)
  }

  // ---------------------------------------------------------------------
  // Reading a line back

  /** A text without the separator is one piece. */
  lemma {:induction false} SplitSingle(a: string, sep: char)
    requires sep !in a
    ensures Split(a, sep) == [a]
  {
    if a != [] {
      SplitSingle(a[..|a| - 1], sep);
      assert a[..|a| - 1] + [a[|a| - 1]] == a;
    }
  }

  /** A separator in the middle splits into the pieces of either side. */
  lemma {:induction false} SplitAfter(a: string, sep: char, b: string)
    ensures Split(a + [sep] + b, sep) == Split(a, sep) + Split(b, sep)
    decreases |b|
  {
    if b == [] {
      assert a + [sep] + b == a + [sep];
      SplitSnoc(a, sep, sep);
      assert Split(b, sep) == [[]];
    } else {
      var b', c := b[..|b| - 1], b[|b| - 1];
      assert a + [sep] + b == (a + [sep] + b') + [c] && b == b' + [c];
      SplitAfter(a, sep, b');
      SplitAfterStep(a, sep, b', c);
    }
  }

  /** One more character after the separator, for the induction of `SplitAfter`. */
  lemma {:induction false} SplitAfterStep(a: string, sep: char, b: string, c: char)
    requires Split(a + [sep] + b, sep) == Split(a, sep) + Split(b, sep)
    ensures Split(a + [sep] + b + [c], sep) == Split(a, sep) + Split(b + [c], sep)
  {
    SplitSnoc(a + [sep] + b, c, sep);
    SplitSnoc(b, c, sep);
    SnocPieces(Split(a, sep), Split(b, sep), c, sep);
  }

  /** The pieces after one more character: a separator starts a new piece,
      anything else extends the last one. */
  function Snoc(parts: seq<string>, c: char, sep: char): seq<string>
    requires |parts| >= 1
  {
    if c == sep then parts + [[]] else parts[..|parts| - 1] + [parts[|parts| - 1] + [c]]
  }

  /** `split` takes one character at a time. */
  lemma {:induction false} SplitSnoc(s: string, c: char, sep: char)
    ensures Split(s + [c], sep) == Snoc(Split(s, sep), c, sep)
  {
    assert (s + [c])[..|s|] == s;
  }

  /** One more character only touches the pieces on the right. */
  lemma {:induction false} SnocPieces(left: seq<string>, right: seq<string>, c: char, sep: char)
    requires |right| >= 1
    ensures Snoc(left + right, c, sep) == left + Snoc(right, c, sep)
  {
    var front := left + right;
    if c == sep {
      assert front + [[]] == left + (right + [[]]);
    } else {
      assert front[..|front| - 1] == left + right[..|right| - 1];
    }
  }


  /** Splitting text joined at a separator that no piece holds gives the pieces back. */
  lemma {:induction false} SplitJoin(parts: seq<string>, sep: char)
    requires |parts| >= 1 && forall k | 0 <= k < |parts| :: sep !in parts[k]
    ensures Split(Join(parts, sep), sep) == parts
  {
    var last := parts[|parts| - 1];
    SplitSingle(last, sep);
    if |parts| > 1 {
      var front := parts[..|parts| - 1];
      SplitJoin(front, sep);
      SplitAfter(Join(front, sep), sep, last);
      assert front + [last] == parts;
    }
  }

  /** Pieces without line breaks, joined at a space, have none. */
  lemma {:induction false} JoinUnbroken(parts: seq<string>)
    requires |parts| >= 1 && forall k | 0 <= k < |parts| :: Unbroken(parts[k])
    ensures Unbroken(Join(parts, ' '))
  {
    if |parts| > 1 {
      var front := parts[..|parts| - 1];
      JoinUnbroken(front);
      var a, b := Join(front, ' ') + [' '], parts[|parts| - 1];
      assert Unbroken(a) && Unbroken(b);
      assert Join(parts, ' ') == a + b;
    }
  }

  /** Stripping characters that do not occur changes nothing. */
  lemma {:induction false} StripAbsent(s: string, chars: set<char>)
    requires forall k | 0 <= k < |s| :: s[k] !in chars
    ensures StripChars(s, chars) == s
  {
    assert StripRight(s, chars) == s;
  }

  /** `strip(',')` of a listed name is the name. */
  lemma {:induction false} StripComma(c: string)
    requires Bare(c)
    ensures StripChars(c + ",", {','}) == c && StripChars(c, {','}) == c
  {
    assert (c + ",")[..|c|] == c;
    StripAbsent(c, {','});
  }

  /** The decimal text of an integer is a sign and digits. */
  lemma {:induction false} IntToStringBare(i: int)
    ensures Bare(IntToString(i))
  {
    var d := NatToString(if i < 0 then -i else i);
    assert forall k | 0 <= k < |d| :: IsDigit(d[k]);
  }

  /** The words of a line are its words as written. */
  lemma {:induction false} WordsOfLine(e: Entry)
    requires Written(e)
    ensures Words(LineText(e)) == LineWords(e)
  {
    var ws := LineWords(e);
    IntToStringBare(e.weight);
    var w := "(" + IntToString(e.weight) + ")";
    assert Bare(w);
    forall k | 0 <= k < |ws|
      ensures ' ' !in ws[k] && Unbroken(ws[k])
    {
      if k == 0 {
        assert Bare(ws[k]);
      } else if k == 1 {
        assert ws[k] == w;
      } else if k >= 3 {
        var c := e.children[k - 3];
        assert c in e.children;
        assert ws[k] == c + "," || ws[k] == c;
      }
    }
    JoinUnbroken(ws);
    StripAbsent(LineText(e), {'\r', '\n'});
    SplitJoin(ws, ' ');
  }

  /** Reading the line that describes a well-written entry gives the entry back. */
  lemma {:induction false} ParseLineText(e: Entry)
    requires Written(e)
    ensures ParseLine(LineText(e)) == Ok(e)
  {
    WordsOfLine(e);
    ParseWords(LineText(e), e);
  }

  /** A line whose words are those of `e` reads as `e`. */
  lemma {:induction false} ParseWords(line: string, e: Entry)
    requires Written(e) && Words(line) == LineWords(e)
    ensures ParseLine(line) == Ok(e)
  {
    var ws := Words(line);
    var d := IntToString(e.weight);
    assert ws[1] == "(" + d + ")";
    assert Inner(ws[1]) == d;
    ParseIntToString(e.weight);
    ChildrenOfWords(ws, e);
  }

  /** The names after the arrow, commas stripped, are the names on the disc. */
  lemma {:induction false} ChildrenOfWords(ws: seq<string>, e: Entry)
    requires Written(e) && ws == LineWords(e)
    ensures Children(ws) == e.children
  {
    var cs := e.children;
    if cs != [] {
      var listed := Listed(cs);
      assert ws == [e.name, ws[1], "->"] + listed;
      forall k | 0 <= k < |cs|
        ensures Children(ws)[k] == cs[k]
      {
        assert ws[k + 3] == listed[k];
        assert cs[k] in cs;
        StripComma(cs[k]);
      }
    }
  }

  // ---------------------------------------------------------------------
  // Reading a whole file

  /** No two lines describe the same program. */
  predicate DistinctNames(es: seq<Entry>) {
    forall i, j | 0 <= i < j < |es| :: es[i].name != es[j].name
  }

  /** Some line describes `x`. */
  predicate Named(es: seq<Entry>, x: string) {
    exists k | 0 <= k < |es| :: es[k].name == x
  }

  /** Some line lists `x` on a disc. */
  predicate OnDisc(es: seq<Entry>, x: string) {
    exists k | 0 <= k < |es| :: x in es[k].children
  }

  /** What reading lines that describe `es` leaves: a program for every name
      described or listed; the described ones with their weight and disc; the
      others, listed only, with weight 0 and an empty disc; and a parent exactly
      for the listed ones. */
  ghost predicate ReadAs(f: Forest, es: seq<Entry>) {
    (forall x :: x in f.nodes <==> Named(es, x) || OnDisc(es, x)) &&
    (forall k | 0 <= k < |es| :: es[k].name in f.nodes && f.nodes[es[k].name] == Node(es[k].weight, es[k].children)) &&
    (forall x | x in f.nodes && !Named(es, x) :: f.nodes[x] == Node(0, [])) &&
    (forall x :: x in f.parent <==> OnDisc(es, x))
  }

  /** Line `k` is the text of entry `k`, and every entry is well written. */
  predicate Describes(lines: seq<string>, es: seq<Entry>) {
    |lines| == |es| && forall k | 0 <= k < |es| :: Written(es[k]) && lines[k] == LineText(es[k])
  }

  /** Reading lines that describe programs of distinct names, each written as
      the input writes it, never fails and gives each program the weight and the
      disc of its line, whatever the order of the lines. */
  lemma {:induction false} ReadEntries(lines: seq<string>, es: seq<Entry>)
    requires |lines| == |es| && DistinctNames(es)
    requires forall k | 0 <= k < |es| :: Written(es[k]) && lines[k] == LineText(es[k])
    ensures ReadAll(lines).Ok? && ReadAs(ReadAll(lines).value, es)
  {
    if lines != [] {
      var n := |lines| - 1;
      var front, e := es[..n], es[n];
      FrontDescribed(lines, es);
      ReadEntries(lines[..n], front);
      var f := ReadAll(lines[..n]).value;
      ReadLast(lines, f, e);
      EnterRead(f, front, e);
    }
  }

  /** The lines before the last describe the entries before the last. */
  lemma {:induction false} FrontDescribed(lines: seq<string>, es: seq<Entry>)
    requires |lines| == |es| > 0 && DistinctNames(es)
    requires forall k | 0 <= k < |es| :: Written(es[k]) && lines[k] == LineText(es[k])
    ensures var n := |es| - 1; var front := es[..n];
      && DistinctNames(front) && !Named(front, es[n].name) && front + [es[n]] == es
      && (forall k | 0 <= k < n :: Written(front[k]) && lines[..n][k] == LineText(front[k]))
      && Written(es[n]) && lines[n] == LineText(es[n])
  {
    var n := |es| - 1;
    var front := es[..n];
    assert front + [es[n]] == es;
  }

  /** The last line, read into the tower of the lines before it. */
  lemma {:induction false} ReadLast(lines: seq<string>, f: Forest, e: Entry)
    requires |lines| > 0 && ReadAll(lines[..|lines| - 1]) == Ok(f)
    requires Written(e) && lines[|lines| - 1] == LineText(e)
    ensures ReadAll(lines) == Ok(Enter(f, e))
  {
    ParseLineText(e);
  }

  /** One more line, for a program not described before. */
  lemma {:induction false} EnterRead(f: Forest, es: seq<Entry>, e: Entry)
    requires ReadAs(f, es) && !Named(es, e.name)
    requires DistinctNames(es + [e])
    ensures ReadAs(Enter(f, e), es + [e])
  {
    var r, es' := Enter(f, e), es + [e];
    EnterEffect(f, e);
    NamedSnoc(es, e);
    assert e.name in f.nodes ==> f.nodes[e.name] == Node(0, []);
    forall k | 0 <= k < |es'|
      ensures es'[k].name in r.nodes && r.nodes[es'[k].name] == Node(es'[k].weight, es'[k].children)
    {
      if k < |es| {
        assert es'[k] == es[k] && es[k].name != e.name;
      }
    }
  }

  lemma {:induction false} NamedSnoc(es: seq<Entry>, e: Entry)
    ensures forall x :: Named(es + [e], x) <==> Named(es, x) || x == e.name
    ensures forall x :: OnDisc(es + [e], x) <==> OnDisc(es, x) || x in e.children
  {
    var es' := es + [e];
    forall x
      ensures (Named(es', x) <==> Named(es, x) || x == e.name) && (OnDisc(es', x) <==> OnDisc(es, x) || x in e.children)
    {
      if Named(es, x) {
        var k :| 0 <= k < |es| && es[k].name == x;
        assert es'[k] == es[k];
      }
      if OnDisc(es, x) {
        var k :| 0 <= k < |es| && x in es[k].children;
        assert es'[k] == es[k];
      }
      assert es'[|es|] == e;
      if Named(es', x) {
        var k :| 0 <= k < |es'| && es'[k].name == x;
        if k < |es| { assert es'[k] == es[k]; }
      }
      if OnDisc(es', x) {
        var k :| 0 <= k < |es'| && x in es'[k].children;
        if k < |es| { assert es'[k] == es[k]; }
      }
    }
  }

  // ---------------------------------------------------------------------
  // The example

  /** The line of a program without a disc. */
  lemma {:induction false} LeafText(e: Entry)
    requires e.children == []
    ensures LineText(e) == e.name + " (" + IntToString(e.weight) + ")"
  {
    var ws := LineWords(e);
    var w := "(" + IntToString(e.weight) + ")";
    assert ws == [e.name, w];
    assert ws[..1] == [e.name];
    assert Join(ws, ' ') == e.name + [' '] + w;
  }

  /** The line of a program holding three. */
  lemma {:induction false} DiscText(e: Entry)
    requires |e.children| == 3
    ensures var cs := e.children;
      LineText(e) == e.name + " (" + IntToString(e.weight) + ") -> " + cs[0] + ", " + cs[1] + ", " + cs[2]
  {
    var ws := LineWords(e);
    var cs := e.children;
    var w := "(" + IntToString(e.weight) + ")";
    assert ws == [e.name, w, "->", cs[0] + ",", cs[1] + ",", cs[2]];
    JoinSix(ws);
  }

  lemma {:induction false} JoinSix(ws: seq<string>)
    requires |ws| == 6
    ensures Join(ws, ' ') == ws[0] + [' '] + ws[1] + [' '] + ws[2] + [' '] + ws[3] + [' '] + ws[4] + [' '] + ws[5]
  {
    var sp := [' '];
    assert ws[..2][..1] == [ws[0]];
    assert Join(ws[..2], ' ') == ws[0] + sp + ws[1];
    assert ws[..3][..2] == ws[..2];
    assert Join(ws[..3], ' ') == ws[0] + sp + ws[1] + sp + ws[2];
    assert ws[..4][..3] == ws[..3];
    assert Join(ws[..4], ' ') == ws[0] + sp + ws[1] + sp + ws[2] + sp + ws[3];
    assert ws[..5][..4] == ws[..4];
    assert Join(ws[..5], ' ') == ws[0] + sp + ws[1] + sp + ws[2] + sp + ws[3] + sp + ws[4];
    assert ws[..5] == ws[..|ws| - 1];
  }

  /** A line `name (w)` describes the program without a disc. */
  lemma {:induction false} LeafLine(line: string, e: Entry)
    requires e.children == [] && Bare(e.name)
    requires line == e.name + " (" + IntToString(e.weight) + ")"
    ensures line == LineText(e) && Written(e)
  {
    LeafText(e);
  }

  /** A line `name (w) -> a, b, c` describes the program holding `a`, `b` and `c`. */
  lemma {:induction false} DiscLine(line: string, e: Entry)
    requires |e.children| == 3 && Bare(e.name) && Bare(e.children[0]) && Bare(e.children[1]) && Bare(e.children[2])
    requires var cs := e.children;
      line == e.name + " (" + IntToString(e.weight) + ") -> " + cs[0] + ", " + cs[1] + ", " + cs[2]
    ensures line == LineText(e) && Written(e)
  {
    DiscText(e);
    assert forall c | c in e.children :: c == e.children[0] || c == e.children[1] || c == e.children[2];
  }

  // One lemma for each line of the example: the line is the text of its entry.

  lemma {:induction false} FwftText(line: string)
    requires line == "fwft (72) -> ktlj, cntj, xhth"
    ensures line == "fwft" + " (" + "72" + ") -> " + "ktlj" + ", " + "cntj" + ", " + "xhth"
  {
  }

  lemma {:induction false} PadxText(line: string)
    requires line == "padx (45) -> pbga, havc, qoyq"
    ensures line == "padx" + " (" + "45" + ") -> " + "pbga" + ", " + "havc" + ", " + "qoyq"
  {
  }

  lemma {:induction false} TknkText(line: string)
    requires line == "tknk (41) -> ugml, padx, fwft"
    ensures line == "tknk" + " (" + "41" + ") -> " + "ugml" + ", " + "padx" + ", " + "fwft"
  {
  }

  lemma {:induction false} UgmlText(line: string)
    requires line == "ugml (68) -> gyxo, ebii, jptl"
    ensures line == "ugml" + " (" + "68" + ") -> " + "gyxo" + ", " + "ebii" + ", " + "jptl"
  {
  }

  lemma {:induction false} PbgaLine(line: string, e: Entry)
    requires line == "pbga (66)" && e == Entry("pbga", 66, [])
    ensures Written(e) && line == LineText(e)
  {
    assert IntToString(66) == "66";
    assert Bare("pbga");
    LeafLine(line, e);
  }

  lemma {:induction false} XhthLine(line: string, e: Entry)
    requires line == "xhth (57)" && e == Entry("xhth", 57, [])
    ensures Written(e) && line == LineText(e)
  {
    assert IntToString(57) == "57";
    assert Bare("xhth");
    LeafLine(line, e);
  }

  lemma {:induction false} EbiiLine(line: string, e: Entry)
    requires line == "ebii (61)" && e == Entry("ebii", 61, [])
    ensures Written(e) && line == LineText(e)
  {
    assert IntToString(61) == "61";
    assert Bare("ebii");
    LeafLine(line, e);
  }

  lemma {:induction false} HavcLine(line: string, e: Entry)
    requires line == "havc (66)" && e == Entry("havc", 66, [])
    ensures Written(e) && line == LineText(e)
  {
    assert IntToString(66) == "66";
    assert Bare("havc");
    LeafLine(line, e);
  }

  lemma {:induction false} KtljLine(line: string, e: Entry)
    requires line == "ktlj (57)" && e == Entry("ktlj", 57, [])
    ensures Written(e) && line == LineText(e)
  {
    assert IntToString(57) == "57";
    assert Bare("ktlj");
    LeafLine(line, e);
  }

  lemma {:induction false} FwftLine(line: string, e: Entry)
    requires line == "fwft (72) -> ktlj, cntj, xhth" && e == Entry("fwft", 72, ["ktlj", "cntj", "xhth"])
    ensures Written(e) && line == LineText(e)
  {
    FwftText(line);
    assert IntToString(72) == "72";
    assert Bare("fwft") && Bare("ktlj") && Bare("cntj") && Bare("xhth");
    DiscLine(line, e);
  }

  lemma {:induction false} QoyqLine(line: string, e: Entry)
    requires line == "qoyq (66)" && e == Entry("qoyq", 66, [])
    ensures Written(e) && line == LineText(e)
  {
    assert IntToString(66) == "66";
    assert Bare("qoyq");
    LeafLine(line, e);
  }

  lemma {:induction false} PadxLine(line: string, e: Entry)
    requires line == "padx (45) -> pbga, havc, qoyq" && e == Entry("padx", 45, ["pbga", "havc", "qoyq"])
    ensures Written(e) && line == LineText(e)
  {
    PadxText(line);
    assert IntToString(45) == "45";
    assert Bare("padx") && Bare("pbga") && Bare("havc") && Bare("qoyq");
    DiscLine(line, e);
  }

  lemma {:induction false} TknkLine(line: string, e: Entry)
    requires line == "tknk (41) -> ugml, padx, fwft" && e == Entry("tknk", 41, ["ugml", "padx", "fwft"])
    ensures Written(e) && line == LineText(e)
  {
    TknkText(line);
    assert IntToString(41) == "41";
    assert Bare("tknk") && Bare("ugml") && Bare("padx") && Bare("fwft");
    DiscLine(line, e);
  }

  lemma {:induction false} JptlLine(line: string, e: Entry)
    requires line == "jptl (61)" && e == Entry("jptl", 61, [])
    ensures Written(e) && line == LineText(e)
  {
    assert IntToString(61) == "61";
    assert Bare("jptl");
    LeafLine(line, e);
  }

  lemma {:induction false} UgmlLine(line: string, e: Entry)
    requires line == "ugml (68) -> gyxo, ebii, jptl" && e == Entry("ugml", 68, ["gyxo", "ebii", "jptl"])
    ensures Written(e) && line == LineText(e)
  {
    UgmlText(line);
    assert IntToString(68) == "68";
    assert Bare("ugml") && Bare("gyxo") && Bare("ebii") && Bare("jptl");
    DiscLine(line, e);
  }

  lemma {:induction false} GyxoLine(line: string, e: Entry)
    requires line == "gyxo (61)" && e == Entry("gyxo", 61, [])
    ensures Written(e) && line == LineText(e)
  {
    assert IntToString(61) == "61";
    assert Bare("gyxo");
    LeafLine(line, e);
  }

  lemma {:induction false} CntjLine(line: string, e: Entry)
    requires line == "cntj (57)" && e == Entry("cntj", 57, [])
    ensures Written(e) && line == LineText(e)
  {
    assert IntToString(57) == "57";
    assert Bare("cntj");
    LeafLine(line, e);
  }

  lemma {:induction false} ExampleDescribed(lines: seq<string>, es: seq<Entry>)
    requires lines == [
      "pbga (66)", "xhth (57)", "ebii (61)", "havc (66)", "ktlj (57)",
      "fwft (72) -> ktlj, cntj, xhth", "qoyq (66)", "padx (45) -> pbga, havc, qoyq",
      "tknk (41) -> ugml, padx, fwft", "jptl (61)", "ugml (68) -> gyxo, ebii, jptl",
      "gyxo (61)", "cntj (57)"]
    requires es == [
      Entry("pbga", 66, []), Entry("xhth", 57, []), Entry("ebii", 61, []), Entry("havc", 66, []),
      Entry("ktlj", 57, []), Entry("fwft", 72, ["ktlj", "cntj", "xhth"]), Entry("qoyq", 66, []),
      Entry("padx", 45, ["pbga", "havc", "qoyq"]), Entry("tknk", 41, ["ugml", "padx", "fwft"]),
      Entry("jptl", 61, []), Entry("ugml", 68, ["gyxo", "ebii", "jptl"]), Entry("gyxo", 61, []),
      Entry("cntj", 57, [])]
    ensures Describes(lines, es)
  {
    forall k | 0 <= k < |es|
      ensures Written(es[k]) && lines[k] == LineText(es[k])
    {
      if k == 0 {
        PbgaLine(lines[0], es[0]);
      } else if k == 1 {
        XhthLine(lines[1], es[1]);
      } else if k == 2 {
        EbiiLine(lines[2], es[2]);
      } else if k == 3 {
        HavcLine(lines[3], es[3]);
      } else if k == 4 {
        KtljLine(lines[4], es[4]);
      } else if k == 5 {
        FwftLine(lines[5], es[5]);
      } else if k == 6 {
        QoyqLine(lines[6], es[6]);
      } else if k == 7 {
        PadxLine(lines[7], es[7]);
      } else if k == 8 {
        TknkLine(lines[8], es[8]);
      } else if k == 9 {
        JptlLine(lines[9], es[9]);
      } else if k == 10 {
        UgmlLine(lines[10], es[10]);
      } else if k == 11 {
        GyxoLine(lines[11], es[11]);
      } else if k == 12 {
        CntjLine(lines[12], es[12]);
      }
    }
  }

  /** The levels of the example tower: two for the bottom program, one for the
      programs on its disc, none for the rest. */
  function ExampleRank(): map<string, nat> {
    map["pbga" := 0, "xhth" := 0, "ebii" := 0, "havc" := 0, "ktlj" := 0, "fwft" := 1, "qoyq" := 0,
        "padx" := 1, "tknk" := 2, "jptl" := 0, "ugml" := 1, "gyxo" := 0, "cntj" := 0]
  }

  /** Every program on a disc of the example has a line of its own. */
  lemma {:induction false} ExampleHeld(es: seq<Entry>)
    requires es == [
      Entry("pbga", 66, []), Entry("xhth", 57, []), Entry("ebii", 61, []), Entry("havc", 66, []),
      Entry("ktlj", 57, []), Entry("fwft", 72, ["ktlj", "cntj", "xhth"]), Entry("qoyq", 66, []),
      Entry("padx", 45, ["pbga", "havc", "qoyq"]), Entry("tknk", 41, ["ugml", "padx", "fwft"]),
      Entry("jptl", 61, []), Entry("ugml", 68, ["gyxo", "ebii", "jptl"]), Entry("gyxo", 61, []),
      Entry("cntj", 57, [])]
    ensures forall k, c | 0 <= k < |es| && c in es[k].children :: Named(es, c)
  {
    forall k, c | 0 <= k < |es| && c in es[k].children
      ensures Named(es, c)
    {
      if k == 5 {
        if c == "ktlj" {
          assert es[4].name == c;
        } else if c == "cntj" {
          assert es[12].name == c;
        } else if c == "xhth" {
          assert es[1].name == c;
        }
      } else if k == 7 {
        if c == "pbga" {
          assert es[0].name == c;
        } else if c == "havc" {
          assert es[3].name == c;
        } else if c == "qoyq" {
          assert es[6].name == c;
        }
      } else if k == 8 {
        if c == "ugml" {
          assert es[10].name == c;
        } else if c == "padx" {
          assert es[7].name == c;
        } else if c == "fwft" {
          assert es[5].name == c;
        }
      } else if k == 10 {
        if c == "gyxo" {
          assert es[11].name == c;
        } else if c == "ebii" {
          assert es[2].name == c;
        } else if c == "jptl" {
          assert es[9].name == c;
        }
      }
    }
  }

  /** The levels fall from every program of the example to those on its disc. */
  lemma {:induction false} ExampleLevels(es: seq<Entry>, rank: map<string, nat>)
    requires es == [
      Entry("pbga", 66, []), Entry("xhth", 57, []), Entry("ebii", 61, []), Entry("havc", 66, []),
      Entry("ktlj", 57, []), Entry("fwft", 72, ["ktlj", "cntj", "xhth"]), Entry("qoyq", 66, []),
      Entry("padx", 45, ["pbga", "havc", "qoyq"]), Entry("tknk", 41, ["ugml", "padx", "fwft"]),
      Entry("jptl", 61, []), Entry("ugml", 68, ["gyxo", "ebii", "jptl"]), Entry("gyxo", 61, []),
      Entry("cntj", 57, [])]
    requires rank == ExampleRank()
    ensures forall k | 0 <= k < |es| ::
      es[k].name in rank && (forall c | c in es[k].children :: c in rank && rank[c] < rank[es[k].name])
  {
  }

  /** Every program the example mentions is named on a line of its own. */
  lemma {:induction false} ExampleAllNamed(f: Forest, es: seq<Entry>)
    requires es == [
      Entry("pbga", 66, []), Entry("xhth", 57, []), Entry("ebii", 61, []), Entry("havc", 66, []),
      Entry("ktlj", 57, []), Entry("fwft", 72, ["ktlj", "cntj", "xhth"]), Entry("qoyq", 66, []),
      Entry("padx", 45, ["pbga", "havc", "qoyq"]), Entry("tknk", 41, ["ugml", "padx", "fwft"]),
      Entry("jptl", 61, []), Entry("ugml", 68, ["gyxo", "ebii", "jptl"]), Entry("gyxo", 61, []),
      Entry("cntj", 57, [])]
    requires ReadAs(f, es)
    ensures forall x | x in f.nodes :: Named(es, x)
  {
    ExampleHeld(es);
  }

  /** `tknk` is the only program of the example that no disc holds. */
  lemma {:induction false} ExampleRoot(f: Forest, es: seq<Entry>)
    requires es == [
      Entry("pbga", 66, []), Entry("xhth", 57, []), Entry("ebii", 61, []), Entry("havc", 66, []),
      Entry("ktlj", 57, []), Entry("fwft", 72, ["ktlj", "cntj", "xhth"]), Entry("qoyq", 66, []),
      Entry("padx", 45, ["pbga", "havc", "qoyq"]), Entry("tknk", 41, ["ugml", "padx", "fwft"]),
      Entry("jptl", 61, []), Entry("ugml", 68, ["gyxo", "ebii", "jptl"]), Entry("gyxo", 61, []),
      Entry("cntj", 57, [])]
    requires ReadAs(f, es)
    ensures "tknk" in f.nodes
    ensures forall x | x in f.nodes :: x !in f.parent <==> x == "tknk"
  {
    assert es[8].name == "tknk";
    ExampleAllNamed(f, es);
    ExampleListed(es);
    ExampleOnlyRoot(es);
    forall x | x in f.nodes
      ensures x !in f.parent <==> x == "tknk"
    {
      var k :| 0 <= k < |es| && es[k].name == x;
    }
  }

  /** The levels rank the tower read from the example. */
  lemma {:induction false} ExampleRanked(f: Forest, es: seq<Entry>)
    requires es == [
      Entry("pbga", 66, []), Entry("xhth", 57, []), Entry("ebii", 61, []), Entry("havc", 66, []),
      Entry("ktlj", 57, []), Entry("fwft", 72, ["ktlj", "cntj", "xhth"]), Entry("qoyq", 66, []),
      Entry("padx", 45, ["pbga", "havc", "qoyq"]), Entry("tknk", 41, ["ugml", "padx", "fwft"]),
      Entry("jptl", 61, []), Entry("ugml", 68, ["gyxo", "ebii", "jptl"]), Entry("gyxo", 61, []),
      Entry("cntj", 57, [])]
    requires ReadAs(f, es)
    ensures Ranked(f.nodes, ExampleRank())
  {
    var rank := ExampleRank();
    ExampleAllNamed(f, es);
    ExampleLevels(es, rank);
    forall x | x in f.nodes
      ensures x in rank && forall c | c in f.nodes[x].children :: c in f.nodes && c in rank && rank[c] < rank[x]
    {
      var k :| 0 <= k < |es| && es[k].name == x;
      forall c | c in f.nodes[x].children
        ensures c in f.nodes
      {
        assert OnDisc(es, c);
      }
    }
  }

  /** The four programs of the example that hold a disc, as read. */
  lemma {:induction false} ExampleDiscs(nodes: Nodes, es: seq<Entry>)
    requires es == [
      Entry("pbga", 66, []), Entry("xhth", 57, []), Entry("ebii", 61, []), Entry("havc", 66, []),
      Entry("ktlj", 57, []), Entry("fwft", 72, ["ktlj", "cntj", "xhth"]), Entry("qoyq", 66, []),
      Entry("padx", 45, ["pbga", "havc", "qoyq"]), Entry("tknk", 41, ["ugml", "padx", "fwft"]),
      Entry("jptl", 61, []), Entry("ugml", 68, ["gyxo", "ebii", "jptl"]), Entry("gyxo", 61, []),
      Entry("cntj", 57, [])]
    requires forall k | 0 <= k < |es| :: es[k].name in nodes && nodes[es[k].name] == Node(es[k].weight, es[k].children)
    ensures "tknk" in nodes && nodes["tknk"] == Node(41, ["ugml", "padx", "fwft"])
    ensures "ugml" in nodes && nodes["ugml"] == Node(68, ["gyxo", "ebii", "jptl"])
    ensures "padx" in nodes && nodes["padx"] == Node(45, ["pbga", "havc", "qoyq"])
    ensures "fwft" in nodes && nodes["fwft"] == Node(72, ["ktlj", "cntj", "xhth"])
  {
    assert es[8].name == "tknk" && es[10].name == "ugml" && es[7].name == "padx" && es[5].name == "fwft";
  }

  /** The nine programs of the example that hold nothing, as read. */
  lemma {:induction false} ExampleLeaves(nodes: Nodes, es: seq<Entry>)
    requires es == [
      Entry("pbga", 66, []), Entry("xhth", 57, []), Entry("ebii", 61, []), Entry("havc", 66, []),
      Entry("ktlj", 57, []), Entry("fwft", 72, ["ktlj", "cntj", "xhth"]), Entry("qoyq", 66, []),
      Entry("padx", 45, ["pbga", "havc", "qoyq"]), Entry("tknk", 41, ["ugml", "padx", "fwft"]),
      Entry("jptl", 61, []), Entry("ugml", 68, ["gyxo", "ebii", "jptl"]), Entry("gyxo", 61, []),
      Entry("cntj", 57, [])]
    requires forall k | 0 <= k < |es| :: es[k].name in nodes && nodes[es[k].name] == Node(es[k].weight, es[k].children)
    ensures forall x | x in ["gyxo", "ebii", "jptl"] :: x in nodes && nodes[x] == Node(61, [])
    ensures forall x | x in ["pbga", "havc", "qoyq"] :: x in nodes && nodes[x] == Node(66, [])
    ensures forall x | x in ["ktlj", "cntj", "xhth"] :: x in nodes && nodes[x] == Node(57, [])
  {
    assert es[11].name == "gyxo" && es[2].name == "ebii" && es[9].name == "jptl";
    assert es[0].name == "pbga" && es[3].name == "havc" && es[6].name == "qoyq";
    assert es[4].name == "ktlj" && es[12].name == "cntj" && es[1].name == "xhth";
  }

  /** What reading the example leaves: `tknk` is the only program without a
      parent, the levels rank the tower, and the scan of the disc of `tknk`
      corrects `ugml` to 60. */
  ghost predicate ExampleOutcome(f: Forest) {
    "tknk" in f.nodes && (forall x | x in f.nodes :: x !in f.parent <==> x == "tknk") &&
    Ranked(f.nodes, ExampleRank()) &&
    Scan(Weights(f.nodes, f.nodes["tknk"].children), Totals(f.nodes, ExampleRank(), f.nodes["tknk"].children), 1) ==
    Corrected(60)
  }

  lemma {:induction false} ExampleForest(f: Forest, es: seq<Entry>)
    requires es == [
      Entry("pbga", 66, []), Entry("xhth", 57, []), Entry("ebii", 61, []), Entry("havc", 66, []),
      Entry("ktlj", 57, []), Entry("fwft", 72, ["ktlj", "cntj", "xhth"]), Entry("qoyq", 66, []),
      Entry("padx", 45, ["pbga", "havc", "qoyq"]), Entry("tknk", 41, ["ugml", "padx", "fwft"]),
      Entry("jptl", 61, []), Entry("ugml", 68, ["gyxo", "ebii", "jptl"]), Entry("gyxo", 61, []),
      Entry("cntj", 57, [])]
    requires ReadAs(f, es)
    ensures ExampleOutcome(f)
  {
    ExampleRoot(f, es);
    ExampleRanked(f, es);
    ExampleDiscs(f.nodes, es);
    ExampleLeaves(f.nodes, es);
    ExampleTotals(f.nodes, ExampleRank());
  }

  /** Reading the example never fails and reads each line as its entry. */
  lemma {:induction false} ExampleRead(lines: seq<string>, es: seq<Entry>)
    requires lines == [
      "pbga (66)", "xhth (57)", "ebii (61)", "havc (66)", "ktlj (57)",
      "fwft (72) -> ktlj, cntj, xhth", "qoyq (66)", "padx (45) -> pbga, havc, qoyq",
      "tknk (41) -> ugml, padx, fwft", "jptl (61)", "ugml (68) -> gyxo, ebii, jptl",
      "gyxo (61)", "cntj (57)"]
    requires es == [
      Entry("pbga", 66, []), Entry("xhth", 57, []), Entry("ebii", 61, []), Entry("havc", 66, []),
      Entry("ktlj", 57, []), Entry("fwft", 72, ["ktlj", "cntj", "xhth"]), Entry("qoyq", 66, []),
      Entry("padx", 45, ["pbga", "havc", "qoyq"]), Entry("tknk", 41, ["ugml", "padx", "fwft"]),
      Entry("jptl", 61, []), Entry("ugml", 68, ["gyxo", "ebii", "jptl"]), Entry("gyxo", 61, []),
      Entry("cntj", 57, [])]
    ensures ReadAll(lines).Ok? && ReadAs(ReadAll(lines).value, es)
  {
    ExampleDescribed(lines, es);
    ExampleDistinct(es);
    ReadEntries(lines, es);
  }

  /** Reading the thirteen lines of the example: `tknk` is the only program
      without a parent, and the scan of its disc corrects `ugml` to 60. */
  lemma {:induction false} ExampleTower(lines: seq<string>)
    requires lines == [
      "pbga (66)", "xhth (57)", "ebii (61)", "havc (66)", "ktlj (57)",
      "fwft (72) -> ktlj, cntj, xhth", "qoyq (66)", "padx (45) -> pbga, havc, qoyq",
      "tknk (41) -> ugml, padx, fwft", "jptl (61)", "ugml (68) -> gyxo, ebii, jptl",
      "gyxo (61)", "cntj (57)"]
    ensures ReadAll(lines).Ok? && ExampleOutcome(ReadAll(lines).value)
  {
    var es := [
        Entry("pbga", 66, []), Entry("xhth", 57, []), Entry("ebii", 61, []), Entry("havc", 66, []),
      Entry("ktlj", 57, []), Entry("fwft", 72, ["ktlj", "cntj", "xhth"]), Entry("qoyq", 66, []),
      Entry("padx", 45, ["pbga", "havc", "qoyq"]), Entry("tknk", 41, ["ugml", "padx", "fwft"]),
      Entry("jptl", 61, []), Entry("ugml", 68, ["gyxo", "ebii", "jptl"]), Entry("gyxo", 61, []),
      Entry("cntj", 57, [])];
    ExampleRead(lines, es);
    ExampleForest(ReadAll(lines).value, es);
  }

  /** `read_tree` on the example returns `tknk`, the program at the bottom. */
  method ExampleReadTree() returns (root: string)
    ensures root == "tknk"
  {
    var lines := [
      "pbga (66)", "xhth (57)", "ebii (61)", "havc (66)", "ktlj (57)",
      "fwft (72) -> ktlj, cntj, xhth", "qoyq (66)", "padx (45) -> pbga, havc, qoyq",
      "tknk (41) -> ugml, padx, fwft", "jptl (61)", "ugml (68) -> gyxo, ebii, jptl",
      "gyxo (61)", "cntj (57)"];
    ExampleTower(lines);
    var r := ReadTree(lines);
    assert "tknk" in ReadAll(lines).value.nodes && "tknk" !in ReadAll(lines).value.parent;
    root := r.value.1;
  }

  /** No line of the example lists `tknk` on its disc. */
  lemma {:induction false} ExampleOnlyRoot(es: seq<Entry>)
    requires es == [
      Entry("pbga", 66, []), Entry("xhth", 57, []), Entry("ebii", 61, []), Entry("havc", 66, []),
      Entry("ktlj", 57, []), Entry("fwft", 72, ["ktlj", "cntj", "xhth"]), Entry("qoyq", 66, []),
      Entry("padx", 45, ["pbga", "havc", "qoyq"]), Entry("tknk", 41, ["ugml", "padx", "fwft"]),
      Entry("jptl", 61, []), Entry("ugml", 68, ["gyxo", "ebii", "jptl"]), Entry("gyxo", 61, []),
      Entry("cntj", 57, [])]
    ensures !OnDisc(es, "tknk")
  {
  }

  /** Every other program of the example is on some disc. */
  lemma {:induction false} ExampleListed(es: seq<Entry>)
    requires es == [
      Entry("pbga", 66, []), Entry("xhth", 57, []), Entry("ebii", 61, []), Entry("havc", 66, []),
      Entry("ktlj", 57, []), Entry("fwft", 72, ["ktlj", "cntj", "xhth"]), Entry("qoyq", 66, []),
      Entry("padx", 45, ["pbga", "havc", "qoyq"]), Entry("tknk", 41, ["ugml", "padx", "fwft"]),
      Entry("jptl", 61, []), Entry("ugml", 68, ["gyxo", "ebii", "jptl"]), Entry("gyxo", 61, []),
      Entry("cntj", 57, [])]
    ensures forall k | 0 <= k < |es| && es[k].name != "tknk" :: OnDisc(es, es[k].name)
  {
    forall k | 0 <= k < |es| && es[k].name != "tknk"
      ensures OnDisc(es, es[k].name)
    {
      // the line whose disc holds the program of line k
      var d := if k == 0 then 7 else if k == 1 then 5 else if k == 2 then 10 else if k == 3 then 7
        else if k == 4 then 5 else if k == 5 then 8 else if k == 6 then 7 else if k == 7 then 8
        else if k == 9 then 10 else if k == 10 then 8 else if k == 11 then 10 else 5;
      assert es[k].name in es[d].children;
    }
  }

  /** The example describes each program once. */
  lemma {:induction false} ExampleDistinct(es: seq<Entry>)
    requires es == [
      Entry("pbga", 66, []), Entry("xhth", 57, []), Entry("ebii", 61, []), Entry("havc", 66, []),
      Entry("ktlj", 57, []), Entry("fwft", 72, ["ktlj", "cntj", "xhth"]), Entry("qoyq", 66, []),
      Entry("padx", 45, ["pbga", "havc", "qoyq"]), Entry("tknk", 41, ["ugml", "padx", "fwft"]),
      Entry("jptl", 61, []), Entry("ugml", 68, ["gyxo", "ebii", "jptl"]), Entry("gyxo", 61, []),
      Entry("cntj", 57, [])]
    ensures DistinctNames(es)
  {
  }
}
