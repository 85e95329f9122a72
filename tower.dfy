/** The tower of programs: every program has a weight and holds a disc with
    other programs on it. The lines of the input name a program, its weight
    in parentheses and, after an arrow, the programs on its disc. Programs
    are known by name (one node per name), so the tower is a map from names
    to what the lines said about them, plus the parent of every program that
    stands on some disc. The total weight of a program is its own weight plus
    the total weights of the programs on its disc; the class caches the
    latter sum per program, as the source's nodes do. */
module Tower {
  import opened Common

  // ---------------------------------------------------------------------
  // Lines

  /** `s.strip(chars)`: `s` without leading and trailing characters from `chars`. */
  function StripChars(s: string, chars: set<char>): (r: string)
    ensures |r| <= |s|
    ensures r == [] || (r[0] !in chars && r[|r| - 1] !in chars)
  {
    StripLeft(StripRight(s, chars), chars)
  }

  function StripRight(s: string, chars: set<char>): (r: string)
    ensures |r| <= |s| && r == s[..|r|]
    ensures r == [] || r[|r| - 1] !in chars
    ensures forall k | |r| <= k < |s| :: s[k] in chars
  {
    if s == [] || s[|s| - 1] !in chars then s else StripRight(s[..|s| - 1], chars)
  }

  function StripLeft(s: string, chars: set<char>): (r: string)
    ensures |r| <= |s| && r == s[|s| - |r|..]
    ensures r == [] || r[0] !in chars
    ensures forall k | 0 <= k < |s| - |r| :: s[k] in chars
  {
    if s == [] || s[0] !in chars then s else StripLeft(s[1..], chars)
  }

  /** `s.split(sep)` with a one-character separator: the pieces between the
      separators, empty ones included. */
  function Split(s: string, sep: char): (parts: seq<string>)
    ensures |parts| >= 1
    ensures forall k | 0 <= k < |parts| :: sep !in parts[k]
  {
    if s == [] then [[]]
    else
      var front := Split(s[..|s| - 1], sep);
      var c := s[|s| - 1];
      if c == sep then front + [[]]
      else front[..|front| - 1] + [front[|front| - 1] + [c]]
  }

  /** The pieces put back together with the separator between them. */
  function Join(parts: seq<string>, sep: char): string
    requires |parts| >= 1
  {
    if |parts| == 1 then parts[0] else Join(parts[..|parts| - 1], sep) + [sep] + parts[|parts| - 1]
  }

  /** Splitting loses nothing: joining the pieces gives the line back. */
  lemma {:induction false} JoinSplit(s: string, sep: char)
    ensures Join(Split(s, sep), sep) == s
  {
    if s != [] {
      var front := Split(s[..|s| - 1], sep);
      var c := s[|s| - 1];
      JoinSplit(s[..|s| - 1], sep);
      assert s == s[..|s| - 1] + [c];
      if c == sep {
        JoinEmptyLast(front, sep);
      } else {
        JoinLast(front, sep, [c]);
      }
    }
  }

  /** An empty last piece adds a separator. */
  lemma {:induction false} JoinEmptyLast(parts: seq<string>, sep: char)
    requires |parts| >= 1
    ensures Join(parts + [[]], sep) == Join(parts, sep) + [sep]
  {
    assert (parts + [[]])[..|parts|] == parts;
  }

  /** Appending to the last piece appends to the joined text. */
  lemma {:induction false} JoinLast(parts: seq<string>, sep: char, tail: string)
    requires |parts| >= 1
    ensures Join(parts[..|parts| - 1] + [parts[|parts| - 1] + tail], sep) == Join(parts, sep) + tail
  {
    var longer := parts[..|parts| - 1] + [parts[|parts| - 1] + tail];
    if |parts| > 1 {
      assert longer[..|longer| - 1] == parts[..|parts| - 1];
    }
  }

  /** `w[1:-1]`: without its first and last characters (empty when shorter than two). */
  function Inner(w: string): (r: string)
    ensures |w| >= 2 ==> r == w[1..|w| - 1]
    ensures |w| < 2 ==> r == []
  {
    if |w| >= 2 then w[1..|w| - 1] else []
  }

  /** Why a tower could not be read: a line without a weight (`parts[1]` raises
      IndexError), a weight that is not an integer (`int` raises ValueError), or
      no program without a parent (`[0]` of an empty list raises IndexError). */
  datatype TreeError = MissingWeight(line: string) | BadWeight(word: string) | NoRoot

  /** One line, read: the program's name, its weight and the names on its disc. */
  datatype Entry = Entry(name: string, weight: int, children: seq<string>)

  /** The words of a line: split at single spaces after stripping the line break. */
  function Words(line: string): (parts: seq<string>)
    ensures |parts| >= 1
  {
    Split(StripChars(line, {'\r', '\n'}), ' ')
  }

  /** The line parsing of `read_tree`: word 0 is the name, word 1 the weight in
      parentheses, word 2 the arrow, and the words after it the names on the
      disc with their commas stripped. */
  function ParseLine(line: string): (r: Result<Entry, TreeError>)
    ensures r == Err(MissingWeight(line)) <==> |Words(line)| < 2
    ensures r.Err? && |Words(line)| >= 2 ==>
      r == Err(BadWeight(Words(line)[1])) && ParseInt(Inner(Words(line)[1])).None?
    ensures r.Ok? ==>
      r.value.name == Words(line)[0] && Some(r.value.weight) == ParseInt(Inner(Words(line)[1])) &&
      r.value.children == Children(Words(line))
  {
    var parts := Words(line);
    if |parts| < 2 then Err(MissingWeight(line))
    else match ParseInt(Inner(parts[1]))
      case None => Err(BadWeight(parts[1]))
      case Some(w) => Ok(Entry(parts[0], w, Children(parts)))
  }

  /** The names on the disc: the words after the arrow, without their commas. */
  function Children(parts: seq<string>): seq<string> {
    if |parts| > 2 then seq(|parts| - 3, k requires 0 <= k < |parts| - 3 => StripChars(parts[k + 3], {','}))
    else []
  }

  // ---------------------------------------------------------------------
  // The tower as values

  /** What the lines said about one program: its weight and the names on its disc,
      in the order they were listed. */
  datatype Node = Node(weight: int, children: seq<string>)

  type Nodes = map<string, Node>

  /** `all_nodes` and the `parent` links. */
  datatype Forest = Forest(nodes: Nodes, parent: map<string, string>)

  /** Every program on a disc is a program of the tower, and every parent link
      points at a program whose disc lists the child. */
  predicate Linked(f: Forest) {
    (forall x | x in f.nodes :: forall c | c in f.nodes[x].children :: c in f.nodes) &&
    (forall x | x in f.parent :: x in f.nodes && f.parent[x] in f.nodes && x in f.nodes[f.parent[x]].children)
  }

  /** `get_node`: the node of that name, or a fresh one of weight 0 with an empty disc. */
  function GetNode(nodes: Nodes, name: string): (r: Nodes)
    ensures name in r && r.Keys == nodes.Keys + {name}
    ensures name in nodes ==> r == nodes
    ensures name !in nodes ==> r == nodes[name := Node(0, [])]
  {
    if name in nodes then nodes else nodes[name := Node(0, [])]
  }

  /** Puts `child` on the disc of `name` and makes `name` its parent. */
  function Attach(f: Forest, name: string, child: string): (r: Forest)
    requires name in f.nodes
  {
    var nodes := GetNode(f.nodes, child);
    Forest(nodes[name := Node(nodes[name].weight, nodes[name].children + [child])],
           f.parent[child := name])
  }

  /** The inner loop of `read_tree`: the names in `cs`, one after the other. */
  function AttachAll(f: Forest, name: string, cs: seq<string>): (r: Forest)
    requires name in f.nodes
    ensures name in r.nodes
  {
    if cs == [] then f else Attach(AttachAll(f, name, cs[..|cs| - 1]), name, cs[|cs| - 1])
  }

  /** The outer loop body of `read_tree` for one line. */
  function AddLine(f: Forest, line: string): (r: Result<Forest, TreeError>)
  {
    match ParseLine(line)
    case Err(e) => Err(e)
    case Ok(entry) => Ok(Enter(f, entry))
  }

  /** What a line that parsed does to the tower. */
  function Enter(f: Forest, entry: Entry): Forest {
    var nodes := GetNode(f.nodes, entry.name);
    var g := Forest(nodes[entry.name := Node(entry.weight, nodes[entry.name].children)], f.parent);
    AttachAll(g, entry.name, entry.children)
  }

  /** All the lines, from an empty tower, stopping at the first error. */
  function ReadAll(lines: seq<string>): (r: Result<Forest, TreeError>)
  {
    if lines == [] then Ok(Forest(map[], map[]))
    else match ReadAll(lines[..|lines| - 1])
      case Err(e) => Err(e)
      case Ok(f) => AddLine(f, lines[|lines| - 1])
  }

  /** One more name of the disc. */
  lemma {:induction false} AttachAllSnoc(f: Forest, name: string, cs: seq<string>, k: nat)
    requires name in f.nodes && k < |cs|
    ensures AttachAll(f, name, cs[..k + 1]) == Attach(AttachAll(f, name, cs[..k]), name, cs[k])
  {
    assert cs[..k + 1][..k] == cs[..k];
  }

  /** What one line does: the named program gets the line's weight and the
      line's names appended to its disc, every listed name gets it as parent, a
      name seen for the first time gets a node of weight 0, and nothing else
      changes. */
  lemma {:induction false} EnterEffect(f: Forest, e: Entry)
    ensures var old_ := if e.name in f.nodes then f.nodes[e.name].children else [];
      var r := Enter(f, e);
      r.nodes[e.name] == Node(e.weight, old_ + e.children) &&
      (forall x | x != e.name :: x in r.nodes <==> x in f.nodes || x in e.children) &&
      (forall x | x in r.nodes && x != e.name :: r.nodes[x] == if x in f.nodes then f.nodes[x] else Node(0, [])) &&
      (forall x :: x in r.parent <==> x in f.parent || x in e.children) &&
      (forall x | x in r.parent :: r.parent[x] == if x in e.children then e.name else f.parent[x])
  {
    var nodes := GetNode(f.nodes, e.name);
    var g := Forest(nodes[e.name := Node(e.weight, nodes[e.name].children)], f.parent);
    AttachAllName(g, e.name, e.children);
    AttachAllOthers(g, e.name, e.children);
    AttachAllParent(g, e.name, e.children);
  }

  lemma {:induction false} AttachAllName(f: Forest, name: string, cs: seq<string>)
    requires name in f.nodes
    ensures AttachAll(f, name, cs).nodes[name] == Node(f.nodes[name].weight, f.nodes[name].children + cs)
  {
    if cs != [] {
      var front, last := cs[..|cs| - 1], cs[|cs| - 1];
      AttachAllName(f, name, front);
      assert cs == front + [last];
      assert f.nodes[name].children + cs == f.nodes[name].children + front + [last];
    }
  }

  lemma {:induction false} AttachAllOthers(f: Forest, name: string, cs: seq<string>)
    requires name in f.nodes
    ensures var r := AttachAll(f, name, cs);
      (forall x | x != name :: x in r.nodes <==> x in f.nodes || x in cs) &&
      (forall x | x in r.nodes && x != name :: r.nodes[x] == if x in f.nodes then f.nodes[x] else Node(0, []))
  {
    if cs != [] {
      var front, last := cs[..|cs| - 1], cs[|cs| - 1];
      AttachAllOthers(f, name, front);
      assert cs == front + [last];
      assert forall x :: x in cs <==> x in front || x == last;
    }
  }

  lemma {:induction false} AttachAllParent(f: Forest, name: string, cs: seq<string>)
    requires name in f.nodes
    ensures var r := AttachAll(f, name, cs);
      (forall x :: x in r.parent <==> x in f.parent || x in cs) &&
      (forall x | x in r.parent :: r.parent[x] == if x in cs then name else f.parent[x])
  {
    if cs != [] {
      var front, last := cs[..|cs| - 1], cs[|cs| - 1];
      AttachAllParent(f, name, front);
      assert cs == front + [last];
      assert forall x :: x in cs <==> x in front || x == last;
    }
  }

  /** Reading a line keeps the links consistent. */
  lemma {:induction false} EnterLinked(f: Forest, e: Entry)
    requires Linked(f)
    ensures Linked(Enter(f, e))
  {
    var r := Enter(f, e);
    EnterEffect(f, e);
    forall x | x in r.nodes
      ensures forall c | c in r.nodes[x].children :: c in r.nodes
    {
      if x != e.name && x in f.nodes {
        assert r.nodes[x] == f.nodes[x];
      }
    }
    forall x | x in r.parent
      ensures x in r.nodes && r.parent[x] in r.nodes && x in r.nodes[r.parent[x]].children
    {
      if x !in e.children {
        var p := f.parent[x];
        assert x in f.nodes[p].children;
        if p != e.name {
          assert r.nodes[p] == f.nodes[p];
        }
      }
    }
  }

  /** A tower read without error has consistent links. */
  lemma {:induction false} ReadAllLinked(lines: seq<string>)
    requires ReadAll(lines).Ok?
    ensures Linked(ReadAll(lines).value)
  {
    if lines != [] {
      ReadAllLinked(lines[..|lines| - 1]);
      EnterLinked(ReadAll(lines[..|lines| - 1]).value, ParseLine(lines[|lines| - 1]).value);
    }
  }

  /** One more line, read into the tower of the lines before it. */
  lemma {:induction false} ReadAllNext(lines: seq<string>, i: nat, f: Forest)
    requires i < |lines| && ReadAll(lines[..i]) == Ok(f)
    ensures ReadAll(lines[..i + 1]) == AddLine(f, lines[i])
  {
    assert lines[..i + 1][..i] == lines[..i];
  }

  /** Once a line fails, so does the whole input. */
  lemma {:induction false} ReadAllFails(lines: seq<string>, i: nat)
    requires i <= |lines| && ReadAll(lines[..i]).Err?
    ensures ReadAll(lines) == ReadAll(lines[..i])
    decreases |lines| - i
  {
    if i < |lines| {
      assert lines[..i + 1][..i] == lines[..i];
      ReadAllFails(lines, i + 1);
    } else {
      assert lines[..i] == lines;
    }
  }

  // ---------------------------------------------------------------------
  // Weights

  /** `rank` decreases from every program to the programs on its disc, so the
      tower has no cycle (on a cyclic input the recursion of the source never
      ends). */
  ghost predicate Ranked(nodes: Nodes, rank: map<string, nat>) {
    forall x | x in nodes ::
      x in rank && forall c | c in nodes[x].children :: c in nodes && c in rank && rank[c] < rank[x]
  }

  /** The weight of a program and everything above it. */
  function Total(nodes: Nodes, rank: map<string, nat>, x: string): int
    requires Ranked(nodes, rank) && x in nodes
    decreases rank[x], 1
  {
    nodes[x].weight + ChildSum(nodes, rank, x, |nodes[x].children|)
  }

  /** The total weights of the first `k` programs on the disc of `x`, added up
      from the left. */
  function ChildSum(nodes: Nodes, rank: map<string, nat>, x: string, k: nat): int
    requires Ranked(nodes, rank) && x in nodes && k <= |nodes[x].children|
    decreases rank[x], 0, k
  {
    if k == 0 then 0
    else
      var c := nodes[x].children[k - 1];
      assert c in nodes[x].children;
      ChildSum(nodes, rank, x, k - 1) + Total(nodes, rank, c)
  }

  /** A program without a disc weighs what it weighs itself. */
  lemma {:induction false} TotalOfLeaf(nodes: Nodes, rank: map<string, nat>, x: string)
    requires Ranked(nodes, rank) && x in nodes && nodes[x].children == []
    ensures Total(nodes, rank, x) == nodes[x].weight
  {
  }

  /** The cache of `x` and of every program above it holds the sum of the totals
      on that program's disc. */
  ghost predicate Settled(nodes: Nodes, rank: map<string, nat>, cache: map<string, int>, x: string)
    requires Ranked(nodes, rank) && x in nodes
    decreases rank[x]
  {
    x in cache &&
    (nodes[x].children != [] ==> cache[x] == ChildSum(nodes, rank, x, |nodes[x].children|)) &&
    forall c | c in nodes[x].children :: Settled(nodes, rank, cache, c)
  }

  /** A cache entry is 0 (not computed yet) or settled, and a program without a
      disc has 0. */
  ghost predicate Sound(nodes: Nodes, rank: map<string, nat>, cache: map<string, int>)
    requires Ranked(nodes, rank)
  {
    cache.Keys == nodes.Keys &&
    forall x | x in nodes ::
      (nodes[x].children == [] ==> cache[x] == 0) &&
      (cache[x] == 0 || Settled(nodes, rank, cache, x))
  }

  /** From `before` to `after` the cache only took on correct sums. */
  ghost predicate Fills(nodes: Nodes, rank: map<string, nat>, before: map<string, int>, after: map<string, int>)
    requires Ranked(nodes, rank)
  {
    after.Keys == before.Keys &&
    forall x | x in after ::
      after[x] == before[x] ||
      (x in nodes && nodes[x].children != [] && after[x] == ChildSum(nodes, rank, x, |nodes[x].children|))
  }

  /** Filling the cache keeps what was settled settled. */
  lemma {:induction false} SettledFills(nodes: Nodes, rank: map<string, nat>, before: map<string, int>,
                                        after: map<string, int>, x: string)
    requires Ranked(nodes, rank) && x in nodes
    requires Fills(nodes, rank, before, after) && Settled(nodes, rank, before, x)
    ensures Settled(nodes, rank, after, x)
    decreases rank[x]
  {
    forall c | c in nodes[x].children
      ensures Settled(nodes, rank, after, c)
    {
      SettledFills(nodes, rank, before, after, c);
    }
  }

  // ---------------------------------------------------------------------
  // The tower as objects

  /** The nodes of the source, one per name: `nodes` holds their weights and
      discs, `parent` their parent links and `childrenWeight` the cached sums
      `update_children_weight` fills in. */
  class Tower {
    var nodes: Nodes
    var parent: map<string, string>
    var childrenWeight: map<string, int>

    ghost predicate Valid()
      reads this
    {
      Linked(Forest(nodes, parent)) && childrenWeight.Keys == nodes.Keys
    }

    /** `Node(name)` for every name of `f`: `children_weight` starts at 0. */
    constructor(f: Forest)
      requires Linked(f)
      ensures Valid() && nodes == f.nodes && parent == f.parent
      ensures forall x | x in childrenWeight :: childrenWeight[x] == 0
    {
      nodes := f.nodes;
      parent := f.parent;
      childrenWeight := map x | x in f.nodes :: 0;
    }

    /** `get_total_weight`. */
    method GetTotalWeight(x: string, ghost rank: map<string, nat>) returns (w: int)
      requires Ranked(nodes, rank) && x in nodes && Sound(nodes, rank, childrenWeight)
      modifies this
      ensures nodes == old(nodes) && parent == old(parent)
      ensures w == Total(nodes, rank, x)
      ensures Sound(nodes, rank, childrenWeight) && Settled(nodes, rank, childrenWeight, x)
      ensures Fills(nodes, rank, old(childrenWeight), childrenWeight)
      ensures old(Settled(nodes, rank, childrenWeight, x)) ==> childrenWeight == old(childrenWeight)
      decreases rank[x], 2
    {
      UpdateChildrenWeight(x, rank);
      w := nodes[x].weight + childrenWeight[x];
    }

    /** `update_children_weight`: when the cache of `x` is 0 and its disc is not
        empty, the totals on the disc are added up and cached. Afterwards `x` is
        settled; on a settled `x` it changes nothing. */
    method UpdateChildrenWeight(x: string, ghost rank: map<string, nat>)
      requires Ranked(nodes, rank) && x in nodes && Sound(nodes, rank, childrenWeight)
      modifies this
      ensures nodes == old(nodes) && parent == old(parent)
      ensures Sound(nodes, rank, childrenWeight) && Settled(nodes, rank, childrenWeight, x)
      ensures Fills(nodes, rank, old(childrenWeight), childrenWeight)
      ensures old(Settled(nodes, rank, childrenWeight, x)) ==> childrenWeight == old(childrenWeight)
      ensures nodes[x].children == [] ==> childrenWeight == old(childrenWeight)
      decreases rank[x], 1
    {
      if childrenWeight[x] == 0 && nodes[x].children != [] {
        ghost var before := childrenWeight;
        var sum := SumChildren(x, rank);
        ghost var mid := childrenWeight;
        childrenWeight := childrenWeight[x := sum];
        Filled(nodes, rank, before, mid, x, sum);
        SoundAfter(nodes, rank, mid, x, sum);
      }
    }

    /** `sum(map(lambda n: n.get_total_weight(), self.children))`. */
    method SumChildren(x: string, ghost rank: map<string, nat>) returns (sum: int)
      requires Ranked(nodes, rank) && x in nodes && Sound(nodes, rank, childrenWeight)
      modifies this
      ensures nodes == old(nodes) && parent == old(parent)
      ensures sum == ChildSum(nodes, rank, x, |nodes[x].children|)
      ensures Sound(nodes, rank, childrenWeight) && Fills(nodes, rank, old(childrenWeight), childrenWeight)
      ensures AllSettled(nodes, rank, childrenWeight, nodes[x].children, |nodes[x].children|)
      ensures old(Settled(nodes, rank, childrenWeight, x)) ==> childrenWeight == old(childrenWeight)
      decreases rank[x], 0
    {
      var children := nodes[x].children;
      sum := 0;
      for i := 0 to |children|
        invariant nodes == old(nodes) && parent == old(parent)
        invariant Sound(nodes, rank, childrenWeight) && Fills(nodes, rank, old(childrenWeight), childrenWeight)
        invariant AllSettled(nodes, rank, childrenWeight, children, i)
        invariant sum == ChildSum(nodes, rank, x, i)
        invariant old(Settled(nodes, rank, childrenWeight, x)) ==> childrenWeight == old(childrenWeight)
      {
        assert children[i] in nodes[x].children;
        ghost var mid := childrenWeight;
        var t := GetTotalWeight(children[i], rank);
        StillSettled(nodes, rank, mid, childrenWeight, children, i);
        sum := sum + t;
      }
    }

    /** `get_siblings`: nothing for the root, otherwise the disc of the parent,
        which holds `x` itself. */
    function Siblings(x: string): (r: seq<string>)
      reads this
      requires Valid() && x in nodes
      ensures x !in parent ==> r == []
      ensures x in parent ==> x in r && r == nodes[parent[x]].children
      ensures forall k | 0 <= k < |r| :: r[k] in nodes
    {
      if x !in parent then [] else nodes[parent[x]].children
    }

    /** `total_weight_i`, `total_weight_i_1` and the comparison of the two totals,
        read again, that the loop of `get_correct_weight` makes first. */
    method CompareTotals(x: string, y: string, ghost rank: map<string, nat>)
        returns (total: int, totalBefore: int, differ: bool)
      requires Ranked(nodes, rank) && Sound(nodes, rank, childrenWeight) && x in nodes && y in nodes
      modifies this
      ensures nodes == old(nodes) && parent == old(parent) && Sound(nodes, rank, childrenWeight)
      ensures total == Total(nodes, rank, x) && totalBefore == Total(nodes, rank, y)
      ensures differ <==> total != totalBefore
    {
      total := GetTotalWeight(x, rank);
      totalBefore := GetTotalWeight(y, rank);
      var a := GetTotalWeight(x, rank);
      var b := GetTotalWeight(y, rank);
      differ := a != b;
    }

    /** The loop of `get_correct_weight` over the siblings of one program, with the
        totals read through `get_total_weight` as the source reads them. */
    method CheckSiblings(siblings: seq<string>, ghost rank: map<string, nat>) returns (v: Verdict)
      requires Ranked(nodes, rank) && Sound(nodes, rank, childrenWeight)
      requires forall k | 0 <= k < |siblings| :: siblings[k] in nodes
      modifies this
      ensures nodes == old(nodes) && parent == old(parent) && Sound(nodes, rank, childrenWeight)
      ensures v == Scan(Weights(nodes, siblings), Totals(nodes, rank, siblings), 1)
    {
      ghost var ws, ts := Weights(nodes, siblings), Totals(nodes, rank, siblings);
      var n := |siblings|;
      if n < 2 {
        return Balanced;
      }
      for i := 1 to n
        invariant nodes == old(nodes) && parent == old(parent) && Sound(nodes, rank, childrenWeight)
        invariant Scan(ws, ts, 1) == Scan(ws, ts, i)
      {
        var step := CheckAt(siblings, i, rank);
        if step.Some? {
          return step.value;
        }
      }
      return Balanced;
    }

    /** One pass of that loop: the two totals compared and, when they differ among
        three or more siblings, the next total read to tell which one is odd. */
    method CheckAt(siblings: seq<string>, i: nat, ghost rank: map<string, nat>) returns (step: Option<Verdict>)
      requires Ranked(nodes, rank) && Sound(nodes, rank, childrenWeight)
      requires (forall k | 0 <= k < |siblings| :: siblings[k] in nodes) && 1 <= i < |siblings|
      modifies this
      ensures nodes == old(nodes) && parent == old(parent) && Sound(nodes, rank, childrenWeight)
      ensures step == Step(Weights(nodes, siblings), Totals(nodes, rank, siblings), i)
    {
      ghost var ws, ts := Weights(nodes, siblings), Totals(nodes, rank, siblings);
      var n := |siblings|;
      var total, totalBefore, differ := CompareTotals(siblings[i], siblings[i - 1], rank);
      TotalsAt(nodes, rank, siblings, i);
      TotalsAt(nodes, rank, siblings, i - 1);
      if !differ {
        return None;
      }
      var v;
      var k := (i + 1) % n;
      if n > 2 {
        var next := GetTotalWeight(siblings[k], rank);
        TotalsAt(nodes, rank, siblings, k);
        if total != next {
          v := Corrected(nodes[siblings[i]].weight + (totalBefore - total));
        } else {
          v := Corrected(nodes[siblings[i - 1]].weight + (total - totalBefore));
        }
      } else {
        v := TwoSiblings;
      }
      StepAt(ws, ts, i, k);
      return Some(v);
    }
  }

  /** `read_tree` over the lines of the file: `all_nodes` and the parent links are
      filled line by line, reading stops at the first line that raises, and the
      root is a program without a parent. */
  method ReadTree(lines: seq<string>) returns (r: Result<(Tower, string), TreeError>)
    ensures ReadAll(lines).Err? ==> r == Err(ReadAll(lines).error)
    ensures ReadAll(lines).Ok? && (forall x | x in ReadAll(lines).value.nodes :: x in ReadAll(lines).value.parent) ==>
      r == Err(NoRoot)
    ensures r.Ok? <==> ReadAll(lines).Ok? && exists x | x in ReadAll(lines).value.nodes :: x !in ReadAll(lines).value.parent
    ensures r.Ok? ==> var (tower, root) := r.value;
      ReadAll(lines) == Ok(Forest(tower.nodes, tower.parent)) && fresh(tower) && tower.Valid() &&
      root in tower.nodes && root !in tower.parent &&
      (forall x | x in tower.childrenWeight :: tower.childrenWeight[x] == 0)
  {
    var f := Forest(map[], map[]);
    for i := 0 to |lines|
      invariant ReadAll(lines[..i]) == Ok(f)
    {
      var next := ReadLine(f, lines[i]);
      ReadAllNext(lines, i, f);
      if next.Err? {
        ReadAllFails(lines, i + 1);
        return Err(next.error);
      }
      f := next.value;
    }
    assert lines[..|lines|] == lines;
    ReadAllLinked(lines);
    var root := FindRoot(f);
    if root.Err? {
      return Err(root.error);
    }
    var tower := new Tower(f);
    return Ok((tower, root.value));
  }

  /** The last line of `read_tree`: some program without a parent (the source
      takes the first of a set, whose order the model does not fix), or the
      IndexError of an empty list. */
  method FindRoot(f: Forest) returns (r: Result<string, TreeError>)
    ensures r.Err? <==> forall x | x in f.nodes :: x in f.parent
    ensures r.Err? ==> r.error == NoRoot
    ensures r.Ok? ==> r.value in f.nodes && r.value !in f.parent
  {
    var roots := set x | x in f.nodes && x !in f.parent;
    if roots == {} {
      assert forall x | x in f.nodes :: x in f.parent by {
        forall x | x in f.nodes ensures x in f.parent {
          assert x !in roots;
        }
      }
      return Err(NoRoot);
    }
    var root :| root in roots;
    return Ok(root);
  }

  /** The body of the loop of `read_tree` for one line. */
  method ReadLine(f: Forest, line: string) returns (r: Result<Forest, TreeError>)
    ensures r == AddLine(f, line)
  {
    var parts := Words(line);
    var name := parts[0];
    var nodes := GetNode(f.nodes, name);
    if |parts| < 2 {
      return Err(MissingWeight(line));
    }
    var weight := ParseInt(Inner(parts[1]));
    if weight.None? {
      return Err(BadWeight(parts[1]));
    }
    nodes := nodes[name := Node(weight.value, nodes[name].children)];
    var g := AttachChildren(Forest(nodes, f.parent), name, parts);
    return Ok(g);
  }

  /** The inner loop of `read_tree`: each name after the arrow, its comma
      stripped, goes on the disc and gets `name` as its parent. */
  method AttachChildren(f: Forest, name: string, parts: seq<string>) returns (r: Forest)
    requires name in f.nodes
    ensures r == AttachAll(f, name, Children(parts))
  {
    ghost var cs := Children(parts);
    var nodes, parent := f.nodes, f.parent;
    if |parts| > 2 {
      for j := 3 to |parts|
        invariant name in nodes && AttachAll(f, name, cs[..j - 3]) == Forest(nodes, parent)
      {
        AttachAllSnoc(f, name, cs, j - 3);
        var child := StripChars(parts[j], {','});
        assert child == cs[j - 3];
        nodes := GetNode(nodes, child);
        nodes := nodes[name := Node(nodes[name].weight, nodes[name].children + [child])];
        parent := parent[child := name];
      }
      assert cs[..|parts| - 3] == cs;
    }
    return Forest(nodes, parent);
  }

  /** The first `n` programs of `xs` are settled. */
  ghost predicate AllSettled(nodes: Nodes, rank: map<string, nat>, cache: map<string, int>, xs: seq<string>, n: nat)
    requires Ranked(nodes, rank) && n <= |xs| && forall j | 0 <= j < |xs| :: xs[j] in nodes
  {
    n == 0 || (AllSettled(nodes, rank, cache, xs, n - 1) && Settled(nodes, rank, cache, xs[n - 1]))
  }

  lemma {:induction false} AllSettledAt(nodes: Nodes, rank: map<string, nat>, cache: map<string, int>,
                                        xs: seq<string>, n: nat, j: nat)
    requires Ranked(nodes, rank) && n <= |xs| && forall k | 0 <= k < |xs| :: xs[k] in nodes
    requires AllSettled(nodes, rank, cache, xs, n) && j < n
    ensures Settled(nodes, rank, cache, xs[j])
  {
    if j < n - 1 {
      AllSettledAt(nodes, rank, cache, xs, n - 1, j);
    }
  }

  /** Filling keeps the first `n` programs of a list settled. */
  lemma {:induction false} StillSettled(nodes: Nodes, rank: map<string, nat>, before: map<string, int>,
                                        after: map<string, int>, xs: seq<string>, n: nat)
    requires Ranked(nodes, rank) && Fills(nodes, rank, before, after) && n <= |xs|
    requires forall k | 0 <= k < |xs| :: xs[k] in nodes
    requires AllSettled(nodes, rank, before, xs, n)
    ensures AllSettled(nodes, rank, after, xs, n)
  {
    if n > 0 {
      StillSettled(nodes, rank, before, after, xs, n - 1);
      SettledFills(nodes, rank, before, after, xs[n - 1]);
    }
  }

  /** Caching the correct sum of `x` after the fills of the loop is a fill. */
  lemma {:induction false} Filled(nodes: Nodes, rank: map<string, nat>, before: map<string, int>,
                                  mid: map<string, int>, x: string, sum: int)
    requires Ranked(nodes, rank) && x in nodes && x in mid && nodes[x].children != []
    requires Fills(nodes, rank, before, mid) && sum == ChildSum(nodes, rank, x, |nodes[x].children|)
    ensures Fills(nodes, rank, before, mid[x := sum])
  {
  }

  /** Caching the correct sum of `x` once its disc is settled keeps the cache sound
      and settles `x`. */
  lemma {:induction false} SoundAfter(nodes: Nodes, rank: map<string, nat>, mid: map<string, int>,
                                      x: string, sum: int)
    requires Ranked(nodes, rank) && x in nodes && nodes[x].children != [] && Sound(nodes, rank, mid)
    requires AllSettled(nodes, rank, mid, nodes[x].children, |nodes[x].children|)
    requires sum == ChildSum(nodes, rank, x, |nodes[x].children|)
    ensures Sound(nodes, rank, mid[x := sum]) && Settled(nodes, rank, mid[x := sum], x)
  {
    var after := mid[x := sum];
    var children := nodes[x].children;
    assert Fills(nodes, rank, mid, after);
    forall c | c in children
      ensures Settled(nodes, rank, after, c)
    {
      var j :| 0 <= j < |children| && children[j] == c;
      AllSettledAt(nodes, rank, mid, children, |children|, j);
      SettledFills(nodes, rank, mid, after, c);
    }
    forall y | y in nodes && after[y] != 0 && y != x
      ensures Settled(nodes, rank, after, y)
    {
      SettledFills(nodes, rank, mid, after, y);
    }
  }

  // ---------------------------------------------------------------------
  // Leaves

  /** `list({node for node in self.children if not node.children})`: the programs
      of `cs` without a disc, each once, in the order of their first appearance. */
  function LeafChildren(nodes: Nodes, cs: seq<string>): (r: seq<string>)
    requires forall c | c in cs :: c in nodes
  {
    if cs == [] then []
    else
      var front := LeafChildren(nodes, cs[..|cs| - 1]);
      var c := cs[|cs| - 1];
      assert c in cs;
      if nodes[c].children == [] && c !in front then front + [c] else front
  }

  /** The set of leaves on a disc holds each leaf on it once and nothing else. */
  lemma {:induction false} LeafChildrenExact(nodes: Nodes, cs: seq<string>)
    requires forall c | c in cs :: c in nodes
    ensures var r := LeafChildren(nodes, cs);
      (forall y :: y in r <==> y in cs && nodes[y].children == []) &&
      (forall i, j | 0 <= i < j < |r| :: r[i] != r[j])
  {
    if cs != [] {
      var front, c := cs[..|cs| - 1], cs[|cs| - 1];
      assert forall y :: y in cs <==> y in front || y == c;
      LeafChildrenExact(nodes, front);
    }
  }

  /** `get_leafs`: the leaves on the disc of `x`, then the leaves of each program
      on it in turn. */
  function Leafs(nodes: Nodes, rank: map<string, nat>, x: string): seq<string>
    requires Ranked(nodes, rank) && x in nodes
    decreases rank[x]
  {
    var cs := nodes[x].children;
    LeafChildren(nodes, cs) +
    Flatten(seq(|cs|, j requires 0 <= j < |cs| => assert cs[j] in cs; Leafs(nodes, rank, cs[j])))
  }

  /** The lists one after the other (`leafs.extend` in a loop). */
  function Flatten(ss: seq<seq<string>>): seq<string> {
    if ss == [] then [] else Flatten(ss[..|ss| - 1]) + ss[|ss| - 1]
  }

  lemma {:induction false} FlattenIn(ss: seq<seq<string>>, y: string)
    ensures y in Flatten(ss) <==> exists j | 0 <= j < |ss| :: y in ss[j]
  {
    if ss != [] {
      var front := ss[..|ss| - 1];
      FlattenIn(front, y);
      assert forall j | 0 <= j < |front| :: front[j] == ss[j];
      if y in ss[|ss| - 1] {
        assert 0 <= |ss| - 1 < |ss|;
      }
    }
  }

  /** `y` stands somewhere above `x`. */
  ghost predicate Above(nodes: Nodes, rank: map<string, nat>, x: string, y: string)
    requires Ranked(nodes, rank) && x in nodes
    decreases rank[x]
  {
    exists j | 0 <= j < |nodes[x].children| ::
      nodes[x].children[j] == y || Above(nodes, rank, nodes[x].children[j], y)
  }

  /** `get_leafs` returns exactly the programs above `x` that hold no disc. */
  lemma {:induction false} LeafsExact(nodes: Nodes, rank: map<string, nat>, x: string, y: string)
    requires Ranked(nodes, rank) && x in nodes
    ensures y in Leafs(nodes, rank, x) <==> Above(nodes, rank, x, y) && y in nodes && nodes[y].children == []
  {
    if y in Leafs(nodes, rank, x) {
      LeafsSound(nodes, rank, x, y);
    }
    if Above(nodes, rank, x, y) && y in nodes && nodes[y].children == [] {
      LeafsComplete(nodes, rank, x, y);
    }
  }

  /** The lists Leafs(x) is made of, one per program on the disc of `x`. */
  function LeafLists(nodes: Nodes, rank: map<string, nat>, x: string): (ss: seq<seq<string>>)
    requires Ranked(nodes, rank) && x in nodes
    ensures Leafs(nodes, rank, x) == LeafChildren(nodes, nodes[x].children) + Flatten(ss)
    ensures |ss| == |nodes[x].children|
    ensures forall j | 0 <= j < |ss| :: nodes[x].children[j] in nodes && ss[j] == Leafs(nodes, rank, nodes[x].children[j])
  {
    var cs := nodes[x].children;
    seq(|cs|, j requires 0 <= j < |cs| => assert cs[j] in cs; Leafs(nodes, rank, cs[j]))
  }

  lemma {:induction false} LeafsSound(nodes: Nodes, rank: map<string, nat>, x: string, y: string)
    requires Ranked(nodes, rank) && x in nodes && y in Leafs(nodes, rank, x)
    ensures Above(nodes, rank, x, y) && y in nodes && nodes[y].children == []
    decreases rank[x]
  {
    var cs := nodes[x].children;
    var ss := LeafLists(nodes, rank, x);
    var j: nat;
    if y in LeafChildren(nodes, cs) {
      assert forall c | c in cs :: c in nodes;
      LeafChildrenExact(nodes, cs);
      j :| 0 <= j < |cs| && cs[j] == y;
    } else {
      FlattenIn(ss, y);
      j :| 0 <= j < |cs| && y in ss[j];
      LeafsSound(nodes, rank, cs[j], y);
    }
    assert cs[j] == y || Above(nodes, rank, cs[j], y);
  }

  lemma {:induction false} LeafsComplete(nodes: Nodes, rank: map<string, nat>, x: string, y: string)
    requires Ranked(nodes, rank) && x in nodes
    requires Above(nodes, rank, x, y) && y in nodes && nodes[y].children == []
    ensures y in Leafs(nodes, rank, x)
    decreases rank[x]
  {
    var cs := nodes[x].children;
    var ss := LeafLists(nodes, rank, x);
    var j :| 0 <= j < |cs| && (cs[j] == y || Above(nodes, rank, cs[j], y));
    if cs[j] == y {
      assert forall c | c in cs :: c in nodes;
      LeafChildrenExact(nodes, cs);
      assert y in cs;
    } else {
      LeafsComplete(nodes, rank, cs[j], y);
      assert y in ss[j];
      FlattenIn(ss, y);
    }
  }

  // ---------------------------------------------------------------------
  // The unbalanced program

  /** What comparing a list of siblings gives: all totals agree, the corrected
      weight of the odd one out, or the case of exactly two siblings that differ
      (decided by `is_parent_lighter`, which is not part of this model). */
  datatype Verdict = Balanced | Corrected(weight: int) | TwoSiblings

  /** The loop of `get_correct_weight` over the siblings from position `i` on, on
      their own weights `ws` and total weights `ts`: at the first total that differs
      from the one before, with three or more siblings, the one at `i` is the odd
      one out when it also differs from the next one (cyclically), and the one at
      `i - 1` otherwise; the odd one's weight is moved by the difference. */
  function Scan(ws: seq<int>, ts: seq<int>, i: nat): Verdict
    requires |ws| == |ts| && 1 <= i
    decreases |ts| - i
  {
    if i >= |ts| then Balanced
    else match Step(ws, ts, i)
      case None => Scan(ws, ts, i + 1)
      case Some(v) => v
  }

  /** One pass of that loop: nothing when the totals at `i - 1` and `i` agree. */
  function Step(ws: seq<int>, ts: seq<int>, i: nat): Option<Verdict>
    requires |ws| == |ts| && 1 <= i < |ts|
  {
    if ts[i] == ts[i - 1] then None
    else if |ts| > 2 then
      if ts[i] != ts[(i + 1) % |ts|] then Some(Corrected(ws[i] + (ts[i - 1] - ts[i])))
      else Some(Corrected(ws[i - 1] + (ts[i] - ts[i - 1])))
    else Some(TwoSiblings)
  }

  /** The pass at a position where the total differs from the one before. */
  lemma {:induction false} StepAt(ws: seq<int>, ts: seq<int>, i: nat, k: nat)
    requires |ws| == |ts| && 1 <= i < |ts| && ts[i] != ts[i - 1]
    requires |ts| > 2 ==> k == (i + 1) % |ts|
    ensures |ts| <= 2 ==> Step(ws, ts, i) == Some(TwoSiblings)
    ensures |ts| > 2 && ts[i] != ts[k] ==> Step(ws, ts, i) == Some(Corrected(ws[i] + (ts[i - 1] - ts[i])))
    ensures |ts| > 2 && ts[i] == ts[k] ==> Step(ws, ts, i) == Some(Corrected(ws[i - 1] + (ts[i] - ts[i - 1])))
  {
  }

  /** The scan finds nothing exactly when all totals agree. */
  lemma {:induction false} ScanBalanced(ws: seq<int>, ts: seq<int>)
    requires |ws| == |ts|
    ensures Scan(ws, ts, 1) == Balanced <==> forall j, k | 0 <= j < |ts| && 0 <= k < |ts| :: ts[j] == ts[k]
  {
    if Scan(ws, ts, 1) == Balanced {
      forall j | 0 <= j < |ts|
        ensures ts[j] == ts[0]
      {
        ScanBalancedFrom(ws, ts, 1, j);
      }
    } else {
      var i := ScanStops(ws, ts, 1);
      assert ts[i] != ts[i - 1];
    }
  }

  /** Past a balanced position every total equals the one at 0. */
  lemma {:induction false} ScanBalancedFrom(ws: seq<int>, ts: seq<int>, i: nat, j: nat)
    requires |ws| == |ts| && 1 <= i && j < |ts| && Scan(ws, ts, i) == Balanced
    requires forall k | 0 <= k < i && k < |ts| :: ts[k] == ts[0]
    ensures ts[j] == ts[0]
    decreases |ts| - i
  {
    if i < |ts| && j >= i {
      ScanBalancedFrom(ws, ts, i + 1, j);
    }
  }

  /** Where a scan that is not balanced stops. */
  lemma {:induction false} ScanStops(ws: seq<int>, ts: seq<int>, i: nat) returns (k: nat)
    requires |ws| == |ts| && 1 <= i && Scan(ws, ts, i) != Balanced
    ensures i <= k < |ts| && ts[k] != ts[k - 1]
    decreases |ts| - i
  {
    if ts[i] != ts[i - 1] {
      k := i;
    } else {
      k := ScanStops(ws, ts, i + 1);
    }
  }

  /** With three or more siblings of which exactly one, `u`, has a total other than
      the common total `t`, the answer is `u`'s weight moved by the difference. */
  lemma {:induction false} ScanOneOff(ws: seq<int>, ts: seq<int>, u: nat, t: int)
    requires |ws| == |ts| && |ts| >= 3 && u < |ts| && ts[u] != t
    requires forall j | 0 <= j < |ts| && j != u :: ts[j] == t
    ensures Scan(ws, ts, 1) == Corrected(ws[u] + (t - ts[u]))
  {
    if u == 0 {
      assert ts[2 % |ts|] == ts[2];
    } else {
      ScanSkips(ws, ts, 1, u, t);
      assert (u + 1) % |ts| != u by {
        if u + 1 < |ts| {
          assert (u + 1) % |ts| == u + 1;
        } else {
          assert (u + 1) % |ts| == 0;
        }
      }
    }
  }

  /** Before the odd one out the scan moves on. */
  lemma {:induction false} ScanSkips(ws: seq<int>, ts: seq<int>, i: nat, u: nat, t: int)
    requires |ws| == |ts| && 1 <= i <= u < |ts|
    requires forall j | 0 <= j < u :: ts[j] == t
    ensures Scan(ws, ts, i) == Scan(ws, ts, u)
    decreases u - i
  {
    if i < u {
      ScanSkips(ws, ts, i + 1, u, t);
    }
  }

  /** The own weights of a list of programs. */
  function Weights(nodes: Nodes, xs: seq<string>): (ws: seq<int>)
    requires forall k | 0 <= k < |xs| :: xs[k] in nodes
    ensures |ws| == |xs|
  {
    seq(|xs|, k requires 0 <= k < |xs| => nodes[xs[k]].weight)
  }

  lemma {:induction false} TotalsAt(nodes: Nodes, rank: map<string, nat>, xs: seq<string>, k: nat)
    requires Ranked(nodes, rank) && (forall j | 0 <= j < |xs| :: xs[j] in nodes) && k < |xs|
    ensures Totals(nodes, rank, xs)[k] == Total(nodes, rank, xs[k])
    ensures Weights(nodes, xs)[k] == nodes[xs[k]].weight
  {
  }

  /** The total weights of a list of programs. */
  function Totals(nodes: Nodes, rank: map<string, nat>, xs: seq<string>): (ts: seq<int>)
    requires Ranked(nodes, rank) && forall k | 0 <= k < |xs| :: xs[k] in nodes
    ensures |ts| == |xs|
  {
    seq(|xs|, k requires 0 <= k < |xs| => Total(nodes, rank, xs[k]))
  }

  // ---------------------------------------------------------------------
  // The example of the puzzle

  /** The disc of `tknk`: `ugml`, `padx` and `fwft` weigh 68, 45 and 72 and hold
      three programs of 61, 66 and 57 each, so their totals are 251, 243 and 243
      and `ugml` should weigh 60. */
  lemma {:induction false} ExampleTotals(nodes: Nodes, rank: map<string, nat>)
    requires "tknk" in nodes && nodes["tknk"] == Node(41, ["ugml", "padx", "fwft"])
    requires "ugml" in nodes && nodes["ugml"] == Node(68, ["gyxo", "ebii", "jptl"])
    requires "padx" in nodes && nodes["padx"] == Node(45, ["pbga", "havc", "qoyq"])
    requires "fwft" in nodes && nodes["fwft"] == Node(72, ["ktlj", "cntj", "xhth"])
    requires forall x | x in ["gyxo", "ebii", "jptl"] :: x in nodes && nodes[x] == Node(61, [])
    requires forall x | x in ["pbga", "havc", "qoyq"] :: x in nodes && nodes[x] == Node(66, [])
    requires forall x | x in ["ktlj", "cntj", "xhth"] :: x in nodes && nodes[x] == Node(57, [])
    requires Ranked(nodes, rank)
    ensures Weights(nodes, nodes["tknk"].children) == [68, 45, 72]
    ensures Totals(nodes, rank, nodes["tknk"].children) == [251, 243, 243]
    ensures Scan(Weights(nodes, nodes["tknk"].children), Totals(nodes, rank, nodes["tknk"].children), 1) == Corrected(60)
  {
    DiscOfThree(nodes, rank, "ugml", 61);
    DiscOfThree(nodes, rank, "padx", 66);
    DiscOfThree(nodes, rank, "fwft", 57);
    DiscTotals(nodes, rank, nodes["tknk"].children);
    ExampleCorrection([68, 45, 72], [251, 243, 243]);
  }

  /** A program holding three programs of weight `w` that hold nothing. */
  lemma {:induction false} DiscOfThree(nodes: Nodes, rank: map<string, nat>, x: string, w: int)
    requires Ranked(nodes, rank) && x in nodes && |nodes[x].children| == 3
    requires forall c | c in nodes[x].children :: c in nodes && nodes[c] == Node(w, [])
    ensures Total(nodes, rank, x) == nodes[x].weight + 3 * w
  {
    var cs := nodes[x].children;
    assert cs[0] in cs && cs[1] in cs && cs[2] in cs;
    TotalOfThreeLeaves(nodes, rank, x);
  }

  /** The weights and totals of three programs, listed. */
  lemma {:induction false} DiscTotals(nodes: Nodes, rank: map<string, nat>, xs: seq<string>)
    requires Ranked(nodes, rank) && |xs| == 3 && forall k | 0 <= k < 3 :: xs[k] in nodes
    ensures Weights(nodes, xs) == [nodes[xs[0]].weight, nodes[xs[1]].weight, nodes[xs[2]].weight]
    ensures Totals(nodes, rank, xs) == [Total(nodes, rank, xs[0]), Total(nodes, rank, xs[1]), Total(nodes, rank, xs[2])]
  {
    TotalsAt(nodes, rank, xs, 0);
    TotalsAt(nodes, rank, xs, 1);
    TotalsAt(nodes, rank, xs, 2);
  }

  /** The total of a program holding three programs that hold nothing. */
  lemma {:induction false} TotalOfThreeLeaves(nodes: Nodes, rank: map<string, nat>, x: string)
    requires Ranked(nodes, rank) && x in nodes && |nodes[x].children| == 3
    requires forall c | c in nodes[x].children :: nodes[c].children == []
    ensures var cs := nodes[x].children;
      Total(nodes, rank, x) == nodes[x].weight + nodes[cs[0]].weight + nodes[cs[1]].weight + nodes[cs[2]].weight
  {
    var cs := nodes[x].children;
    TotalOfLeaf(nodes, rank, cs[0]);
    TotalOfLeaf(nodes, rank, cs[1]);
    TotalOfLeaf(nodes, rank, cs[2]);
    assert cs[0] in cs && cs[1] in cs && cs[2] in cs;
    assert ChildSum(nodes, rank, x, 1) == Total(nodes, rank, cs[0]);
    assert ChildSum(nodes, rank, x, 2) == ChildSum(nodes, rank, x, 1) + Total(nodes, rank, cs[1]);
    assert ChildSum(nodes, rank, x, 3) == ChildSum(nodes, rank, x, 2) + Total(nodes, rank, cs[2]);
  }

  /** On that disc `ugml` is the odd one out and should weigh 60. */
  lemma {:induction false} ExampleCorrection(ws: seq<int>, ts: seq<int>)
    requires ws == [68, 45, 72] && ts == [251, 243, 243]
    ensures Scan(ws, ts, 1) == Corrected(60)
  {
    ScanOneOff(ws, ts, 0, 243);
  }
}
