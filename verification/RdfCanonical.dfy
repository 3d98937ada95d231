/** Canonical form of an RDF graph: colour refinement, then an exhaustive search over the ambiguous nodes. */
module RdfCanonical {
  import opened Wrappers
  import opened Sorting
  import opened Permutations

  /** A line is a run of literal text and blank-node labels. */
  datatype Token<N> = Text(text: string) | Node(name: N)
  type Line = seq<Token<string>>

  /** What a blank node turns into inside a signature. */
  datatype Mark = Self | Seen(color: string) | Unseen
  type Coloring = map<string, string>
  type SignatureLine = seq<Token<Mark>>

  /** What a blank node turns into inside a serialization. */
  datatype Label = Canonical(index: nat) | Original(name: string)
  type Output = seq<seq<Token<Label>>>

  /** The hash, and the orders that the sorts and the comparison of candidates use. */
  datatype Config = Config(
    hash: multiset<SignatureLine> -> string,
    nameLt: (string, string) -> bool,
    colorLt: (string, string) -> bool,
    lineLt: (seq<Token<Label>>, seq<Token<Label>>) -> bool,
    textLt: (Output, Output) -> bool)

  ghost predicate Ordered(cfg: Config) {
    StrictTotal(cfg.nameLt) && StrictTotal(cfg.colorLt) && StrictTotal(cfg.lineLt) && StrictTotal(cfg.textLt)
  }

  datatype Result = Text(lines: Output) | SearchLimit | InvalidBound

  // ---------------------------------------------------------------- nodes

  function BlankNodes(line: Line): seq<string> {
    if line == [] then []
    else (if line[0].Node? then [line[0].name] else []) + BlankNodes(line[1..])
  }

  function AllNames(lines: seq<Line>): seq<string> {
    if lines == [] then [] else BlankNodes(lines[0]) + AllNames(lines[1..])
  }

  function Nodes(lines: seq<Line>, cfg: Config): seq<string> { SortUnique(AllNames(lines), cfg.nameLt) }

  ghost predicate Mentions(line: Line, node: string) { Token.Node(node) in line }

  lemma {:induction false} BlankNodesExact(line: Line, node: string)
    ensures node in BlankNodes(line) <==> Mentions(line, node)
  {
    if line != [] {
      BlankNodesExact(line[1..], node);
      assert line == [line[0]] + line[1..];
    }
  }

  lemma {:induction false} AllNamesExact(lines: seq<Line>, node: string)
    ensures node in AllNames(lines) <==> exists i :: 0 <= i < |lines| && Mentions(lines[i], node)
  {
    if lines != [] {
      BlankNodesExact(lines[0], node);
      AllNamesExact(lines[1..], node);
      assert lines == [lines[0]] + lines[1..];
      if i :| 0 <= i < |lines[1..]| && Mentions(lines[1..][i], node) { assert Mentions(lines[i + 1], node); }
      if i :| 0 <= i < |lines| && Mentions(lines[i], node) {
        if i > 0 { assert Mentions(lines[1..][i - 1], node); }
      }
    }
  }

  /** The node list holds exactly the labels that some line mentions, each once. */
  lemma NodesExact(lines: seq<Line>, cfg: Config)
    requires Ordered(cfg)
    ensures NoDup(Nodes(lines, cfg))
    ensures forall n :: n in Nodes(lines, cfg) <==> exists i :: 0 <= i < |lines| && Mentions(lines[i], n)
  {
    var nodes := Nodes(lines, cfg);
    SortUniqueSorted(AllNames(lines), cfg.nameLt);
    forall n ensures n in nodes <==> exists i :: 0 <= i < |lines| && Mentions(lines[i], n) {
      assert n in nodes <==> n in Elements(nodes);
      assert n in AllNames(lines) <==> n in Elements(AllNames(lines));
      AllNamesExact(lines, n);
    }
  }

  // ----------------------------------------------------------- signatures

  function Marked(token: Token<string>, node: string, colors: Option<Coloring>): Token<Mark> {
    match token
    case Text(text) => Token.Text(text)
    case Node(name) =>
      Token.Node(
        if name == node then Self
        else if colors.Some? && name in colors.value then Seen(colors.value[name])
        else Unseen)
  }

  function MarkedLine(line: Line, node: string, colors: Option<Coloring>): (r: SignatureLine)
    ensures |r| == |line| && forall i :: 0 <= i < |r| ==> r[i] == Marked(line[i], node, colors)
  {
    seq(|line|, i requires 0 <= i < |line| => Marked(line[i], node, colors))
  }

  function OwnLine(node: string, line: Line, colors: Option<Coloring>): multiset<SignatureLine> {
    if node in BlankNodes(line) then multiset{MarkedLine(line, node, colors)} else multiset{}
  }

  /** All that `f` gives for the members of `xs`, counted. */
  function Gather<A, B>(xs: seq<A>, f: A -> multiset<B>): multiset<B> {
    if xs == [] then multiset{} else f(xs[0]) + Gather(xs[1..], f)
  }

  function Owner(node: string, colors: Option<Coloring>): Line -> multiset<SignatureLine> {
    line => OwnLine(node, line, colors)
  }

  /** The lines around `node`, with the other nodes reduced to their colours; sorting leaves only the multiset. */
  function Signature(node: string, lines: seq<Line>, colors: Option<Coloring>): multiset<SignatureLine> {
    Gather(lines, Owner(node, colors))
  }

  function Recolor(nodes: seq<string>, lines: seq<Line>, colors: Option<Coloring>, cfg: Config): Coloring {
    map n | n in nodes :: cfg.hash(Signature(n, lines, colors))
  }

  function Recoloring(nodes: seq<string>, lines: seq<Line>, cfg: Config): Coloring -> Coloring {
    colors => Recolor(nodes, lines, Some(colors), cfg)
  }

  /** At most `rounds` steps, stopping at the first that changes nothing. */
  function Iterate<C(==)>(step: C -> C, colors: C, rounds: nat): C
    decreases rounds
  {
    if rounds == 0 || step(colors) == colors then colors else Iterate(step, step(colors), rounds - 1)
  }

  function Colors(lines: seq<Line>, cfg: Config): Coloring {
    var nodes := Nodes(lines, cfg);
    Iterate(Recoloring(nodes, lines, cfg), Recolor(nodes, lines, None, cfg), |nodes| + 1)
  }

  lemma {:induction false} IterateKeys(step: Coloring -> Coloring, colors: Coloring, rounds: nat, keys: set<string>)
    requires colors.Keys == keys && forall c :: step(c).Keys == keys
    ensures Iterate(step, colors, rounds).Keys == keys
    decreases rounds
  {
    if rounds > 0 { IterateKeys(step, step(colors), rounds - 1, keys); }
  }

  lemma ColorsKeys(lines: seq<Line>, cfg: Config)
    ensures Colors(lines, cfg).Keys == Elements(Nodes(lines, cfg))
  {
    var nodes := Nodes(lines, cfg);
    var step := Recoloring(nodes, lines, cfg);
    forall c: Option<Coloring> ensures Recolor(nodes, lines, c, cfg).Keys == Elements(nodes) {
      assert forall n :: n in nodes <==> n in Recolor(nodes, lines, c, cfg);
    }
    assert forall c :: step(c).Keys == Elements(nodes);
    IterateKeys(step, Recolor(nodes, lines, None, cfg), |nodes| + 1, Elements(nodes));
  }

  // --------------------------------------------------------------- groups

  function OfColor(nodes: seq<string>, colors: Coloring, color: string): seq<string> {
    if nodes == [] then []
    else
      (if nodes[0] in colors && colors[nodes[0]] == color then [nodes[0]] else []) + OfColor(nodes[1..], colors, color)
  }

  function ColorList(nodes: seq<string>, colors: Coloring): seq<string> {
    if nodes == [] then []
    else (if nodes[0] in colors then [colors[nodes[0]]] else []) + ColorList(nodes[1..], colors)
  }

  function GroupsOf(palette: seq<string>, nodes: seq<string>, colors: Coloring): (r: seq<seq<string>>)
    ensures |r| == |palette| && forall i :: 0 <= i < |r| ==> r[i] == OfColor(nodes, colors, palette[i])
  {
    seq(|palette|, i requires 0 <= i < |palette| => OfColor(nodes, colors, palette[i]))
  }

  /** One group of nodes for each colour in use, in the order of the colours. */
  function Groups(nodes: seq<string>, colors: Coloring, cfg: Config): seq<seq<string>> {
    GroupsOf(SortUnique(ColorList(nodes, colors), cfg.colorLt), nodes, colors)
  }

  function AmbiguousGroups(lines: seq<Line>, cfg: Config): seq<seq<string>> {
    Groups(Nodes(lines, cfg), Colors(lines, cfg), cfg)
  }

  // -------------------------------------------------------- serialization

  function Labels(order: seq<string>): (r: map<string, nat>)
    ensures forall i :: 0 <= i < |order| ==> order[i] in r
    ensures forall n :: n in r ==> n in order && 0 <= r[n] < |order| && order[r[n]] == n
    decreases |order|
  {
    if order == [] then map[]
    else
      var last := |order| - 1;
      var before := Labels(order[..last]);
      assert forall n :: n in before ==> order[..last][before[n]] == n;
      before[order[last] := last]
  }

  function Relabelled(token: Token<string>, labels: map<string, nat>): Token<Label> {
    match token
    case Text(text) => Token.Text(text)
    case Node(name) => Token.Node(if name in labels then Canonical(labels[name]) else Original(name))
  }

  function RelabelledLine(line: Line, labels: map<string, nat>): (r: seq<Token<Label>>)
    ensures |r| == |line| && forall i :: 0 <= i < |r| ==> r[i] == Relabelled(line[i], labels)
  {
    seq(|line|, i requires 0 <= i < |line| => Relabelled(line[i], labels))
  }

  function RelabelledLines(lines: seq<Line>, labels: map<string, nat>): (r: Output)
    ensures |r| == |lines| && forall i :: 0 <= i < |r| ==> r[i] == RelabelledLine(lines[i], labels)
  {
    seq(|lines|, i requires 0 <= i < |lines| => RelabelledLine(lines[i], labels))
  }

  function Serialize(lines: seq<Line>, labels: map<string, nat>, cfg: Config): Output {
    SortUnique(RelabelledLines(lines, labels), cfg.lineLt)
  }

  function Candidates(lines: seq<Line>, orders: seq<seq<string>>, cfg: Config): (r: seq<Output>)
    ensures |r| == |orders| && forall i :: 0 <= i < |r| ==> r[i] == Serialize(lines, Labels(orders[i]), cfg)
  {
    seq(|orders|, i requires 0 <= i < |orders| => Serialize(lines, Labels(orders[i]), cfg))
  }

  lemma {:induction false} SomeOrder(groups: seq<seq<string>>)
    ensures Orders(groups) != []
  {
    OrdersCount(groups);
    ProductPositive(groups);
  }

  lemma {:induction false} FactPositive(n: nat)
    ensures Fact(n) > 0
  {
    if n >= 2 { FactPositive(n - 1); }
  }

  lemma {:induction false} ProductPositive(groups: seq<seq<string>>)
    ensures Product(groups) > 0
  {
    if groups != [] {
      FactPositive(|groups[0]|);
      ProductPositive(groups[1..]);
    }
  }

  const MAX_BOUND := 1_000_000

  /** The canonical text, or the error it is refused with. */
  function CanonicalForm(lines: seq<Line>, bound: int, cfg: Config): Result {
    var nodes := Nodes(lines, cfg);
    var groups := AmbiguousGroups(lines, cfg);
    if bound < 1 || bound > MAX_BOUND then InvalidBound
    else if nodes == [] then Result.Text(Serialize(lines, map[], cfg))
    else if Product(groups) > bound then SearchLimit
    else
      SomeOrder(groups);
      Result.Text(Least(Candidates(lines, Orders(groups), cfg), cfg.textLt))
  }
}
