/** The canonicalization loops, each proved to compute the specification. */
module RdfCanonicalization {
  import opened Wrappers
  import opened Sorting
  import opened Permutations
  import opened RdfCanonical
  import opened RdfTheorems
  import opened RdfRefinement

  lemma {:induction false} OfColorSnoc(nodes: seq<string>, node: string, colors: Coloring, color: string)
    ensures OfColor(nodes + [node], colors, color)
         == OfColor(nodes, colors, color) + (if node in colors && colors[node] == color then [node] else [])
  {
    if nodes != [] {
      OfColorSnoc(nodes[1..], node, colors, color);
      assert (nodes + [node])[1..] == nodes[1..] + [node];
    }
  }

  lemma {:induction false} ColorListSnoc(nodes: seq<string>, node: string, colors: Coloring)
    ensures ColorList(nodes + [node], colors) == ColorList(nodes, colors)
      + (if node in colors then [colors[node]] else [])
  {
    if nodes != [] {
      ColorListSnoc(nodes[1..], node, colors);
      assert (nodes + [node])[1..] == nodes[1..] + [node];
    }
  }

  /** A map whose entries are the colour classes of `nodes`. */
  ghost predicate Classes(grouped: map<string, seq<string>>, nodes: seq<string>, colors: Coloring) {
    && grouped.Keys == Elements(ColorList(nodes, colors))
    && forall c :: c in grouped ==> grouped[c] == OfColor(nodes, colors, c)
  }

  lemma ClassesGrow(grouped: map<string, seq<string>>, nodes: seq<string>, node: string, colors: Coloring)
    requires Classes(grouped, nodes, colors) && node in colors
    ensures Classes(
      grouped[colors[node] := (if colors[node] in grouped then grouped[colors[node]] else []) + [node]], nodes + [node],
        colors)
  {
    var color := colors[node];
    ColorListSnoc(nodes, node, colors);
    assert Elements(ColorList(nodes, colors) + [color]) == Elements(ColorList(nodes, colors)) + {color};
    forall c
      ensures OfColor(nodes + [node], colors, c) == OfColor(nodes, colors, c) + (if c == color then [node] else [])
    {
      OfColorSnoc(nodes, node, colors, c);
    }
    if color !in grouped {
      assert color !in ColorList(nodes, colors);
      ColorListExact(nodes, colors, color);
      if OfColor(nodes, colors, color) != [] {
        OfColorExact(nodes, colors, color, OfColor(nodes, colors, color)[0]);
      }
    }
  }

  method GroupByColor(nodes: seq<string>, colors: Coloring) returns (grouped: map<string, seq<string>>)
    requires forall n :: n in nodes ==> n in colors
    ensures Classes(grouped, nodes, colors)
  {
    grouped := map[];
    for i := 0 to |nodes|
      invariant Classes(grouped, nodes[..i], colors)
    {
      var color := colors[nodes[i]];
      ClassesGrow(grouped, nodes[..i], nodes[i], colors);
      assert nodes[..i] + [nodes[i]] == nodes[..i + 1];
      grouped := grouped[color := (if color in grouped then grouped[color] else []) + [nodes[i]]];
    }
    assert nodes[..|nodes|] == nodes;
  }

  /** The refinement loop: at most `rounds` rounds, left early once a round changes no colour. */
  method Stabilize(step: Coloring -> Coloring, start: Coloring, rounds: nat) returns (colors: Coloring)
    ensures colors == Iterate(step, start, rounds)
  {
    colors := start;
    var round := 0;
    while round < rounds
      invariant round <= rounds
      invariant Iterate(step, colors, rounds - round) == Iterate(step, start, rounds)
    {
      var next := step(colors);
      if next == colors { break; }
      colors := next;
      round := round + 1;
    }
  }

  method SortedGroups(nodes: seq<string>, colors: Coloring, cfg: Config) returns (groups: seq<seq<string>>)
    requires Ordered(cfg) && forall n :: n in nodes ==> n in colors
    ensures groups == Groups(nodes, colors, cfg)
  {
    var grouped := GroupByColor(nodes, colors);
    var palette := SortUnique(ColorList(nodes, colors), cfg.colorLt);
    SortUniqueSorted(ColorList(nodes, colors), cfg.colorLt);
    groups := [];
    for i := 0 to |palette|
      invariant groups == GroupsOf(palette, nodes, colors)[..i]
    {
      assert palette[i] in Elements(palette);
      groups := groups + [grouped[palette[i]]];
    }
  }

  method Combinations(groups: seq<seq<string>>) returns (product: nat)
    ensures product == Product(groups)
  {
    product := 1;
    for i := 0 to |groups|
      invariant product * Product(groups[i..]) == Product(groups)
    {
      var factor := Factorial(|groups[i]|);
      assert groups[i..][1..] == groups[i + 1..];
      Associate(product, factor, Product(groups[i + 1..]));
      product := product * factor;
    }
  }

  lemma Associate(a: nat, b: nat, c: nat)
    ensures a * (b * c) == (a * b) * c
  {}

  method SmallestCandidate(lines: seq<Line>, orders: seq<seq<string>>, cfg: Config) returns (best: Output)
    requires orders != []
    ensures best == Least(Candidates(lines, orders, cfg), cfg.textLt)
  {
    var texts := Candidates(lines, orders, cfg);
    best := Serialize(lines, Labels(orders[0]), cfg);
    assert texts[..1] == [best];
    for i := 1 to |orders|
      invariant best == Least(texts[..i], cfg.textLt)
    {
      var candidate := Serialize(lines, Labels(orders[i]), cfg);
      assert texts[..i + 1][..i] == texts[..i];
      if cfg.textLt(candidate, best) { best := candidate; }
    }
    assert texts[..|orders|] == texts;
  }

  method Search(lines: seq<Line>, groups: seq<seq<string>>, cfg: Config) returns (best: Output)
    ensures Orders(groups) != [] && best == Least(Candidates(lines, Orders(groups), cfg), cfg.textLt)
  {
    var orders := ListOrders(groups, 0, []);
    assert groups[0..] == groups;
    forall i | 0 <= i < |orders|
      ensures orders[i] == Orders(groups)[i]
    {
      assert [] + Orders(groups)[i] == Orders(groups)[i];
    }
    assert orders == Orders(groups);
    SomeOrder(groups);
    best := SmallestCandidate(lines, orders, cfg);
  }

  method ColorGroups(lines: seq<Line>, nodes: seq<string>, cfg: Config) returns (groups: seq<seq<string>>)
    requires Ordered(cfg) && nodes == Nodes(lines, cfg)
    ensures groups == AmbiguousGroups(lines, cfg)
  {
    var colors := Stabilize(Recoloring(nodes, lines, cfg), Recolor(nodes, lines, None, cfg), |nodes| + 1);
    assert colors == Colors(lines, cfg);
    ColorsKeys(lines, cfg);
    forall n | n in nodes ensures n in colors { assert n in Elements(nodes); }
    groups := SortedGroups(nodes, colors, cfg);
  }

  /** The outcome for every graph and bound, and that refinement is enough where it tells all nodes apart. */
  lemma Outcome(lines: seq<Line>, bound: int, cfg: Config)
    requires Ordered(cfg)
    ensures CanonicalForm(lines, bound, cfg).InvalidBound? <==> !(1 <= bound <= 1_000_000)
    ensures 1 <= bound <= 1_000_000 ==>
      (CanonicalForm(lines, bound, cfg).SearchLimit? <==> Numberings(lines, cfg) > bound)
    ensures 1 <= bound <= 1_000_000 && ToldApart(lines) && Separates(lines, cfg) ==>
      CanonicalForm(lines, bound, cfg).Text?
  {
    OutcomeByNumberings(lines, bound, cfg);
    if 1 <= bound <= 1_000_000 && ToldApart(lines) && Separates(lines, cfg) { ToldApartIsRendered(lines, bound, cfg); }
  }

  /** `canonicalizeRdfGraph`, from the bound check to the smallest candidate. */
  method CanonicalizeRdfGraph(lines: seq<Line>, bound: int, cfg: Config) returns (result: Result)
    requires Ordered(cfg)
    ensures result == CanonicalForm(lines, bound, cfg)
    ensures result.InvalidBound? <==> !(1 <= bound <= 1_000_000)
    ensures 1 <= bound <= 1_000_000 ==> (result.SearchLimit? <==> Numberings(lines, cfg) > bound)
    ensures 1 <= bound <= 1_000_000 && ToldApart(lines) && Separates(lines, cfg) ==> result.Text?
  {
    Outcome(lines, bound, cfg);
    if bound < 1 || bound > MAX_BOUND { return InvalidBound; }
    var nodes := Nodes(lines, cfg);
    if |nodes| == 0 { return Result.Text(Serialize(lines, map[], cfg)); }
    var groups := ColorGroups(lines, nodes, cfg);
    var combinations := Combinations(groups);
    if combinations > bound { return SearchLimit; }
    var best := Search(lines, groups, cfg);
    result := Result.Text(best);
  }
}
