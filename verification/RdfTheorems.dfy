/** The canonical text decides isomorphism, and the search limit never tells isomorphic graphs apart. */
module RdfTheorems {
  import opened Wrappers
  import opened Sorting
  import opened Permutations
  import opened RdfCanonical
  import opened RdfIsomorphism

  // ------------------------------------------------------- colour groups

  lemma {:induction false} OfColorExact(nodes: seq<string>, colors: Coloring, color: string, n: string)
    ensures n in OfColor(nodes, colors, color) <==> n in nodes && n in colors && colors[n] == color
  {
    if nodes != [] {
      OfColorExact(nodes[1..], colors, color, n);
      assert nodes == [nodes[0]] + nodes[1..];
    }
  }

  lemma {:induction false} OfColorNoDup(nodes: seq<string>, colors: Coloring, color: string)
    requires NoDup(nodes)
    ensures NoDup(OfColor(nodes, colors, color))
  {
    if nodes != [] {
      OfColorNoDup(nodes[1..], colors, color);
      OfColorExact(nodes[1..], colors, color, nodes[0]);
    }
  }

  lemma {:induction false} ColorListExact(nodes: seq<string>, colors: Coloring, color: string)
    ensures color in ColorList(nodes, colors) <==> exists n :: n in nodes && n in colors && colors[n] == color
  {
    if nodes != [] {
      ColorListExact(nodes[1..], colors, color);
      assert nodes == [nodes[0]] + nodes[1..];
      if color in ColorList(nodes[1..], colors) {
        var n :| n in nodes[1..] && n in colors && colors[n] == color;
        assert n in nodes;
      }
      if n :| n in nodes && n in colors && colors[n] == color {
        if n != nodes[0] { assert n in nodes[1..]; }
      }
    }
  }

  function Flat(groups: seq<seq<string>>): seq<string> {
    if groups == [] then [] else groups[0] + Flat(groups[1..])
  }

  lemma {:induction false} FlatExact(palette: seq<string>, nodes: seq<string>, colors: Coloring, n: string)
    ensures n in Flat(GroupsOf(palette, nodes, colors)) <==> n in nodes && n in colors && colors[n] in palette
  {
    if palette != [] {
      var groups := GroupsOf(palette, nodes, colors);
      assert groups[1..] == GroupsOf(palette[1..], nodes, colors);
      OfColorExact(nodes, colors, palette[0], n);
      FlatExact(palette[1..], nodes, colors, n);
      assert palette == [palette[0]] + palette[1..];
    }
  }

  lemma {:induction false} FlatNoDup(palette: seq<string>, nodes: seq<string>, colors: Coloring)
    requires NoDup(palette) && NoDup(nodes)
    ensures NoDup(Flat(GroupsOf(palette, nodes, colors)))
  {
    if palette != [] {
      var groups := GroupsOf(palette, nodes, colors);
      assert groups[1..] == GroupsOf(palette[1..], nodes, colors);
      OfColorNoDup(nodes, colors, palette[0]);
      FlatNoDup(palette[1..], nodes, colors);
      forall n | n in groups[0] ensures n !in Flat(groups[1..]) {
        OfColorExact(nodes, colors, palette[0], n);
        FlatExact(palette[1..], nodes, colors, n);
      }
      AppendDistinct(groups[0], Flat(groups[1..]));
    }
  }

  lemma {:induction false} BlocksFlat(groups: seq<seq<string>>, order: seq<string>)
    requires Blocks(groups, order)
    ensures multiset(order) == multiset(Flat(groups))
  {
    if groups != [] {
      var n := |groups[0]|;
      BlocksFlat(groups[1..], order[n..]);
      assert order == order[..n] + order[n..];
    }
  }

  /** The groups partition the nodes. */
  lemma GroupsPartition(lines: seq<Line>, cfg: Config)
    requires Ordered(cfg)
    ensures multiset(Flat(AmbiguousGroups(lines, cfg))) == multiset(Nodes(lines, cfg))
    ensures AllNoDup(AmbiguousGroups(lines, cfg))
  {
    var nodes, colors := Nodes(lines, cfg), Colors(lines, cfg);
    var palette := SortUnique(ColorList(nodes, colors), cfg.colorLt);
    NodesExact(lines, cfg);
    ColorsKeys(lines, cfg);
    SortUniqueSorted(ColorList(nodes, colors), cfg.colorLt);
    FlatNoDup(palette, nodes, colors);
    forall n ensures n in Flat(AmbiguousGroups(lines, cfg)) <==> n in nodes {
      FlatExact(palette, nodes, colors, n);
      if n in nodes {
        assert n in Elements(nodes);
        ColorListExact(nodes, colors, colors[n]);
        assert colors[n] in Elements(palette);
      }
    }
    NoDupMultiset(Flat(AmbiguousGroups(lines, cfg)), nodes);
    forall i | 0 <= i < |palette| ensures NoDup(AmbiguousGroups(lines, cfg)[i]) {
      OfColorNoDup(nodes, colors, palette[i]);
    }
  }

  /** Every candidate labels each node exactly once. */
  lemma OrderIsPermutation(lines: seq<Line>, order: seq<string>, cfg: Config)
    requires Ordered(cfg) && order in Orders(AmbiguousGroups(lines, cfg))
    ensures multiset(order) == multiset(Nodes(lines, cfg)) && NoDup(order)
    ensures forall n :: n in order <==> Mentioned(lines, n)
  {
    OrdersExact(AmbiguousGroups(lines, cfg), order);
    BlocksFlat(AmbiguousGroups(lines, cfg), order);
    GroupsPartition(lines, cfg);
    NodesExact(lines, cfg);
    NoDupReordered(Nodes(lines, cfg), order);
    forall n ensures n in order <==> n in Nodes(lines, cfg) { assert n in order <==> n in multiset(order); }
  }

  lemma NoDupReordered<T>(xs: seq<T>, ys: seq<T>)
    requires NoDup(xs) && multiset(xs) == multiset(ys)
    ensures NoDup(ys)
  {
    forall i, j | 0 <= i < j < |ys| ensures ys[i] != ys[j] {
      NoDupCount(xs, ys[i]);
      WithoutMultiset(ys, i);
      assert Without(ys, i)[j - 1] == ys[j];
      assert ys[j] in multiset(Without(ys, i));
    }
  }

  /** The search tries as many distinct candidates as the product of the group factorials. */
  lemma CandidatesCounted(lines: seq<Line>, cfg: Config)
    requires Ordered(cfg)
    ensures |Orders(AmbiguousGroups(lines, cfg))| == Product(AmbiguousGroups(lines, cfg))
    ensures NoDup(Orders(AmbiguousGroups(lines, cfg)))
    ensures forall order :: order in Orders(AmbiguousGroups(lines, cfg)) <==> Blocks(AmbiguousGroups(lines, cfg), order)
  {
    var groups := AmbiguousGroups(lines, cfg);
    OrdersCount(groups);
    GroupsPartition(lines, cfg);
    OrdersDistinct(groups);
    forall order ensures order in Orders(groups) <==> Blocks(groups, order) { OrdersExact(groups, order); }
  }

  /** How many numberings of the blank nodes the search would try. */
  function Numberings(lines: seq<Line>, cfg: Config): nat { |Orders(AmbiguousGroups(lines, cfg))| }

  lemma NoNodesNoGroups(lines: seq<Line>, cfg: Config)
    requires Ordered(cfg) && Nodes(lines, cfg) == []
    ensures Numberings(lines, cfg) == 1
  {
    SortUniqueSorted<string>([], cfg.colorLt);
    assert AmbiguousGroups(lines, cfg) == [];
    CandidatesCounted(lines, cfg);
  }

  /** A graph is refused for an invalid bound, or for more numberings than the bound, and for nothing else. */
  lemma OutcomeByNumberings(lines: seq<Line>, bound: int, cfg: Config)
    requires Ordered(cfg)
    ensures CanonicalForm(lines, bound, cfg).InvalidBound? <==> !(1 <= bound <= 1_000_000)
    ensures CanonicalForm(lines, bound, cfg).SearchLimit? <==> 1 <= bound <= 1_000_000 && Numberings(lines, cfg) > bound
  {
    CandidatesCounted(lines, cfg);
    if Nodes(lines, cfg) == [] { NoNodesNoGroups(lines, cfg); }
  }

  lemma GroundNumberings(lines: seq<Line>, cfg: Config)
    requires Ordered(cfg) && forall n :: !Mentioned(lines, n)
    ensures Numberings(lines, cfg) == 1
  {
    NodesExact(lines, cfg);
    if Nodes(lines, cfg) != [] {
      assert Nodes(lines, cfg)[0] in Nodes(lines, cfg);
      assert Mentioned(lines, Nodes(lines, cfg)[0]);
    }
    NoNodesNoGroups(lines, cfg);
  }

  /** No numbering that the search tries gives a smaller text. */
  lemma SmallestText(lines: seq<Line>, bound: int, cfg: Config, order: seq<string>)
    requires Ordered(cfg) && CanonicalForm(lines, bound, cfg).Text? && order in Orders(AmbiguousGroups(lines, cfg))
    ensures !cfg.textLt(Serialize(lines, Labels(order), cfg), CanonicalForm(lines, bound, cfg).lines)
  {
    if Nodes(lines, cfg) == [] {
      OrderIsPermutation(lines, order, cfg);
      assert |multiset(order)| == |order| && order == [];
      assert Labels(order) == map[];
    } else {
      var orders := Orders(AmbiguousGroups(lines, cfg));
      var texts := Candidates(lines, orders, cfg);
      LeastIsLeast(texts, cfg.textLt);
      CandidateListed(lines, orders, order, cfg);
    }
  }

  // ---------------------------------------------------- groups follow f

  ghost predicate GroupsFollow(a: seq<seq<string>>, b: seq<seq<string>>, f: map<string, string>) {
    |a| == |b| && forall i :: 0 <= i < |a| ==> multiset(RenamedNames(a[i], f)) == multiset(b[i])
  }

  lemma GroupFollows(xs: seq<string>, ys: seq<string>, c: Coloring, d: Coloring, color: string, f: map<string, string>)
    requires Injective(f) && SameColors(Some(c), Some(d), f) && NoDup(xs) && NoDup(ys)
    requires Elements(xs) == f.Keys && Elements(ys) == f.Values
    ensures multiset(RenamedNames(OfColor(xs, c, color), f)) == multiset(OfColor(ys, d, color))
  {
    var a, b := OfColor(xs, c, color), OfColor(ys, d, color);
    OfColorNoDup(xs, c, color);
    OfColorNoDup(ys, d, color);
    forall n | n in a ensures n in f { OfColorExact(xs, c, color, n); }
    RenamedNoDup(a, f);
    var r := RenamedNames(a, f);
    forall m ensures m in r <==> m in b {
      OfColorExact(ys, d, color, m);
      if m in r {
        var i :| 0 <= i < |r| && r[i] == m;
        OfColorExact(xs, c, color, a[i]);
        assert m in Elements(ys);
      }
      if m in b {
        assert m in f.Values;
        var n :| n in f && f[n] == m;
        assert n in Elements(xs);
        OfColorExact(xs, c, color, n);
        var i :| 0 <= i < |a| && a[i] == n;
        assert r[i] == m;
      }
    }
    NoDupMultiset(r, b);
  }

  lemma PaletteFollows(xs: seq<string>, ys: seq<string>, c: Coloring, d: Coloring, f: map<string, string>, cfg: Config)
    requires Ordered(cfg) && SameColors(Some(c), Some(d), f) && Elements(xs) == f.Keys && Elements(ys) == f.Values
    ensures SortUnique(ColorList(xs, c), cfg.colorLt) == SortUnique(ColorList(ys, d), cfg.colorLt)
  {
    forall color ensures color in ColorList(xs, c) <==> color in ColorList(ys, d) {
      ColorListExact(xs, c, color);
      ColorListExact(ys, d, color);
      if n :| n in xs && n in c && c[n] == color { assert f[n] in f.Values; assert f[n] in ys; }
      if m :| m in ys && m in d && d[m] == color {
        var n :| n in f && f[n] == m;
        assert n in Elements(xs);
      }
    }
    assert Elements(ColorList(xs, c)) == Elements(ColorList(ys, d));
    SortUniqueIff(ColorList(xs, c), ColorList(ys, d), cfg.colorLt);
  }

  lemma AllGroupsFollow(left: seq<Line>, right: seq<Line>, f: map<string, string>, cfg: Config)
    requires Ordered(cfg) && Matches(left, right, f)
    ensures GroupsFollow(AmbiguousGroups(left, cfg), AmbiguousGroups(right, cfg), f)
  {
    var xs, ys, c, d := Nodes(left, cfg), Nodes(right, cfg), Colors(left, cfg), Colors(right, cfg);
    ElementsOfMultiset(RenamedLines(left, f), right);
    NodeSets(left, right, f, cfg);
    NodesExact(left, cfg);
    NodesExact(right, cfg);
    ColorsFollow(left, right, f, cfg);
    PaletteGroupsFollow(xs, ys, c, d, f, cfg);
  }

  lemma PaletteGroupsFollow(xs: seq<string>, ys: seq<string>, c: Coloring, d: Coloring, f: map<string, string>,
                            cfg: Config)
    requires Ordered(cfg) && Injective(f) && SameColors(Some(c), Some(d), f) && NoDup(xs) && NoDup(ys)
    requires Elements(xs) == f.Keys && Elements(ys) == f.Values
    ensures GroupsFollow(Groups(xs, c, cfg), Groups(ys, d, cfg), f)
  {
    PaletteFollows(xs, ys, c, d, f, cfg);
    var palette := SortUnique(ColorList(xs, c), cfg.colorLt);
    forall i | 0 <= i < |palette|
      ensures multiset(RenamedNames(OfColor(xs, c, palette[i]), f)) == multiset(OfColor(ys, d, palette[i]))
    {
      GroupFollows(xs, ys, c, d, palette[i], f);
    }
  }

  lemma {:induction false} ProductFollows(a: seq<seq<string>>, b: seq<seq<string>>, f: map<string, string>)
    requires GroupsFollow(a, b, f)
    ensures Product(a) == Product(b)
  {
    if a != [] {
      assert |RenamedNames(a[0], f)| == |multiset(RenamedNames(a[0], f))| == |multiset(b[0])| == |b[0]|;
      ProductFollows(a[1..], b[1..], f);
    }
  }

  lemma {:induction false} RenamedNamesMultiset(a: seq<string>, b: seq<string>, f: map<string, string>)
    requires multiset(a) == multiset(b)
    ensures multiset(RenamedNames(a, f)) == multiset(RenamedNames(b, f))
  {
    if a == [] {
      assert |multiset(b)| == |b|;
      assert RenamedNames(a, f) == RenamedNames(b, f);
    } else {
      assert a[0] in multiset(b);
      var i :| 0 <= i < |b| && b[i] == a[0];
      SameRest(a, b, i);
      RenamedNamesMultiset(a[1..], Without(b, i), f);
      RenamedHead(a, f);
      RenamedWithout(b, i, f);
    }
  }

  lemma RenamedHead(a: seq<string>, f: map<string, string>)
    requires a != []
    ensures multiset(RenamedNames(a, f)) == multiset{RenamedNames(a, f)[0]} + multiset(RenamedNames(a[1..], f))
  {
    SplitHead(RenamedNames(a, f));
    assert RenamedNames(a, f)[1..] == RenamedNames(a[1..], f);
  }

  lemma RenamedWithout(b: seq<string>, i: nat, f: map<string, string>)
    requires i < |b|
    ensures multiset(RenamedNames(b, f)) == multiset(RenamedNames(Without(b, i), f)) + multiset{RenamedNames(b, f)[i]}
  {
    WithoutMultiset(RenamedNames(b, f), i);
    assert Without(RenamedNames(b, f), i) == RenamedNames(Without(b, i), f);
  }

  lemma {:induction false} BlocksFollow(a: seq<seq<string>>, b: seq<seq<string>>, order: seq<string>,
                                        f: map<string, string>)
    requires GroupsFollow(a, b, f) && Blocks(a, order)
    ensures Blocks(b, RenamedNames(order, f))
  {
    if a != [] {
      var n, renamed := |a[0]|, RenamedNames(order, f);
      RenamedNamesMultiset(order[..n], a[0], f);
      assert |RenamedNames(a[0], f)| == |multiset(RenamedNames(a[0], f))| == |multiset(b[0])| == |b[0]|;
      assert renamed[..n] == RenamedNames(order[..n], f);
      assert renamed[n..] == RenamedNames(order[n..], f);
      BlocksFollow(a[1..], b[1..], order[n..], f);
    }
  }

  // ------------------------------------------------ serializations follow

  lemma LabelsFollow(order: seq<string>, f: map<string, string>, n: string)
    requires NoDup(order) && Injective(f) && (forall m :: m in order ==> m in f) && n in order
    ensures n in Labels(order) && f[n] in Labels(RenamedNames(order, f))
    ensures Labels(RenamedNames(order, f))[f[n]] == Labels(order)[n]
  {
    var renamed := RenamedNames(order, f);
    var i :| 0 <= i < |order| && order[i] == n;
    var l, r := Labels(order), Labels(renamed);
    assert renamed[i] == f[n] && renamed[i] in r;
    assert order[l[n]] == n;
    assert renamed[r[f[n]]] == f[n];
    assert order[r[f[n]]] in f;
    assert order[r[f[n]]] == n;
  }

  lemma LineFollows(line: Line, order: seq<string>, f: map<string, string>)
    requires NoDup(order) && Injective(f) && (forall m :: m in order ==> m in f) && forall m :: Mentions(line, m) ==>
      m in order
    ensures RelabelledLine(RenamedLine(line, f), Labels(RenamedNames(order, f))) == RelabelledLine(line, Labels(order))
  {
    var renamed := RenamedLine(line, f);
    forall i | 0 <= i < |line|
      ensures Relabelled(renamed[i], Labels(RenamedNames(order, f))) == Relabelled(line[i], Labels(order))
    {
      if line[i].Node? {
        assert Mentions(line, line[i].name);
        LabelsFollow(order, f, line[i].name);
      }
    }
  }

  lemma LinesFollow(left: seq<Line>, order: seq<string>, f: map<string, string>)
    requires Renaming(left, f) && NoDup(order) && forall n :: n in order <==> Mentioned(left, n)
    ensures RelabelledLines(RenamedLines(left, f), Labels(RenamedNames(order, f)))
      == RelabelledLines(left, Labels(order))
  {
    var renamed := RenamedLines(left, f);
    forall i | 0 <= i < |left|
      ensures RelabelledLine(renamed[i], Labels(RenamedNames(order, f))) == RelabelledLine(left[i], Labels(order))
    {
      LineCovered(left, f, i);
      forall m | Mentions(left[i], m) ensures m in order { assert Mentioned(left, m); }
      LineFollows(left[i], order, f);
    }
  }

  lemma SerializeFollows(left: seq<Line>, right: seq<Line>, order: seq<string>, f: map<string, string>, cfg: Config)
    requires Ordered(cfg) && Matches(left, right, f) && NoDup(order) && forall n :: n in order <==> Mentioned(left, n)
    ensures Serialize(left, Labels(order), cfg) == Serialize(right, Labels(RenamedNames(order, f)), cfg)
  {
    var labels := Labels(RenamedNames(order, f));
    LinesFollow(left, order, f);
    ElementsOfMultiset(RenamedLines(left, f), right);
    RelabelledElements(RenamedLines(left, f), right, labels);
    SortUniqueIff(RelabelledLines(left, Labels(order)), RelabelledLines(right, labels), cfg.lineLt);
  }

  lemma RelabelledElements(a: seq<Line>, b: seq<Line>, labels: map<string, nat>)
    requires Elements(a) == Elements(b)
    ensures Elements(RelabelledLines(a, labels)) == Elements(RelabelledLines(b, labels))
  {
    RelabelledWithin(a, b, labels);
    RelabelledWithin(b, a, labels);
  }

  lemma RelabelledWithin(a: seq<Line>, b: seq<Line>, labels: map<string, nat>)
    requires Elements(a) == Elements(b)
    ensures Elements(RelabelledLines(a, labels)) <= Elements(RelabelledLines(b, labels))
  {
    var p, q := RelabelledLines(a, labels), RelabelledLines(b, labels);
    forall line | line in p ensures line in q {
      var i :| 0 <= i < |p| && p[i] == line;
      assert a[i] in Elements(b);
      var j :| 0 <= j < |b| && b[j] == a[i];
      assert q[j] == line;
    }
  }

  // ------------------------------------------------------- completeness

  lemma OrderFollows(left: seq<Line>, right: seq<Line>, order: seq<string>, f: map<string, string>, cfg: Config)
    requires Ordered(cfg) && Matches(left, right, f) && order in Orders(AmbiguousGroups(left, cfg))
    ensures RenamedNames(order, f) in Orders(AmbiguousGroups(right, cfg))
  {
    OrdersExact(AmbiguousGroups(left, cfg), order);
    AllGroupsFollow(left, right, f, cfg);
    BlocksFollow(AmbiguousGroups(left, cfg), AmbiguousGroups(right, cfg), order, f);
    OrdersExact(AmbiguousGroups(right, cfg), RenamedNames(order, f));
  }

  lemma CandidateFollows(left: seq<Line>, right: seq<Line>, order: seq<string>, f: map<string, string>, cfg: Config)
    requires Ordered(cfg) && Matches(left, right, f) && order in Orders(AmbiguousGroups(left, cfg))
    ensures Serialize(left, Labels(order), cfg) in Candidates(right, Orders(AmbiguousGroups(right, cfg)), cfg)
  {
    OrderIsPermutation(left, order, cfg);
    SerializeFollows(left, right, order, f, cfg);
    OrderFollows(left, right, order, f, cfg);
    CandidateListed(right, Orders(AmbiguousGroups(right, cfg)), RenamedNames(order, f), cfg);
  }

  lemma CandidateListed(lines: seq<Line>, orders: seq<seq<string>>, order: seq<string>, cfg: Config)
    requires order in orders
    ensures Serialize(lines, Labels(order), cfg) in Candidates(lines, orders, cfg)
  {
    var j :| 0 <= j < |orders| && orders[j] == order;
    assert Candidates(lines, orders, cfg)[j] == Serialize(lines, Labels(order), cfg);
  }

  lemma CandidatesWithin(left: seq<Line>, right: seq<Line>, f: map<string, string>, cfg: Config)
    requires Ordered(cfg) && Matches(left, right, f)
    ensures Elements(Candidates(left, Orders(AmbiguousGroups(left, cfg)), cfg))
         <= Elements(Candidates(right, Orders(AmbiguousGroups(right, cfg)), cfg))
  {
    var orders := Orders(AmbiguousGroups(left, cfg));
    var texts := Candidates(left, orders, cfg);
    forall text | text in texts ensures text in Candidates(right, Orders(AmbiguousGroups(right, cfg)), cfg) {
      var i :| 0 <= i < |texts| && texts[i] == text;
      CandidateFollows(left, right, orders[i], f, cfg);
    }
  }

  /** Graphs that differ by a renaming get the same answer: the same text, or the same refusal. */
  lemma RenamingInvariant(left: seq<Line>, right: seq<Line>, f: map<string, string>, bound: int, cfg: Config)
    requires Ordered(cfg) && Matches(left, right, f)
    ensures CanonicalForm(left, bound, cfg) == CanonicalForm(right, bound, cfg)
  {
    var a, b := AmbiguousGroups(left, cfg), AmbiguousGroups(right, cfg);
    ElementsOfMultiset(RenamedLines(left, f), right);
    NodeSets(left, right, f, cfg);
    AllGroupsFollow(left, right, f, cfg);
    ProductFollows(a, b, f);
    if Nodes(left, cfg) == [] {
      NodesExact(left, cfg);
      SerializeFollows(left, right, [], f, cfg);
    } else {
      InverseMatches(left, right, f);
      CandidatesWithin(left, right, f, cfg);
      CandidatesWithin(right, left, Inverse(f), cfg);
      SomeOrder(a);
      SomeOrder(b);
      LeastOfSame(Candidates(left, Orders(a), cfg), Candidates(right, Orders(b), cfg), cfg.textLt);
    }
  }

  // ---------------------------------------------------------- soundness

  /** The text of a graph is one of its serializations under a numbering of its nodes. */
  lemma TextHasOrder(lines: seq<Line>, bound: int, cfg: Config) returns (order: seq<string>)
    requires Ordered(cfg) && CanonicalForm(lines, bound, cfg).Text?
    ensures NoDup(order) && forall n :: n in order <==> Mentioned(lines, n)
    ensures CanonicalForm(lines, bound, cfg).lines == Serialize(lines, Labels(order), cfg)
  {
    NodesExact(lines, cfg);
    if Nodes(lines, cfg) == [] {
      order := [];
    } else {
      var orders := Orders(AmbiguousGroups(lines, cfg));
      SomeOrder(AmbiguousGroups(lines, cfg));
      var texts := Candidates(lines, orders, cfg);
      LeastIsLeast(texts, cfg.textLt);
      var i :| 0 <= i < |texts| && texts[i] == Least(texts, cfg.textLt);
      order := orders[i];
      OrderIsPermutation(lines, order, cfg);
    }
  }

  /** The renaming that sends the node numbered `i` on the left to the node numbered `i` on the right. */
  function Transfer(from: seq<string>, to: seq<string>): map<string, string> {
    map n | n in Labels(from) && Labels(from)[n] < |to| :: to[Labels(from)[n]]
  }

  /** Lines that relabel alike correspond under the transfer. */
  lemma RelabelledAlike(g: Line, h: Line, from: seq<string>, to: seq<string>)
    requires RelabelledLine(g, Labels(from)) == RelabelledLine(h, Labels(to))
    requires (forall n :: Mentions(g, n) ==> n in from) && (forall n :: Mentions(h, n) ==> n in to)
    ensures RenamedLine(g, Transfer(from, to)) == h
    ensures forall n :: Mentions(g, n) ==> n in Transfer(from, to)
  {
    var r := RelabelledLine(g, Labels(from));
    forall i | 0 <= i < |g|
      ensures RenamedToken(g[i], Transfer(from, to)) == h[i] && (g[i].Node? ==> g[i].name in Transfer(from, to))
    {
      assert r[i] == Relabelled(g[i], Labels(from)) && r[i] == Relabelled(h[i], Labels(to));
      if g[i].Node? {
        assert Mentions(g, g[i].name);
        assert h[i].Node? && Mentions(h, h[i].name);
      }
    }
  }

  lemma MatchingLine(left: seq<Line>, right: seq<Line>, from: seq<string>, to: seq<string>, i: nat, cfg: Config)
    returns (j: nat)
    requires Ordered(cfg) && i < |left|
    requires forall n :: Mentioned(left, n) ==> n in from
    requires forall n :: Mentioned(right, n) ==> n in to
    requires Serialize(left, Labels(from), cfg) == Serialize(right, Labels(to), cfg)
    ensures j < |right| && RenamedLine(left[i], Transfer(from, to)) == right[j]
    ensures RenamedLine(right[j], Transfer(to, from)) == left[i]
    ensures forall n :: Mentions(left[i], n) ==> n in Transfer(from, to)
  {
    var p, q := RelabelledLines(left, Labels(from)), RelabelledLines(right, Labels(to));
    SortUniqueIff(p, q, cfg.lineLt);
    assert p[i] in Elements(q);
    j :| 0 <= j < |q| && q[j] == p[i];
    forall n | Mentions(left[i], n) ensures n in from { assert Mentioned(left, n); }
    forall n | Mentions(right[j], n) ensures n in to { assert Mentioned(right, n); }
    RelabelledAlike(left[i], right[j], from, to);
    RelabelledAlike(right[j], left[i], to, from);
  }

  lemma TransferRenames(left: seq<Line>, right: seq<Line>, from: seq<string>, to: seq<string>, cfg: Config)
    requires Ordered(cfg) && NoDup(from) && NoDup(to)
    requires forall n :: n in from <==> Mentioned(left, n)
    requires forall n :: n in to <==> Mentioned(right, n)
    requires Serialize(left, Labels(from), cfg) == Serialize(right, Labels(to), cfg)
    ensures Renaming(left, Transfer(from, to))
  {
    var f := Transfer(from, to);
    forall x, y | x in f && y in f && f[x] == f[y] ensures x == y {
      var i, j := Labels(from)[x], Labels(from)[y];
      assert to[i] == to[j];
      assert from[i] == x && from[j] == y;
    }
    forall n ensures n in f <==> Mentioned(left, n) {
      if Mentioned(left, n) {
        var i :| 0 <= i < |left| && Mentions(left[i], n);
        var j := MatchingLine(left, right, from, to, i, cfg);
      }
      if n in f { assert n in Labels(from); }
    }
  }

  lemma TransferCarries(left: seq<Line>, right: seq<Line>, from: seq<string>, to: seq<string>, cfg: Config)
    requires Ordered(cfg)
    requires forall n :: Mentioned(left, n) ==> n in from
    requires forall n :: Mentioned(right, n) ==> n in to
    requires Serialize(left, Labels(from), cfg) == Serialize(right, Labels(to), cfg)
    ensures Elements(RenamedLines(left, Transfer(from, to))) == Elements(right)
  {
    var renamed := RenamedLines(left, Transfer(from, to));
    forall line ensures line in renamed <==> line in right {
      if line in renamed {
        var i :| 0 <= i < |renamed| && renamed[i] == line;
        var j := MatchingLine(left, right, from, to, i, cfg);
      }
      if line in right {
        var j :| 0 <= j < |right| && right[j] == line;
        var i := MatchingLine(right, left, to, from, j, cfg);
        assert renamed[i] == line;
      }
    }
  }

  /** Equal texts come only from isomorphic graphs: no hash collision and no tie in the search can hide a difference. */
  lemma EqualTextsAreIsomorphic(left: seq<Line>, right: seq<Line>, bound: int, cfg: Config)
    requires Ordered(cfg) && CanonicalForm(left, bound, cfg).Text?
    requires CanonicalForm(left, bound, cfg) == CanonicalForm(right, bound, cfg)
    ensures Isomorphic(left, right)
  {
    var from := TextHasOrder(left, bound, cfg);
    var to := TextHasOrder(right, bound, cfg);
    TransferRenames(left, right, from, to, cfg);
    TransferCarries(left, right, from, to, cfg);
  }

  // ------------------------------------------------------- main theorem

  lemma DuplicateFreeMatches(left: seq<Line>, right: seq<Line>, f: map<string, string>)
    requires NoDup(left) && NoDup(right) && Renaming(left, f) && Elements(RenamedLines(left, f)) == Elements(right)
    ensures Matches(left, right, f)
  {
    var renamed := RenamedLines(left, f);
    InverseInverts(f);
    RenamedBack(left, f);
    forall i, j | 0 <= i < j < |renamed| ensures renamed[i] != renamed[j] {
      assert left[i] == RenamedLine(renamed[i], Inverse(f)) && left[j] == RenamedLine(renamed[j], Inverse(f));
    }
    NoDupMultiset(renamed, right);
  }

  /** Isomorphic graphs without repeated lines are both refused or both rendered, and then alike. */
  lemma IsomorphicAlike(left: seq<Line>, right: seq<Line>, bound: int, cfg: Config)
    requires Ordered(cfg) && NoDup(left) && NoDup(right) && Isomorphic(left, right)
    ensures CanonicalForm(left, bound, cfg) == CanonicalForm(right, bound, cfg)
  {
    var f :| Renaming(left, f) && Elements(RenamedLines(left, f)) == Elements(right);
    DuplicateFreeMatches(left, right, f);
    RenamingInvariant(left, right, f, bound, cfg);
  }

  /** Within the search limit, the canonical text decides isomorphism, for any hash function. */
  lemma DecidesIsomorphism(left: seq<Line>, right: seq<Line>, bound: int, cfg: Config)
    requires Ordered(cfg) && NoDup(left) && NoDup(right)
    requires CanonicalForm(left, bound, cfg).Text? || CanonicalForm(right, bound, cfg).Text?
    ensures CanonicalForm(left, bound, cfg) == CanonicalForm(right, bound, cfg) <==> Isomorphic(left, right)
  {
    if CanonicalForm(left, bound, cfg) == CanonicalForm(right, bound, cfg) {
      EqualTextsAreIsomorphic(left, right, bound, cfg);
    }
    if Isomorphic(left, right) { IsomorphicAlike(left, right, bound, cfg); }
  }

  // ----------------------------------------------------------- the diff

  datatype Difference = Lines(leftOnly: set<seq<Token<Label>>>, rightOnly: set<seq<Token<Label>>>) | Refused

  function Diff(left: seq<Line>, right: seq<Line>, bound: int, cfg: Config): Difference {
    var a, b := CanonicalForm(left, bound, cfg), CanonicalForm(right, bound, cfg);
    if a.Text? && b.Text? then
      Difference.Lines(
        set line | line in a.lines && line !in b.lines,
        set line | line in b.lines && line !in a.lines)
    else Refused
  }

  lemma TextAscending(lines: seq<Line>, bound: int, cfg: Config)
    requires Ordered(cfg) && CanonicalForm(lines, bound, cfg).Text?
    ensures Ascending(CanonicalForm(lines, bound, cfg).lines, cfg.lineLt)
  {
    var order := TextHasOrder(lines, bound, cfg);
    SortUniqueSorted(RelabelledLines(lines, Labels(order)), cfg.lineLt);
  }

  lemma EmptyDiffSameText(left: seq<Line>, right: seq<Line>, bound: int, cfg: Config)
    requires Ordered(cfg) && Diff(left, right, bound, cfg).Lines?
    ensures Diff(left, right, bound, cfg) == Difference.Lines({}, {})
       <==> CanonicalForm(left, bound, cfg) == CanonicalForm(right, bound, cfg)
  {
    var a, b := CanonicalForm(left, bound, cfg).lines, CanonicalForm(right, bound, cfg).lines;
    var leftOnly := set line | line in a && line !in b;
    var rightOnly := set line | line in b && line !in a;
    assert Diff(left, right, bound, cfg) == Difference.Lines(leftOnly, rightOnly);
    if Diff(left, right, bound, cfg) == Difference.Lines({}, {}) {
      TextAscending(left, bound, cfg);
      TextAscending(right, bound, cfg);
      assert forall line :: line in a && line !in b ==> line in leftOnly;
      assert forall line :: line in b && line !in a ==> line in rightOnly;
      assert forall line :: line in a <==> line in b;
      AscendingUnique(a, b, cfg.lineLt);
    }
  }

  /** An empty inventory of differences proves the graphs isomorphic, repeated lines or not. */
  lemma EmptyDiffIsSound(left: seq<Line>, right: seq<Line>, bound: int, cfg: Config)
    requires Ordered(cfg) && Diff(left, right, bound, cfg) == Difference.Lines({}, {})
    ensures Isomorphic(left, right)
  {
    EmptyDiffSameText(left, right, bound, cfg);
    EqualTextsAreIsomorphic(left, right, bound, cfg);
  }

  /** For graphs without repeated lines the inventory is empty exactly when they are isomorphic. */
  lemma EmptyDiffMeansIsomorphic(left: seq<Line>, right: seq<Line>, bound: int, cfg: Config)
    requires Ordered(cfg) && NoDup(left) && NoDup(right) && Diff(left, right, bound, cfg).Lines?
    ensures Diff(left, right, bound, cfg) == Difference.Lines({}, {}) <==> Isomorphic(left, right)
  {
    EmptyDiffSameText(left, right, bound, cfg);
    DecidesIsomorphism(left, right, bound, cfg);
  }
}
