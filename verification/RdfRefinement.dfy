/**
  What colour refinement achieves: the final colours are exactly the classes of
  nodes with equal iterated neighbourhoods.
 */
module RdfRefinement {
  import opened Wrappers
  import opened Sorting
  import opened Permutations
  import opened RdfCanonical
  import opened RdfIsomorphism
  import opened RdfTheorems

  // ------------------------------------------------ neighbourhoods of a node

  type Relation = (string, string) -> bool

  /** The lines that mention `node`, each as often as the graph has it. */
  ghost function Around(lines: seq<Line>, node: string): seq<Line> {
    if lines == [] then []
    else (if Mentions(lines[0], node) then [lines[0]] else []) + Around(lines[1..], node)
  }

  /** The same text, or a blank node each: the node itself on both sides, or other nodes that `same` relates. */
  predicate SameToken(a: Token<string>, u: string, b: Token<string>, v: string, same: Relation) {
    match a
    case Text(_) => b == a
    case Node(x) => b.Node? && (x == u <==> b.name == v) && (x != u ==> same(x, b.name))
  }

  predicate SameLine(a: Line, u: string, b: Line, v: string, same: Relation) {
    |a| == |b| && forall i :: 0 <= i < |a| ==> SameToken(a[i], u, b[i], v, same)
  }

  predicate Paired(xs: seq<Line>, u: string, ys: seq<Line>, v: string, same: Relation) {
    |xs| == |ys| && forall i :: 0 <= i < |xs| ==> SameLine(xs[i], u, ys[i], v, same)
  }

  /** The lines around `u` and around `v` can be paired off, place by place, up to `same`. */
  ghost predicate SameNeighbourhood(lines: seq<Line>, u: string, v: string, same: Relation) {
    exists ys: seq<Line> :: multiset(ys) == multiset(Around(lines, v)) && Paired(Around(lines, u), u, ys, v, same)
  }

  lemma {:induction false} AroundExact(lines: seq<Line>, node: string, line: Line)
    ensures line in Around(lines, node) <==> line in lines && Mentions(line, node)
  {
    if lines != [] {
      AroundExact(lines[1..], node, line);
      assert lines == [lines[0]] + lines[1..];
    }
  }

  /** A relation may be replaced by one that holds of the same nodes of the graph. */
  lemma NeighbourhoodMonotone(lines: seq<Line>, u: string, v: string, same: Relation, wider: Relation)
    requires forall x, y :: Mentioned(lines, x) && Mentioned(lines, y) && same(x, y) ==> wider(x, y)
    requires SameNeighbourhood(lines, u, v, same)
    ensures SameNeighbourhood(lines, u, v, wider)
  {
    var xs := Around(lines, u);
    var ys: seq<Line> :| multiset(ys) == multiset(Around(lines, v)) && Paired(xs, u, ys, v, same);
    forall i | 0 <= i < |xs| ensures SameLine(xs[i], u, ys[i], v, wider) {
      assert ys[i] in multiset(ys);
      AroundExact(lines, u, xs[i]);
      AroundExact(lines, v, ys[i]);
      MentionedIn(lines, xs[i]);
      MentionedIn(lines, ys[i]);
      assert SameLine(xs[i], u, ys[i], v, same);
      forall k | 0 <= k < |xs[i]| ensures SameToken(xs[i][k], u, ys[i][k], v, wider) {
        assert SameToken(xs[i][k], u, ys[i][k], v, same);
        if xs[i][k].Node? { assert Mentions(xs[i], xs[i][k].name) && Mentions(ys[i], ys[i][k].name); }
      }
    }
    assert Paired(xs, u, ys, v, wider);
  }

  lemma MentionedIn(lines: seq<Line>, line: Line)
    requires line in lines
    ensures forall n :: Mentions(line, n) ==> Mentioned(lines, n)
  {
    var i :| 0 <= i < |lines| && lines[i] == line;
  }

  // -------------------------------------------- signatures as neighbourhoods

  function MarkedLines(xs: seq<Line>, node: string, c: Option<Coloring>): (r: seq<SignatureLine>)
    ensures |r| == |xs| && forall i :: 0 <= i < |r| ==> r[i] == MarkedLine(xs[i], node, c)
  {
    seq(|xs|, i requires 0 <= i < |xs| => MarkedLine(xs[i], node, c))
  }

  lemma MarkedCons(line: Line, tail: seq<Line>, node: string, c: Option<Coloring>)
    ensures multiset(MarkedLines([line] + tail, node, c))
         == multiset{MarkedLine(line, node, c)} + multiset(MarkedLines(tail, node, c))
  {
    assert MarkedLines([line] + tail, node, c) == [MarkedLine(line, node, c)] + MarkedLines(tail, node, c);
  }

  lemma {:induction false} SignatureIsMarked(lines: seq<Line>, node: string, c: Option<Coloring>)
    ensures Signature(node, lines, c) == multiset(MarkedLines(Around(lines, node), node, c))
  {
    if lines == [] {
      assert MarkedLines([], node, c) == [];
    } else {
      SignatureIsMarked(lines[1..], node, c);
      BlankNodesExact(lines[0], node);
      AroundStep(lines, node);
      MarkedCons(lines[0], Around(lines[1..], node), node, c);
      SignatureStep(lines, node, c);
    }
  }

  lemma AroundStep(lines: seq<Line>, node: string)
    requires lines != []
    ensures Around(lines, node)
         == if Mentions(lines[0], node) then [lines[0]] + Around(lines[1..], node) else Around(lines[1..], node)
  {}

  lemma SignatureStep(lines: seq<Line>, node: string, c: Option<Coloring>)
    requires lines != []
    ensures Signature(node, lines, c) == OwnLine(node, lines[0], c) + Signature(node, lines[1..], c)
  {}

  /** `same` says of the nodes of the graph what the colours say. */
  ghost predicate Describes(lines: seq<Line>, c: Option<Coloring>, same: Relation) {
    forall x, y :: Mentioned(lines, x) && Mentioned(lines, y) ==>
      && (c.Some? ==> x in c.value)
      && (same(x, y) <==> c.None? || (x in c.value && y in c.value && c.value[x] == c.value[y]))
  }

  lemma MarkedTokens(a: Token<string>, u: string, b: Token<string>, v: string, c: Option<Coloring>, same: Relation)
    requires a.Node? && c.Some? ==> a.name in c.value
    requires b.Node? && c.Some? ==> b.name in c.value
    requires a.Node? && b.Node? ==>
      (same(a.name, b.name) <==> c.None? || (c.value[a.name] == c.value[b.name]))
    ensures Marked(a, u, c) == Marked(b, v, c) <==> SameToken(a, u, b, v, same)
  {}

  lemma MarkedAlike(lines: seq<Line>, a: Line, u: string, b: Line, v: string, c: Option<Coloring>, same: Relation)
    requires Describes(lines, c, same) && a in lines && b in lines
    ensures MarkedLine(a, u, c) == MarkedLine(b, v, c) <==> SameLine(a, u, b, v, same)
  {
    MentionedIn(lines, a);
    MentionedIn(lines, b);
    if |a| == |b| {
      var p, q := MarkedLine(a, u, c), MarkedLine(b, v, c);
      forall i | 0 <= i < |a| ensures p[i] == q[i] <==> SameToken(a[i], u, b[i], v, same) {
        assert a[i].Node? ==> Mentions(a, a[i].name);
        assert b[i].Node? ==> Mentions(b, b[i].name);
        MarkedTokens(a[i], u, b[i], v, c, same);
      }
    }
  }

  lemma MarkedWithout(ys: seq<Line>, i: nat, v: string, c: Option<Coloring>)
    requires i < |ys|
    ensures Without(MarkedLines(ys, v, c), i) == MarkedLines(Without(ys, i), v, c)
  {}

  lemma MarkedTail(xs: seq<Line>, u: string, c: Option<Coloring>)
    requires xs != []
    ensures MarkedLines(xs, u, c) == [MarkedLine(xs[0], u, c)] + MarkedLines(xs[1..], u, c)
    ensures MarkedLines(xs, u, c)[1..] == MarkedLines(xs[1..], u, c)
  {}

  /** One line of `ys` that goes with the first of `xs`, and what is left to pair off. */
  lemma PairFirst(xs: seq<Line>, u: string, ys: seq<Line>, v: string, c: Option<Coloring>) returns (i: nat)
    requires xs != [] && multiset(MarkedLines(xs, u, c)) == multiset(MarkedLines(ys, v, c))
    ensures i < |ys| && MarkedLine(ys[i], v, c) == MarkedLine(xs[0], u, c)
    ensures multiset(MarkedLines(xs[1..], u, c)) == multiset(MarkedLines(Without(ys, i), v, c))
  {
    var p, q := MarkedLines(xs, u, c), MarkedLines(ys, v, c);
    assert p[0] in multiset(q);
    i :| 0 <= i < |q| && q[i] == p[0];
    SameRest(p, q, i);
    MarkedTail(xs, u, c);
    MarkedWithout(ys, i, v, c);
  }

  /** Lines that give the same marked lines can be paired off. */
  lemma {:induction false} PairUp(xs: seq<Line>, u: string, ys: seq<Line>, v: string, c: Option<Coloring>)
    returns (zs: seq<Line>)
    requires multiset(MarkedLines(xs, u, c)) == multiset(MarkedLines(ys, v, c))
    ensures multiset(zs) == multiset(ys) && |zs| == |xs| && MarkedLines(zs, v, c) == MarkedLines(xs, u, c)
    decreases |xs|
  {
    if xs == [] {
      zs := [];
      assert |multiset(MarkedLines(ys, v, c))| == |ys|;
    } else {
      var i := PairFirst(xs, u, ys, v, c);
      var tail := PairUp(xs[1..], u, Without(ys, i), v, c);
      zs := [ys[i]] + tail;
      WithoutMultiset(ys, i);
      MarkedTail(xs, u, c);
      MarkedTail(zs, v, c);
      assert zs[1..] == tail;
    }
  }

  lemma {:induction false} MarkedReordered(ys: seq<Line>, zs: seq<Line>, v: string, c: Option<Coloring>)
    requires multiset(ys) == multiset(zs)
    ensures multiset(MarkedLines(ys, v, c)) == multiset(MarkedLines(zs, v, c))
    decreases |ys|
  {
    assert |multiset(ys)| == |ys| && |multiset(zs)| == |zs|;
    if ys != [] {
      assert ys[0] in multiset(zs);
      var i :| 0 <= i < |zs| && zs[i] == ys[0];
      SameRest(ys, zs, i);
      MarkedReordered(ys[1..], Without(zs, i), v, c);
      SplitHead(MarkedLines(ys, v, c));
      MarkedTail(ys, v, c);
      WithoutMultiset(MarkedLines(zs, v, c), i);
      MarkedWithout(zs, i, v, c);
    }
  }

  lemma PairedMarked(lines: seq<Line>, xs: seq<Line>, u: string, ys: seq<Line>, v: string, c: Option<Coloring>,
                     same: Relation)
    requires Describes(lines, c, same) && |xs| == |ys|
    requires forall i :: 0 <= i < |xs| ==> xs[i] in lines && ys[i] in lines
    ensures MarkedLines(xs, u, c) == MarkedLines(ys, v, c) <==> Paired(xs, u, ys, v, same)
  {
    var p, q := MarkedLines(xs, u, c), MarkedLines(ys, v, c);
    forall i | 0 <= i < |xs| ensures p[i] == q[i] <==> SameLine(xs[i], u, ys[i], v, same) {
      MarkedAlike(lines, xs[i], u, ys[i], v, c, same);
    }
  }

  lemma AroundWithin(lines: seq<Line>, node: string, ys: seq<Line>)
    requires multiset(ys) == multiset(Around(lines, node))
    ensures forall i :: 0 <= i < |ys| ==> ys[i] in lines
  {
    forall i | 0 <= i < |ys| ensures ys[i] in lines {
      assert ys[i] in multiset(ys);
      AroundExact(lines, node, ys[i]);
    }
  }

  /** Two nodes have the same signature exactly if they have the same neighbourhood up to colours. */
  lemma SameSignatures(lines: seq<Line>, u: string, v: string, c: Option<Coloring>, same: Relation)
    requires Describes(lines, c, same)
    ensures Signature(u, lines, c) == Signature(v, lines, c) <==> SameNeighbourhood(lines, u, v, same)
  {
    var xs, ys := Around(lines, u), Around(lines, v);
    SignatureIsMarked(lines, u, c);
    SignatureIsMarked(lines, v, c);
    AroundWithin(lines, u, xs);
    if Signature(u, lines, c) == Signature(v, lines, c) {
      var zs := PairUp(xs, u, ys, v, c);
      AroundWithin(lines, v, zs);
      PairedMarked(lines, xs, u, zs, v, c, same);
    }
    if SameNeighbourhood(lines, u, v, same) {
      var zs: seq<Line> :| multiset(zs) == multiset(ys) && Paired(xs, u, zs, v, same);
      AroundWithin(lines, v, zs);
      PairedMarked(lines, xs, u, zs, v, c, same);
      MarkedReordered(zs, ys, v, c);
    }
  }

  // ------------------------------------------------ iterated neighbourhoods

  function Anything(): Relation { (x: string, y: string) => true }

  /** Equal neighbourhoods to depth `k`: at depth 0 the other nodes are told apart by nothing. */
  ghost function Alike(lines: seq<Line>, k: nat): Relation {
    if k == 0 then (x: string, y: string) => SameNeighbourhood(lines, x, y, Anything())
    else
      var before := Alike(lines, k - 1);
      (x: string, y: string) => SameNeighbourhood(lines, x, y, before)
  }

  lemma {:induction false} AlikeFiner(lines: seq<Line>, k: nat, x: string, y: string)
    requires Alike(lines, k + 1)(x, y)
    ensures Alike(lines, k)(x, y)
  {
    if k == 0 {
      NeighbourhoodMonotone(lines, x, y, Alike(lines, 0), Anything());
    } else {
      forall a, b | Alike(lines, k)(a, b) ensures Alike(lines, k - 1)(a, b) { AlikeFiner(lines, k - 1, a, b); }
      NeighbourhoodMonotone(lines, x, y, Alike(lines, k), Alike(lines, k - 1));
    }
  }

  /** Depth `k + 1` tells no more nodes of the graph apart than depth `k`. */
  ghost predicate Stable(lines: seq<Line>, k: nat) {
    forall x, y :: Mentioned(lines, x) && Mentioned(lines, y) && Alike(lines, k)(x, y) ==> Alike(lines, k + 1)(x, y)
  }

  lemma StableStays(lines: seq<Line>, k: nat)
    requires Stable(lines, k)
    ensures Stable(lines, k + 1)
  {
    forall x, y | Mentioned(lines, x) && Mentioned(lines, y) && Alike(lines, k + 1)(x, y)
      ensures Alike(lines, k + 2)(x, y)
    {
      NeighbourhoodMonotone(lines, x, y, Alike(lines, k), Alike(lines, k + 1));
    }
  }

  lemma {:induction false} StableEver(lines: seq<Line>, k: nat, m: nat)
    requires Stable(lines, k) && k <= m
    ensures Stable(lines, m)
    decreases m
  {
    if k < m {
      StableEver(lines, k, m - 1);
      StableStays(lines, m - 1);
    }
  }

  // ------------------------------------------------------ rounds of colours

  function Times(step: Coloring -> Coloring, c: Coloring, k: nat): Coloring {
    if k == 0 then c else step(Times(step, c, k - 1))
  }

  lemma {:induction false} TimesFixed(step: Coloring -> Coloring, c: Coloring, k: nat, m: nat)
    requires step(Times(step, c, k)) == Times(step, c, k)
    ensures Times(step, c, k + m) == Times(step, c, k)
  {
    if m > 0 { TimesFixed(step, c, k, m - 1); }
  }

  /** Stopping at the first round that changes nothing changes nothing. */
  lemma {:induction false} IterateIsTimes(step: Coloring -> Coloring, c: Coloring, k: nat, rounds: nat)
    ensures Iterate(step, Times(step, c, k), rounds) == Times(step, c, k + rounds)
    decreases rounds
  {
    if rounds > 0 {
      if step(Times(step, c, k)) == Times(step, c, k) { TimesFixed(step, c, k, rounds); }
      else { IterateIsTimes(step, c, k + 1, rounds - 1); }
    }
  }

  /** The colours after `k` rounds that do not stop early. */
  function Round(lines: seq<Line>, cfg: Config, k: nat): Coloring {
    var nodes := Nodes(lines, cfg);
    Times(Recoloring(nodes, lines, cfg), Recolor(nodes, lines, None, cfg), k)
  }

  /** What round `k` starts from. */
  function Before(lines: seq<Line>, cfg: Config, k: nat): Option<Coloring> {
    if k == 0 then None else Some(Round(lines, cfg, k - 1))
  }

  lemma RoundRecolors(lines: seq<Line>, cfg: Config, k: nat)
    ensures Round(lines, cfg, k) == Recolor(Nodes(lines, cfg), lines, Before(lines, cfg, k), cfg)
  {}

  lemma ColorsAreRound(lines: seq<Line>, cfg: Config)
    ensures Colors(lines, cfg) == Round(lines, cfg, |Nodes(lines, cfg)| + 1)
  {
    var nodes := Nodes(lines, cfg);
    var step, first := Recoloring(nodes, lines, cfg), Recolor(nodes, lines, None, cfg);
    IterateFromStart(step, first, |nodes| + 1);
    assert Colors(lines, cfg) == Iterate(step, first, |nodes| + 1);
  }

  lemma IterateFromStart(step: Coloring -> Coloring, c: Coloring, rounds: nat)
    ensures Iterate(step, c, rounds) == Times(step, c, rounds)
  {
    IterateIsTimes(step, c, 0, rounds);
  }

  /** The hash does not collide on the signatures that occur, round by round. */
  ghost predicate Separates(lines: seq<Line>, cfg: Config) {
    forall k: nat, u, v ::
      k <= |Nodes(lines, cfg)| + 1 && u in Nodes(lines, cfg) && v in Nodes(lines, cfg) ==>
        HashSeparates(lines, cfg, k, u, v)
  }

  predicate HashSeparates(lines: seq<Line>, cfg: Config, k: nat, u: string, v: string) {
    var a, b := Signature(u, lines, Before(lines, cfg, k)), Signature(v, lines, Before(lines, cfg, k));
    cfg.hash(a) == cfg.hash(b) ==> a == b
  }

  /** What round `k` of `rounds` starts from. */
  function Prev(rounds: seq<Coloring>, k: nat): Option<Coloring>
    requires k < |rounds|
  {
    if k == 0 then None else Some(rounds[k - 1])
  }

  /** Each round gives two nodes one colour exactly if their signatures are equal. */
  ghost predicate Splits(lines: seq<Line>, rounds: seq<Coloring>) {
    forall k :: 0 <= k < |rounds| ==> SplitsAt(lines, rounds, k)
  }

  ghost predicate SplitsAt(lines: seq<Line>, rounds: seq<Coloring>, k: nat)
    requires k < |rounds|
  {
    && (forall n :: n in rounds[k] <==> Mentioned(lines, n))
    && forall u, v :: u in rounds[k] && v in rounds[k] ==>
      (rounds[k][u] == rounds[k][v]
       <==> Signature(u, lines, Prev(rounds, k)) == Signature(v, lines, Prev(rounds, k)))
  }

  function AllRounds(lines: seq<Line>, cfg: Config): (r: seq<Coloring>)
    ensures |r| == |Nodes(lines, cfg)| + 2
    ensures forall k :: 0 <= k < |r| ==> r[k] == Round(lines, cfg, k)
  {
    seq(|Nodes(lines, cfg)| + 2, k requires 0 <= k => Round(lines, cfg, k))
  }

  lemma RoundsSplit(lines: seq<Line>, cfg: Config)
    requires Ordered(cfg) && Separates(lines, cfg)
    ensures Splits(lines, AllRounds(lines, cfg))
  {
    var rounds := AllRounds(lines, cfg);
    NodesExact(lines, cfg);
    forall k | 0 <= k < |rounds| ensures SplitsAt(lines, rounds, k) {
      RoundSplits(lines, cfg, rounds, k);
    }
  }

  lemma RoundSplits(lines: seq<Line>, cfg: Config, rounds: seq<Coloring>, k: nat)
    requires Ordered(cfg) && Separates(lines, cfg) && rounds == AllRounds(lines, cfg) && k < |rounds|
    requires forall n :: n in Nodes(lines, cfg) <==> Mentioned(lines, n)
    ensures SplitsAt(lines, rounds, k)
  {
    RoundRecolors(lines, cfg, k);
    assert Prev(rounds, k) == Before(lines, cfg, k);
    forall u, v | u in rounds[k] && v in rounds[k]
      ensures rounds[k][u] == rounds[k][v]
         <==> Signature(u, lines, Prev(rounds, k)) == Signature(v, lines, Prev(rounds, k))
    {
      assert HashSeparates(lines, cfg, k, u, v);
    }
  }

  /** After round `k` two nodes share a colour exactly if their neighbourhoods are equal to depth `k`. */
  lemma {:induction false} RoundsAlike(lines: seq<Line>, rounds: seq<Coloring>, k: nat, u: string, v: string)
    requires Splits(lines, rounds) && k < |rounds| && Mentioned(lines, u) && Mentioned(lines, v)
    ensures u in rounds[k] && v in rounds[k]
    ensures rounds[k][u] == rounds[k][v] <==> Alike(lines, k)(u, v)
    decreases k, 0
  {
    assert SplitsAt(lines, rounds, k);
    if k == 0 {
      SameSignatures(lines, u, v, None, Anything());
    } else {
      RoundsDescribe(lines, rounds, k - 1);
      SameSignatures(lines, u, v, Some(rounds[k - 1]), Alike(lines, k - 1));
    }
  }

  lemma {:induction false} RoundsDescribe(lines: seq<Line>, rounds: seq<Coloring>, k: nat)
    requires Splits(lines, rounds) && k < |rounds|
    ensures Describes(lines, Some(rounds[k]), Alike(lines, k))
    decreases k, 1
  {
    forall x, y | Mentioned(lines, x) && Mentioned(lines, y)
      ensures x in rounds[k] && y in rounds[k]
      ensures rounds[k][x] == rounds[k][y] <==> Alike(lines, k)(x, y)
    {
      RoundsAlike(lines, rounds, k, x, y);
    }
  }

  // ------------------------------------------------------------- counting

  lemma {:induction false} ImageCard(keys: set<string>, h: map<string, string>)
    requires keys <= h.Keys
    ensures |set v | v in keys :: h[v]| <= |keys|
    decreases |keys|
  {
    var image := set v | v in keys :: h[v];
    if keys != {} {
      var k :| k in keys;
      ImageCard(keys - {k}, h);
      assert image == (set v | v in keys - {k} :: h[v]) + {h[k]};
    }
  }

  /** `d` tells apart at least what `c` does. */
  ghost predicate Refines(c: Coloring, d: Coloring) {
    c.Keys == d.Keys && forall x, y :: x in d && y in d && d[x] == d[y] ==> c[x] == c[y]
  }

  ghost function Coarser(c: Coloring, d: Coloring): (h: map<string, string>)
    requires Refines(c, d)
    ensures h.Keys == d.Values && forall x :: x in d ==> h[d[x]] == c[x]
  {
    map v | v in d.Values :: ColorBehind(c, d, v)
  }

  ghost function ColorBehind(c: Coloring, d: Coloring, v: string): (r: string)
    requires Refines(c, d) && v in d.Values
    ensures forall x :: x in d && d[x] == v ==> c[x] == r
  {
    var x :| x in d && d[x] == v;
    c[x]
  }

  /** A colouring that tells more apart uses more colours. */
  lemma RefiningAddsColors(c: Coloring, d: Coloring, x: string, y: string)
    requires Refines(c, d) && x in d && y in d && c[x] == c[y] && d[x] != d[y]
    ensures |c.Values| < |d.Values|
  {
    var h := Coarser(c, d);
    var rest := d.Values - {d[y]};
    forall v ensures v in c.Values <==> v in set w | w in rest :: h[w] {
      if v in c.Values {
        var z :| z in c && c[z] == v;
        assert d[z] in d.Values && h[d[z]] == v;
        if d[z] == d[y] { assert c[z] == c[y] && h[d[x]] == v && d[x] in rest; }
      }
      if v in set w | w in rest :: h[w] {
        var w :| w in rest && h[w] == v;
        var z :| z in d && d[z] == w;
      }
    }
    assert c.Values == set w | w in rest :: h[w];
    ImageCard(rest, h);
  }

  lemma ValuesCard(lines: seq<Line>, cfg: Config, c: Coloring)
    requires Ordered(cfg) && forall n :: n in c <==> Mentioned(lines, n)
    ensures |c.Values| <= |Nodes(lines, cfg)|
  {
    NodesExact(lines, cfg);
    assert c.Keys == Elements(Nodes(lines, cfg));
    assert c.Values == set n | n in c.Keys :: c[n];
    ImageCard(c.Keys, c);
    ElementsCard(Nodes(lines, cfg));
  }

  lemma {:induction false} ElementsCard(xs: seq<string>)
    ensures |Elements(xs)| <= |xs|
  {
    if xs != [] {
      ElementsCard(xs[1..]);
      assert Elements(xs) == {xs[0]} + Elements(xs[1..]) by { assert xs == [xs[0]] + xs[1..]; }
    }
  }

  lemma RoundsRefine(lines: seq<Line>, rounds: seq<Coloring>, k: nat)
    requires Splits(lines, rounds) && k + 1 < |rounds|
    ensures Refines(rounds[k], rounds[k + 1])
  {
    var c, d := rounds[k], rounds[k + 1];
    assert SplitsAt(lines, rounds, k) && SplitsAt(lines, rounds, k + 1);
    assert c.Keys == d.Keys;
    forall x, y | x in d && y in d && d[x] == d[y] ensures c[x] == c[y] {
      RoundsAlike(lines, rounds, k + 1, x, y);
      AlikeFiner(lines, k, x, y);
      RoundsAlike(lines, rounds, k, x, y);
    }
  }

  /** A round that is not stable adds a colour. */
  lemma UnstableAdds(lines: seq<Line>, rounds: seq<Coloring>, k: nat)
    requires Splits(lines, rounds) && k + 1 < |rounds| && !Stable(lines, k)
    ensures |rounds[k].Values| < |rounds[k + 1].Values|
  {
    RoundsRefine(lines, rounds, k);
    var x, y :| Mentioned(lines, x) && Mentioned(lines, y) && Alike(lines, k)(x, y) && !Alike(lines, k + 1)(x, y);
    RoundsAlike(lines, rounds, k, x, y);
    RoundsAlike(lines, rounds, k + 1, x, y);
    RefiningAddsColors(rounds[k], rounds[k + 1], x, y);
  }

  lemma {:induction false} UnstableGrows(lines: seq<Line>, rounds: seq<Coloring>, k: nat)
    requires Splits(lines, rounds) && k + 1 < |rounds| && !Stable(lines, k)
    ensures k < |rounds[k + 1].Values|
  {
    UnstableAdds(lines, rounds, k);
    if k > 0 {
      if Stable(lines, k - 1) { StableEver(lines, k - 1, k); } else { UnstableGrows(lines, rounds, k - 1); }
    }
  }

  /** As many rounds as there are nodes are enough. */
  lemma StableAtLast(lines: seq<Line>, cfg: Config, rounds: seq<Coloring>)
    requires Ordered(cfg) && Splits(lines, rounds) && |rounds| == |Nodes(lines, cfg)| + 2
    ensures Stable(lines, |Nodes(lines, cfg)|)
  {
    var n := |Nodes(lines, cfg)|;
    if !Stable(lines, n) {
      UnstableGrows(lines, rounds, n);
      assert SplitsAt(lines, rounds, n + 1);
      ValuesCard(lines, cfg, rounds[n + 1]);
    }
  }

  // ------------------------------------------------------------- theorems

  lemma {:induction false} AlikeDown(lines: seq<Line>, k: nat, m: nat, x: string, y: string)
    requires Alike(lines, m)(x, y) && k <= m
    ensures Alike(lines, k)(x, y)
    decreases m
  {
    if k < m {
      AlikeFiner(lines, m - 1, x, y);
      AlikeDown(lines, k, m - 1, x, y);
    }
  }

  lemma {:induction false} AlikeUp(lines: seq<Line>, k: nat, m: nat, x: string, y: string)
    requires Stable(lines, k) && Alike(lines, k)(x, y) && k <= m && Mentioned(lines, x) && Mentioned(lines, y)
    ensures Alike(lines, m)(x, y)
    decreases m
  {
    if k < m {
      AlikeUp(lines, k, m - 1, x, y);
      StableEver(lines, k, m - 1);
    }
  }

  /** Nothing at any depth tells the two nodes apart. */
  ghost predicate Indistinct(lines: seq<Line>, u: string, v: string) { forall k: nat :: Alike(lines, k)(u, v) }

  /** Two nodes share their final colour exactly if no depth of neighbourhood tells them apart. */
  lemma FinalColors(lines: seq<Line>, cfg: Config, u: string, v: string)
    requires Ordered(cfg) && Separates(lines, cfg) && Mentioned(lines, u) && Mentioned(lines, v)
    ensures u in Colors(lines, cfg) && v in Colors(lines, cfg)
    ensures Colors(lines, cfg)[u] == Colors(lines, cfg)[v] <==> Indistinct(lines, u, v)
  {
    var n := |Nodes(lines, cfg)|;
    ColorsAreRound(lines, cfg);
    RoundsSplit(lines, cfg);
    RoundsAlike(lines, AllRounds(lines, cfg), n + 1, u, v);
    StableAtLast(lines, cfg, AllRounds(lines, cfg));
    if Alike(lines, n + 1)(u, v) {
      forall k: nat ensures Alike(lines, k)(u, v) {
        AlikeDown(lines, n, n + 1, u, v);
        if k <= n { AlikeDown(lines, k, n, u, v); } else { AlikeUp(lines, n, k, u, v); }
      }
    }
  }

  function SameColor(c: Coloring): Relation { (x: string, y: string) => x in c && y in c && c[x] == c[y] }

  /**
    The final partition is equitable: nodes share a final colour exactly if
    their neighbourhoods agree in final colours.
   */
  lemma Equitable(lines: seq<Line>, cfg: Config, u: string, v: string)
    requires Ordered(cfg) && Separates(lines, cfg) && Mentioned(lines, u) && Mentioned(lines, v)
    ensures u in Colors(lines, cfg) && v in Colors(lines, cfg)
    ensures Colors(lines, cfg)[u] == Colors(lines, cfg)[v]
       <==> SameNeighbourhood(lines, u, v, SameColor(Colors(lines, cfg)))
  {
    var n := |Nodes(lines, cfg)|;
    ColorsAreRound(lines, cfg);
    RoundsSplit(lines, cfg);
    RoundsDescribe(lines, AllRounds(lines, cfg), n + 1);
    RoundsAlike(lines, AllRounds(lines, cfg), n + 1, u, v);
    StableAtLast(lines, cfg, AllRounds(lines, cfg));
    StableStays(lines, n);
    SameByColors(lines, Colors(lines, cfg), Alike(lines, n + 1), u, v);
    NextDepth(lines, n + 1, u, v);
  }

  lemma NextDepth(lines: seq<Line>, k: nat, u: string, v: string)
    requires Stable(lines, k) && Mentioned(lines, u) && Mentioned(lines, v)
    ensures Alike(lines, k)(u, v) <==> SameNeighbourhood(lines, u, v, Alike(lines, k))
  {
    if SameNeighbourhood(lines, u, v, Alike(lines, k)) {
      assert Alike(lines, k + 1)(u, v);
      AlikeFiner(lines, k, u, v);
    }
  }

  lemma SameByColors(lines: seq<Line>, c: Coloring, same: Relation, u: string, v: string)
    requires Describes(lines, Some(c), same)
    ensures SameNeighbourhood(lines, u, v, same) <==> SameNeighbourhood(lines, u, v, SameColor(c))
  {
    if SameNeighbourhood(lines, u, v, same) { NeighbourhoodMonotone(lines, u, v, same, SameColor(c)); }
    if SameNeighbourhood(lines, u, v, SameColor(c)) { NeighbourhoodMonotone(lines, u, v, SameColor(c), same); }
  }

  // ---------------------------------------------------- what gets rendered

  /** The search groups are the classes of indistinct nodes. */
  lemma GroupsAreClasses(lines: seq<Line>, cfg: Config, i: nat, u: string, v: string)
    requires Ordered(cfg) && Separates(lines, cfg) && i < |AmbiguousGroups(lines, cfg)|
    requires u in AmbiguousGroups(lines, cfg)[i] && Mentioned(lines, v)
    ensures v in AmbiguousGroups(lines, cfg)[i] <==> Indistinct(lines, u, v)
  {
    var nodes, colors := Nodes(lines, cfg), Colors(lines, cfg);
    var palette := SortUnique(ColorList(nodes, colors), cfg.colorLt);
    NodesExact(lines, cfg);
    OfColorExact(nodes, colors, palette[i], u);
    OfColorExact(nodes, colors, palette[i], v);
    FinalColors(lines, cfg, u, v);
  }

  /** Any two blank nodes of the graph are told apart at some depth. */
  ghost predicate ToldApart(lines: seq<Line>) {
    forall u, v :: Mentioned(lines, u) && Mentioned(lines, v) && Indistinct(lines, u, v) ==> u == v
  }

  lemma {:induction false} SingleProduct(groups: seq<seq<string>>)
    requires forall i :: 0 <= i < |groups| ==> |groups[i]| <= 1
    ensures Product(groups) == 1
  {
    if groups != [] { SingleProduct(groups[1..]); }
  }

  /** A graph whose nodes are told apart is rendered for every valid bound, with a single candidate. */
  lemma ToldApartIsRendered(lines: seq<Line>, bound: int, cfg: Config)
    requires Ordered(cfg) && Separates(lines, cfg) && ToldApart(lines) && 1 <= bound <= 1_000_000
    ensures CanonicalForm(lines, bound, cfg).Text? && Numberings(lines, cfg) == 1
  {
    var groups := AmbiguousGroups(lines, cfg);
    GroupsPartition(lines, cfg);
    forall i | 0 <= i < |groups| ensures |groups[i]| <= 1 {
      if |groups[i]| > 1 { OneInGroup(lines, cfg, i); }
    }
    SingleProduct(groups);
    CandidatesCounted(lines, cfg);
  }

  lemma OneInGroup(lines: seq<Line>, cfg: Config, i: nat)
    requires Ordered(cfg) && Separates(lines, cfg) && ToldApart(lines) && i < |AmbiguousGroups(lines, cfg)|
    ensures |AmbiguousGroups(lines, cfg)[i]| <= 1
  {
    var group := AmbiguousGroups(lines, cfg)[i];
    GroupsPartition(lines, cfg);
    NodesExact(lines, cfg);
    if |group| > 1 {
      var nodes, colors := Nodes(lines, cfg), Colors(lines, cfg);
      var palette := SortUnique(ColorList(nodes, colors), cfg.colorLt);
      OfColorExact(nodes, colors, palette[i], group[0]);
      OfColorExact(nodes, colors, palette[i], group[1]);
      assert group[0] != group[1];
      GroupsAreClasses(lines, cfg, i, group[0], group[1]);
    }
  }

  // --------------------------------------------------------------- a chain

  /** `node 0 p node 1`, `node 1 p node 2`, and so on. */
  function Chain(names: seq<string>): (r: seq<Line>)
    ensures |r| == (if names == [] then 0 else |names| - 1)
    ensures forall i :: 0 <= i < |r| ==> r[i] == Link(names, i)
  {
    var links: nat := if names == [] then 0 else |names| - 1;
    seq(links, i requires 0 <= i < links => Link(names, i))
  }

  function Link(names: seq<string>, i: nat): Line
    requires i + 1 < |names|
  {
    [Token.Node(names[i]), Token.Text("p"), Token.Node(names[i + 1])]
  }

  lemma LinkMentions(names: seq<string>, i: nat, n: string)
    requires i + 1 < |names|
    ensures Mentions(Link(names, i), n) <==> n == names[i] || n == names[i + 1]
  {
    var line := Link(names, i);
    assert line[0] == Token.Node(names[i]) && line[2] == Token.Node(names[i + 1]);
  }

  lemma Partner(lines: seq<Line>, u: string, v: string, same: Relation, line: Line) returns (other: Line)
    requires SameNeighbourhood(lines, u, v, same) && line in lines && Mentions(line, u)
    ensures other in lines && SameLine(line, u, other, v, same)
  {
    var xs := Around(lines, u);
    var ys: seq<Line> :| multiset(ys) == multiset(Around(lines, v)) && Paired(xs, u, ys, v, same);
    AroundExact(lines, u, line);
    var k :| 0 <= k < |xs| && xs[k] == line;
    other := ys[k];
    assert other in multiset(ys);
    AroundExact(lines, v, other);
  }

  lemma PartnerBack(lines: seq<Line>, u: string, v: string, same: Relation, line: Line) returns (other: Line)
    requires SameNeighbourhood(lines, u, v, same) && line in lines && Mentions(line, v)
    ensures other in lines && SameLine(other, u, line, v, same)
  {
    var xs := Around(lines, u);
    var ys: seq<Line> :| multiset(ys) == multiset(Around(lines, v)) && Paired(xs, u, ys, v, same);
    AroundExact(lines, v, line);
    assert line in multiset(Around(lines, v)) && line in multiset(ys);
    var k :| 0 <= k < |ys| && ys[k] == line;
    other := xs[k];
    AroundExact(lines, u, other);
  }

  lemma LinkTo(names: seq<string>, line: Line, j: nat)
    requires NoDup(names) && j < |names| && line in Chain(names) && line[2] == Token.Node(names[j])
    ensures j > 0 && line == Link(names, j - 1)
  {
    var m :| 0 <= m < |Chain(names)| && Chain(names)[m] == line;
    assert line == Link(names, m) && names[m + 1] == names[j];
  }

  /** Of two indistinct nodes of a chain, both have a node before them or neither. */
  lemma BothLead(names: seq<string>, i: nat, j: nat, same: Relation)
    requires NoDup(names) && i < |names| && j < |names|
    requires SameNeighbourhood(Chain(names), names[i], names[j], same)
    ensures i > 0 <==> j > 0
    ensures i > 0 ==> same(names[i - 1], names[j - 1])
  {
    var lines := Chain(names);
    if i > 0 {
      var into := Link(names, i - 1);
      LinkMentions(names, i - 1, names[i]);
      assert lines[i - 1] == into;
      var other := Partner(lines, names[i], names[j], same, into);
      assert SameToken(into[2], names[i], other[2], names[j], same);
      LinkTo(names, other, j);
      assert SameToken(into[0], names[i], other[0], names[j], same);
    }
    if j > 0 {
      var into := Link(names, j - 1);
      LinkMentions(names, j - 1, names[j]);
      assert lines[j - 1] == into;
      var other := PartnerBack(lines, names[i], names[j], same, into);
      assert SameToken(other[2], names[i], into[2], names[j], same);
      LinkTo(names, other, i);
    }
  }

  lemma {:induction false} ChainDepth(names: seq<string>, k: nat, i: nat, j: nat)
    requires NoDup(names) && i < |names| && j < |names| && Alike(Chain(names), k)(names[i], names[j])
    ensures i <= k || j <= k ==> i == j
  {
    if k == 0 {
      BothLead(names, i, j, Anything());
    } else {
      BothLead(names, i, j, Alike(Chain(names), k - 1));
      if i > 0 { ChainDepth(names, k - 1, i - 1, j - 1); }
    }
  }

  /** The nodes of a chain are all told apart, by how far they are from its start. */
  lemma ChainToldApart(names: seq<string>)
    requires NoDup(names)
    ensures ToldApart(Chain(names))
  {
    var lines := Chain(names);
    forall u, v | Mentioned(lines, u) && Mentioned(lines, v) && Indistinct(lines, u, v) ensures u == v {
      var i := ChainNode(names, u);
      var j := ChainNode(names, v);
      assert Alike(lines, |names|)(u, v);
      ChainDepth(names, |names|, i, j);
    }
  }

  /** A chain of blank nodes of any length is rendered for every valid bound. */
  lemma ChainIsRendered(names: seq<string>, bound: int, cfg: Config)
    requires Ordered(cfg) && NoDup(names) && Separates(Chain(names), cfg) && 1 <= bound <= 1_000_000
    ensures CanonicalForm(Chain(names), bound, cfg).Text?
  {
    ChainToldApart(names);
    ToldApartIsRendered(Chain(names), bound, cfg);
  }

  lemma ChainNode(names: seq<string>, u: string) returns (i: nat)
    requires Mentioned(Chain(names), u)
    ensures i < |names| && names[i] == u
  {
    var m :| 0 <= m < |Chain(names)| && Mentions(Chain(names)[m], u);
    LinkMentions(names, m, u);
    i := if u == names[m] then m else m + 1;
  }
}
