/** Blank-node renamings, and how every stage of the canonical form follows them. */
module RdfIsomorphism {
  import opened Wrappers
  import opened Sorting
  import opened Permutations
  import opened RdfCanonical

  function Rename(name: string, f: map<string, string>): string { if name in f then f[name] else name }

  function RenamedToken(token: Token<string>, f: map<string, string>): Token<string> {
    match token
    case Text(text) => token
    case Node(name) => Token.Node(Rename(name, f))
  }

  function RenamedLine(line: Line, f: map<string, string>): (r: Line)
    ensures |r| == |line| && forall i :: 0 <= i < |r| ==> r[i] == RenamedToken(line[i], f)
  {
    seq(|line|, i requires 0 <= i < |line| => RenamedToken(line[i], f))
  }

  function RenamedLines(lines: seq<Line>, f: map<string, string>): (r: seq<Line>)
    ensures |r| == |lines| && forall i :: 0 <= i < |r| ==> r[i] == RenamedLine(lines[i], f)
  {
    seq(|lines|, i requires 0 <= i < |lines| => RenamedLine(lines[i], f))
  }

  function RenamedNames(names: seq<string>, f: map<string, string>): (r: seq<string>)
    ensures |r| == |names| && forall i :: 0 <= i < |r| ==> r[i] == Rename(names[i], f)
  {
    seq(|names|, i requires 0 <= i < |names| => Rename(names[i], f))
  }

  ghost predicate Mentioned(lines: seq<Line>, node: string) {
    exists i :: 0 <= i < |lines| && Mentions(lines[i], node)
  }

  ghost predicate Injective(f: map<string, string>) {
    forall x, y :: x in f && y in f && f[x] == f[y] ==> x == y
  }

  /** `f` renames exactly the blank nodes of `left`, keeping them distinct. */
  ghost predicate Renaming(left: seq<Line>, f: map<string, string>) {
    Injective(f) && forall n :: n in f <==> Mentioned(left, n)
  }

  /** Isomorphism of graphs as sets of lines. */
  ghost predicate Isomorphic(left: seq<Line>, right: seq<Line>) {
    exists f :: Renaming(left, f) && Elements(RenamedLines(left, f)) == Elements(right)
  }

  /** Isomorphism that also keeps how often each line occurs. */
  ghost predicate Matches(left: seq<Line>, right: seq<Line>, f: map<string, string>) {
    Renaming(left, f) && multiset(RenamedLines(left, f)) == multiset(right)
  }

  // ------------------------------------------------------ moving along f

  lemma RenamedMentions(line: Line, f: map<string, string>, n: string)
    requires Injective(f) && n in f && forall m :: Mentions(line, m) ==> m in f
    ensures Mentions(RenamedLine(line, f), f[n]) <==> Mentions(line, n)
  {
    var r := RenamedLine(line, f);
    if Mentions(line, n) {
      var i :| 0 <= i < |line| && line[i] == Token.Node(n);
      assert r[i] == Token.Node(f[n]);
    }
    if Mentions(r, f[n]) {
      var i :| 0 <= i < |r| && r[i] == Token.Node(f[n]);
      assert line[i].Node?;
      assert Mentions(line, line[i].name);
    }
  }

  lemma RenamedMentioned(line: Line, f: map<string, string>, m: string)
    requires Mentions(RenamedLine(line, f), m) && forall k :: Mentions(line, k) ==> k in f
    ensures m in f.Values
  {
    var r := RenamedLine(line, f);
    var i :| 0 <= i < |r| && r[i] == Token.Node(m);
    assert Mentions(line, line[i].name) && f[line[i].name] == m;
  }

  lemma SameMentions(left: seq<Line>, right: seq<Line>, m: string)
    requires Elements(left) == Elements(right) && Mentioned(left, m)
    ensures Mentioned(right, m)
  {
    var i :| 0 <= i < |left| && Mentions(left[i], m);
    assert left[i] in Elements(right);
    var j :| 0 <= j < |right| && right[j] == left[i];
    assert Mentions(right[j], m);
  }

  lemma ElementsOfMultiset<T>(xs: seq<T>, ys: seq<T>)
    requires multiset(xs) == multiset(ys)
    ensures Elements(xs) == Elements(ys)
  {
    forall x ensures x in Elements(xs) <==> x in Elements(ys) {
      assert x in xs <==> x in multiset(xs);
      assert x in ys <==> x in multiset(ys);
    }
  }

  /** A renaming onto `right` carries the nodes of `left` onto the nodes of `right`. */
  lemma NodesCarried(left: seq<Line>, right: seq<Line>, f: map<string, string>)
    requires Renaming(left, f) && Elements(RenamedLines(left, f)) == Elements(right)
    ensures forall m :: m in f.Values <==> Mentioned(right, m)
  {
    var renamed := RenamedLines(left, f);
    forall m ensures m in f.Values <==> Mentioned(right, m) {
      if m in f.Values {
        var n :| n in f && f[n] == m;
        var i :| 0 <= i < |left| && Mentions(left[i], n);
        LineCovered(left, f, i);
        RenamedMentions(left[i], f, n);
        assert Mentions(renamed[i], m);
        SameMentions(renamed, right, m);
      }
      if Mentioned(right, m) {
        SameMentions(right, renamed, m);
        var i :| 0 <= i < |renamed| && Mentions(renamed[i], m);
        LineCovered(left, f, i);
        RenamedMentioned(left[i], f, m);
      }
    }
  }

  lemma LineCovered(left: seq<Line>, f: map<string, string>, i: nat)
    requires Renaming(left, f) && i < |left|
    ensures forall m :: Mentions(left[i], m) ==> m in f
  {
    forall m | Mentions(left[i], m) ensures m in f { assert Mentioned(left, m); }
  }

  // ----------------------------------------------------------- inverses

  ghost function Preimage(f: map<string, string>, m: string): (n: string)
    requires m in f.Values
    ensures n in f && f[n] == m
  {
    var n :| n in f && f[n] == m; n
  }

  ghost function Inverse(f: map<string, string>): map<string, string> {
    map m | m in f.Values :: Preimage(f, m)
  }

  lemma InverseInverts(f: map<string, string>)
    requires Injective(f)
    ensures Inverse(f).Keys == f.Values && Inverse(f).Values == f.Keys && Injective(Inverse(f))
    ensures forall n :: n in f ==> Inverse(f)[f[n]] == n
  {
    var g := Inverse(f);
    assert forall n :: n in f ==> f[n] in f.Values && g[f[n]] == n;
    forall n ensures n in g.Values <==> n in f.Keys {
      if n in f.Keys { assert f[n] in g && g[f[n]] == n; }
    }
  }

  lemma RenamedBack(lines: seq<Line>, f: map<string, string>)
    requires Renaming(lines, f)
    ensures RenamedLines(RenamedLines(lines, f), Inverse(f)) == lines
  {
    InverseInverts(f);
    var there := RenamedLines(lines, f);
    var back := RenamedLines(there, Inverse(f));
    forall i | 0 <= i < |lines| ensures back[i] == lines[i] {
      LineCovered(lines, f, i);
      forall k | 0 <= k < |lines[i]| ensures back[i][k] == lines[i][k] {
        assert there[i][k] == RenamedToken(lines[i][k], f);
        if lines[i][k].Node? { assert Mentions(lines[i], lines[i][k].name); }
      }
    }
  }

  lemma SameRest<T>(a: seq<T>, b: seq<T>, i: nat)
    requires multiset(a) == multiset(b) && a != [] && i < |b| && b[i] == a[0]
    ensures multiset(a[1..]) == multiset(Without(b, i))
  {
    SplitHead(a);
    WithoutMultiset(b, i);
    assert multiset(a[1..]) == multiset(a) - multiset{a[0]};
  }

  lemma {:induction false} RenamedMultiset(left: seq<Line>, right: seq<Line>, f: map<string, string>)
    requires multiset(left) == multiset(right)
    ensures multiset(RenamedLines(left, f)) == multiset(RenamedLines(right, f))
  {
    if left == [] {
      assert |multiset(right)| == |right|;
      assert RenamedLines(left, f) == RenamedLines(right, f);
    } else {
      assert left[0] in multiset(right);
      var i :| 0 <= i < |right| && right[i] == left[0];
      SameRest(left, right, i);
      RenamedMultiset(left[1..], Without(right, i), f);
      SplitHead(RenamedLines(left, f));
      assert RenamedLines(left, f)[1..] == RenamedLines(left[1..], f);
      WithoutMultiset(RenamedLines(right, f), i);
      assert Without(RenamedLines(right, f), i) == RenamedLines(Without(right, i), f);
    }
  }

  lemma InverseMatches(left: seq<Line>, right: seq<Line>, f: map<string, string>)
    requires Matches(left, right, f)
    ensures Matches(right, left, Inverse(f))
  {
    ElementsOfMultiset(RenamedLines(left, f), right);
    NodesCarried(left, right, f);
    InverseInverts(f);
    RenamedMultiset(RenamedLines(left, f), right, Inverse(f));
    RenamedBack(left, f);
  }

  // --------------------------------------------------- signatures follow

  lemma {:induction false} GatherAppend<A, B>(a: seq<A>, b: seq<A>, f: A -> multiset<B>)
    ensures Gather(a + b, f) == Gather(a, f) + Gather(b, f)
  {
    if a == [] {
      assert a + b == b;
    } else {
      GatherAppend(a[1..], b, f);
      assert (a + b)[1..] == a[1..] + b && (a + b)[0] == a[0];
    }
  }

  lemma GatherTaken<A, B>(xs: seq<A>, i: nat, f: A -> multiset<B>)
    requires i < |xs|
    ensures Gather(xs, f) == f(xs[i]) + Gather(Without(xs, i), f)
  {
    var before, tail := xs[..i], xs[i..];
    GatherAppend(before, xs[i + 1..], f);
    GatherAppend(before, tail, f);
    assert xs == before + tail;
    assert tail[1..] == xs[i + 1..] && tail[0] == xs[i];
  }

  /** What is gathered does not depend on the order. */
  lemma {:induction false} GatherReordered<A, B>(a: seq<A>, b: seq<A>, f: A -> multiset<B>)
    requires multiset(a) == multiset(b)
    ensures Gather(a, f) == Gather(b, f)
  {
    if a == [] {
      assert |multiset(b)| == |b|;
    } else {
      assert a[0] in multiset(b);
      var i :| 0 <= i < |b| && b[i] == a[0];
      SameRest(a, b, i);
      GatherReordered(a[1..], Without(b, i), f);
      GatherTaken(b, i, f);
    }
  }

  lemma {:induction false} GatherSame<A, B>(a: seq<A>, b: seq<A>, f: A -> multiset<B>, g: A -> multiset<B>)
    requires |a| == |b| && forall i :: 0 <= i < |a| ==> f(a[i]) == g(b[i])
    ensures Gather(a, f) == Gather(b, g)
  {
    if a != [] { GatherSame(a[1..], b[1..], f, g); }
  }

  /** Corresponding nodes carry the same colour. */
  ghost predicate SameColors(c: Option<Coloring>, d: Option<Coloring>, f: map<string, string>) {
    && (c.Some? <==> d.Some?)
    && (c.Some? ==> c.value.Keys == f.Keys && d.value.Keys == f.Values && forall n :: n in f ==>
        c.value[n] == d.value[f[n]])
  }

  lemma MarkedFollows(line: Line, node: string, f: map<string, string>,
                      c: Option<Coloring>, d: Option<Coloring>)
    requires Injective(f) && node in f && SameColors(c, d, f) && forall m :: Mentions(line, m) ==> m in f
    ensures MarkedLine(RenamedLine(line, f), f[node], d) == MarkedLine(line, node, c)
  {
    var r := RenamedLine(line, f);
    forall i | 0 <= i < |line| ensures Marked(r[i], f[node], d) == Marked(line[i], node, c) {
      if line[i].Node? {
        assert Mentions(line, line[i].name);
        assert f[line[i].name] in f.Values;
      }
    }
  }

  /** Corresponding nodes have the same signature, however the lines are ordered. */
  lemma SignatureFollows(node: string, left: seq<Line>, right: seq<Line>, f: map<string, string>,
                         c: Option<Coloring>, d: Option<Coloring>)
    requires Matches(left, right, f) && node in f && SameColors(c, d, f)
    ensures Signature(f[node], right, d) == Signature(node, left, c)
  {
    var renamed := RenamedLines(left, f);
    forall i | 0 <= i < |left| ensures Owner(f[node], d)(renamed[i]) == Owner(node, c)(left[i]) {
      LineCovered(left, f, i);
      MarkedFollows(left[i], node, f, c, d);
      BlankNodesExact(left[i], node);
      BlankNodesExact(renamed[i], f[node]);
      RenamedMentions(left[i], f, node);
    }
    GatherSame(renamed, left, Owner(f[node], d), Owner(node, c));
    GatherReordered(renamed, right, Owner(f[node], d));
  }

  // ------------------------------------------------------ colours follow

  lemma RecolorFollows(left: seq<Line>, right: seq<Line>, f: map<string, string>, xs: seq<string>, ys: seq<string>,
                       c: Option<Coloring>, d: Option<Coloring>, cfg: Config)
    requires Matches(left, right, f) && SameColors(c, d, f)
    requires Elements(xs) == f.Keys && Elements(ys) == f.Values
    ensures SameColors(Some(Recolor(xs, left, c, cfg)), Some(Recolor(ys, right, d, cfg)), f)
  {
    var p, q := Recolor(xs, left, c, cfg), Recolor(ys, right, d, cfg);
    assert p.Keys == f.Keys by { forall n ensures n in p.Keys
                                <==> n in f.Keys { assert n in xs <==> n in Elements(xs); } }
    assert q.Keys == f.Values by { forall n ensures n in q.Keys
                                  <==> n in f.Values { assert n in ys <==> n in Elements(ys); } }
    forall n | n in f ensures p[n] == q[f[n]] {
      assert f[n] in q.Keys;
      SignatureFollows(n, left, right, f, c, d);
    }
  }

  lemma SameColorsDetermined(c: Coloring, d: Coloring, e: Coloring, f: map<string, string>)
    requires SameColors(Some(c), Some(d), f) && SameColors(Some(c), Some(e), f)
    ensures d == e
  {
    forall m | m in d ensures d[m] == e[m] {
      var n :| n in f && f[n] == m;
      assert c[n] == d[m] == e[m];
    }
  }

  /** One side of a refinement is stable exactly when the other is. */
  lemma StableTogether(c: Coloring, d: Coloring, p: Coloring, q: Coloring, f: map<string, string>)
    requires SameColors(Some(c), Some(d), f) && SameColors(Some(p), Some(q), f)
    ensures p == c <==> q == d
  {
    if p == c { SameColorsDetermined(c, d, q, f); }
  }

  /** Two iterations that stay related stop after the same number of steps. */
  lemma {:induction false} IterateFollows(
      related: (Coloring, Coloring) -> bool, stepL: Coloring -> Coloring, stepR: Coloring -> Coloring,
      c: Coloring, d: Coloring, rounds: nat)
    requires related(c, d)
    requires forall c: Coloring, d: Coloring {:trigger stepL(c), stepR(d)} :: related(c, d) ==>
      related(stepL(c), stepR(d)) && (stepL(c) == c <==> stepR(d) == d)
    ensures related(Iterate(stepL, c, rounds), Iterate(stepR, d, rounds))
    decreases rounds
  {
    if rounds > 0 && stepL(c) != c { IterateFollows(related, stepL, stepR, stepL(c), stepR(d), rounds - 1); }
  }

  lemma NodeSets(left: seq<Line>, right: seq<Line>, f: map<string, string>, cfg: Config)
    requires Ordered(cfg) && Renaming(left, f) && Elements(RenamedLines(left, f)) == Elements(right)
    ensures Elements(Nodes(left, cfg)) == f.Keys && Elements(Nodes(right, cfg)) == f.Values
    ensures |Nodes(left, cfg)| == |Nodes(right, cfg)|
  {
    NodesExact(left, cfg);
    NodesExact(right, cfg);
    NodesCarried(left, right, f);
    var xs, ys := Nodes(left, cfg), Nodes(right, cfg);
    assert Elements(xs) == f.Keys;
    assert Elements(ys) == f.Values;
    RenamedNoDup(xs, f);
    RenamedElements(xs, f);
    NoDupMultiset(RenamedNames(xs, f), ys);
    assert |multiset(RenamedNames(xs, f))| == |RenamedNames(xs, f)| && |multiset(ys)| == |ys|;
  }

  lemma RenamedNoDup(xs: seq<string>, f: map<string, string>)
    requires Injective(f) && NoDup(xs) && forall x :: x in xs ==> x in f
    ensures NoDup(RenamedNames(xs, f))
  {
    var r := RenamedNames(xs, f);
    forall i, j | 0 <= i < j < |r| ensures r[i] != r[j] { assert xs[i] in f && xs[j] in f; }
  }

  lemma RenamedElements(xs: seq<string>, f: map<string, string>)
    requires Elements(xs) == f.Keys
    ensures Elements(RenamedNames(xs, f)) == f.Values
  {
    var r := RenamedNames(xs, f);
    forall m ensures m in Elements(r) <==> m in f.Values {
      if m in r {
        var i :| 0 <= i < |r| && r[i] == m;
        assert xs[i] in Elements(xs);
      }
      if m in f.Values {
        var n :| n in f && f[n] == m;
        assert n in Elements(xs);
        var i :| 0 <= i < |xs| && xs[i] == n;
        assert r[i] == m;
      }
    }
  }

  lemma {:induction false} NoDupMultiset<T>(xs: seq<T>, ys: seq<T>)
    requires NoDup(xs) && NoDup(ys) && Elements(xs) == Elements(ys)
    ensures multiset(xs) == multiset(ys)
  {
    forall x ensures multiset(xs)[x] == multiset(ys)[x] {
      NoDupCount(xs, x);
      NoDupCount(ys, x);
      assert x in xs <==> x in Elements(xs);
      assert x in ys <==> x in Elements(ys);
    }
  }

  lemma {:induction false} NoDupCount<T>(xs: seq<T>, x: T)
    requires NoDup(xs)
    ensures multiset(xs)[x] == if x in xs then 1 else 0
  {
    if xs != [] {
      SplitHead(xs);
      NoDupCount(xs[1..], x);
      assert xs == [xs[0]] + xs[1..];
    }
  }

  ghost function Alike(f: map<string, string>): (Coloring, Coloring) -> bool {
    (c, d) => SameColors(Some(c), Some(d), f)
  }

  lemma StepFollows(left: seq<Line>, right: seq<Line>, f: map<string, string>, xs: seq<string>, ys: seq<string>,
                    c: Coloring, d: Coloring, cfg: Config)
    requires Matches(left, right, f) && Elements(xs) == f.Keys && Elements(ys) == f.Values
    requires Alike(f)(c, d)
    ensures Alike(f)(Recoloring(xs, left, cfg)(c), Recoloring(ys, right, cfg)(d))
    ensures Recoloring(xs, left, cfg)(c) == c <==> Recoloring(ys, right, cfg)(d) == d
  {
    RecolorFollows(left, right, f, xs, ys, Some(c), Some(d), cfg);
    StableTogether(c, d, Recolor(xs, left, Some(c), cfg), Recolor(ys, right, Some(d), cfg), f);
  }

  lemma RefinementFollows(left: seq<Line>, right: seq<Line>, f: map<string, string>, xs: seq<string>, ys: seq<string>,
                          c: Coloring, d: Coloring, rounds: nat, cfg: Config)
    requires Matches(left, right, f) && Elements(xs) == f.Keys && Elements(ys) == f.Values
    requires Alike(f)(c, d)
    ensures Alike(f)(Iterate(Recoloring(xs, left, cfg), c, rounds), Iterate(Recoloring(ys, right, cfg), d, rounds))
  {
    var stepL, stepR, related := Recoloring(xs, left, cfg), Recoloring(ys, right, cfg), Alike(f);
    forall c: Coloring, d: Coloring | related(c, d)
      ensures related(stepL(c), stepR(d)) && (stepL(c) == c <==> stepR(d) == d)
    {
      StepFollows(left, right, f, xs, ys, c, d, cfg);
    }
    IterateFollows(related, stepL, stepR, c, d, rounds);
  }

  /** Refinement gives corresponding nodes the same colour, whatever the hash. */
  lemma ColorsFollow(left: seq<Line>, right: seq<Line>, f: map<string, string>, cfg: Config)
    requires Ordered(cfg) && Matches(left, right, f)
    ensures SameColors(Some(Colors(left, cfg)), Some(Colors(right, cfg)), f)
  {
    ElementsOfMultiset(RenamedLines(left, f), right);
    NodeSets(left, right, f, cfg);
    var xs, ys := Nodes(left, cfg), Nodes(right, cfg);
    RecolorFollows(left, right, f, xs, ys, None, None, cfg);
    RefinementFollows(left, right, f, xs, ys, Recolor(xs, left, None, cfg), Recolor(ys, right, None, cfg), |xs| + 1,
                      cfg);
  }
}
