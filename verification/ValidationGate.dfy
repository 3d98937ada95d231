/** The equality gate in front of READY: every stored graph against the matching graph of the reference dump. */
module ValidationGate {
  import opened Sorting
  import opened Permutations
  import opened RdfCanonical
  import opened RdfIsomorphism
  import opened RdfTheorems
  import opened RdfRefinement

  type Graph = seq<Line>
  type Graphs = map<string, Graph>

  datatype Verdict = Ready | Invalid(missing: nat, extra: nat) | SearchFailed

  const DEFAULT_BOUND := 100_000

  function Expected(expected: Graphs, name: string): Graph { if name in expected then expected[name] else [] }

  function Stored(stored: Graphs, name: string): Graph { if name in stored then stored[name] else [] }

  // ------------------------------------------- what the gate means

  /** The stored graphs are the reference graphs up to blank-node names. */
  ghost predicate Reproduces(expected: Graphs, stored: Graphs, registered: seq<string>) {
    && AllIsomorphic(expected, stored, registered)
    && (forall name :: name in expected && name !in registered ==> expected[name] == [])
  }

  ghost predicate AllIsomorphic(expected: Graphs, stored: Graphs, names: seq<string>) {
    forall name :: name in names ==> Isomorphic(Expected(expected, name), Stored(stored, name))
  }

  /** Neither side of graph `name` has more numberings than the search is allowed. */
  ghost predicate WithinReach(expected: Graphs, stored: Graphs, name: string, cfg: Config) {
    Numberings(Expected(expected, name), cfg) <= 100_000 && Numberings(Stored(stored, name), cfg) <= 100_000
  }

  ghost predicate Searchable(expected: Graphs, stored: Graphs, registered: seq<string>, cfg: Config) {
    forall name :: name in registered ==> WithinReach(expected, stored, name, cfg)
  }

  /** No graph repeats a line, as in partitioned text and in query results. */
  ghost predicate DuplicateFree(graphs: Graphs) { forall name :: name in graphs ==> NoDup(graphs[name]) }

  /** A graph without blank nodes, or one whose nodes are told apart by their neighbourhoods. */
  ghost predicate Plain(graph: Graph, cfg: Config) {
    (forall n :: !Mentioned(graph, n)) || (ToldApart(graph) && Separates(graph, cfg))
  }

  lemma PlainNumberings(graph: Graph, cfg: Config)
    requires Ordered(cfg) && Plain(graph, cfg)
    ensures Numberings(graph, cfg) == 1
  {
    if ToldApart(graph) && Separates(graph, cfg) {
      ToldApartIsRendered(graph, 1, cfg);
    } else {
      GroundNumberings(graph, cfg);
    }
  }

  /** The search never gives up on plain graphs. */
  lemma PlainSearchable(expected: Graphs, stored: Graphs, registered: seq<string>, cfg: Config)
    requires Ordered(cfg)
    requires forall name :: name in registered ==>
      Plain(Expected(expected, name), cfg) && Plain(Stored(stored, name), cfg)
    ensures Searchable(expected, stored, registered, cfg)
  {
    forall name | name in registered ensures WithinReach(expected, stored, name, cfg) {
      PlainNumberings(Expected(expected, name), cfg);
      PlainNumberings(Stored(stored, name), cfg);
    }
  }

  // ------------------------------------------------------ the counts

  /** The lines of the text of `left` that the text of `right` has not. */
  ghost function Only(left: Graph, right: Graph, cfg: Config): set<seq<Token<Label>>> {
    match (CanonicalForm(left, 100_000, cfg), CanonicalForm(right, 100_000, cfg))
    case (Text(a), Text(b)) => Elements(a) - Elements(b)
    case _ => {}
  }

  ghost function MissingFrom(expected: Graphs, stored: Graphs, names: seq<string>, cfg: Config): nat {
    if names == [] then 0
    else
      MissingFrom(expected, stored, names[..|names| - 1], cfg)
      + |Only(Expected(expected, names[|names| - 1]), Stored(stored, names[|names| - 1]), cfg)|
  }

  ghost function ExtraIn(expected: Graphs, stored: Graphs, names: seq<string>, cfg: Config): nat {
    if names == [] then 0
    else
      ExtraIn(expected, stored, names[..|names| - 1], cfg)
      + |Only(Stored(stored, names[|names| - 1]), Expected(expected, names[|names| - 1]), cfg)|
  }

  /** All lines of the graphs `names`. */
  ghost function LinesOf(expected: Graphs, names: set<string>): nat
    requires names <= expected.Keys
    decreases |names|
  {
    if names == {} then 0
    else
      var name :| name in names;
      |expected[name]| + LinesOf(expected, names - {name})
  }

  lemma {:induction false} LinesWithout(expected: Graphs, names: set<string>, name: string)
    requires names <= expected.Keys && name in names
    ensures LinesOf(expected, names) == |expected[name]| + LinesOf(expected, names - {name})
    decreases |names|
  {
    var first :| first in names && LinesOf(expected, names) == |expected[first]| + LinesOf(expected, names - {first});
    if first != name {
      LinesWithout(expected, names - {first}, name);
      LinesWithout(expected, names - {name}, first);
      assert names - {first} - {name} == names - {name} - {first};
    }
  }

  lemma {:induction false} NoLines(expected: Graphs, names: set<string>)
    requires names <= expected.Keys
    ensures LinesOf(expected, names) == 0 <==> forall name :: name in names ==> expected[name] == []
    decreases |names|
  {
    if names != {} {
      var name :| name in names;
      LinesWithout(expected, names, name);
      NoLines(expected, names - {name});
    }
  }

  // ---------------------------------------------------- the comparison

  lemma DiffIsOnly(left: Graph, right: Graph, cfg: Config)
    requires Ordered(cfg)
    ensures var diff := Diff(left, right, DEFAULT_BOUND, cfg);
      && (diff.Refused? <==> Numberings(left, cfg) > 100_000 || Numberings(right, cfg) > 100_000)
      && (diff.Lines? ==> diff == Difference.Lines(Only(left, right, cfg), Only(right, left, cfg)))
  {
    OutcomeByNumberings(left, DEFAULT_BOUND, cfg);
    OutcomeByNumberings(right, DEFAULT_BOUND, cfg);
    var diff := Diff(left, right, DEFAULT_BOUND, cfg);
    if diff.Lines? {
      assert diff.leftOnly == Only(left, right, cfg);
      assert diff.rightOnly == Only(right, left, cfg);
    }
  }

  /** Where the search is within reach, two graphs without repeated lines differ exactly if they are not isomorphic. */
  lemma OnlyMeansIsomorphic(left: Graph, right: Graph, cfg: Config)
    requires Ordered(cfg) && Numberings(left, cfg) <= 100_000 && Numberings(right, cfg) <= 100_000
    ensures |Only(left, right, cfg)| + |Only(right, left, cfg)| == 0 ==> Isomorphic(left, right)
    ensures NoDup(left) && NoDup(right) && Isomorphic(left, right) ==>
      |Only(left, right, cfg)| + |Only(right, left, cfg)| == 0
  {
    DiffIsOnly(left, right, cfg);
    if |Only(left, right, cfg)| + |Only(right, left, cfg)| == 0 { EmptyDiffIsSound(left, right, DEFAULT_BOUND, cfg); }
    if NoDup(left) && NoDup(right) { EmptyDiffMeansIsomorphic(left, right, DEFAULT_BOUND, cfg); }
  }

  /** Nothing was counted for the graphs `names`. */
  ghost predicate NothingCounted(expected: Graphs, stored: Graphs, names: seq<string>, cfg: Config) {
    MissingFrom(expected, stored, names, cfg) + ExtraIn(expected, stored, names, cfg) == 0
  }

  lemma NothingMore(expected: Graphs, stored: Graphs, names: seq<string>, cfg: Config)
    requires names != []
    ensures var name := names[|names| - 1];
      NothingCounted(expected, stored, names, cfg)
      <==> NothingCounted(expected, stored, names[..|names| - 1], cfg)
           && |Only(Expected(expected, name), Stored(stored, name), cfg)|
              + |Only(Stored(stored, name), Expected(expected, name), cfg)| == 0
  {}

  lemma OneMoreIsomorphic(expected: Graphs, stored: Graphs, names: seq<string>)
    requires names != []
    ensures var name := names[|names| - 1];
      AllIsomorphic(expected, stored, names)
      <==> AllIsomorphic(expected, stored, names[..|names| - 1])
           && Isomorphic(Expected(expected, name), Stored(stored, name))
  {
    assert names == names[..|names| - 1] + [names[|names| - 1]];
  }

  lemma {:induction false} CountsMean(expected: Graphs, stored: Graphs, names: seq<string>, cfg: Config)
    requires Ordered(cfg) && Searchable(expected, stored, names, cfg)
    ensures NothingCounted(expected, stored, names, cfg) ==> AllIsomorphic(expected, stored, names)
    ensures DuplicateFree(expected) && DuplicateFree(stored) && AllIsomorphic(expected, stored, names) ==>
      NothingCounted(expected, stored, names, cfg)
    decreases |names|
  {
    if names != [] {
      var before, name := names[..|names| - 1], names[|names| - 1];
      NothingMore(expected, stored, names, cfg);
      OneMoreIsomorphic(expected, stored, names);
      assert WithinReach(expected, stored, name, cfg);
      CountsMean(expected, stored, before, cfg);
      OnlyMeansIsomorphic(Expected(expected, name), Stored(stored, name), cfg);
    }
  }

  // -------------------------------------------------------- the methods

  /** The lines of expected graphs that were never registered. */
  method Unregistered(expected: Graphs, names: set<string>) returns (missing: nat)
    requires names <= expected.Keys
    ensures missing == LinesOf(expected, names)
  {
    missing := 0;
    var left := names;
    while left != {}
      invariant left <= names
      invariant missing + LinesOf(expected, left) == LinesOf(expected, names)
      decreases |left|
    {
      var name :| name in left;
      LinesWithout(expected, left, name);
      missing := missing + |expected[name]|;
      left := left - {name};
    }
  }

  /** The counts so far. */
  ghost predicate Tallied(expected: Graphs, stored: Graphs, names: seq<string>, cfg: Config, missing: nat, extra: nat) {
    && Searchable(expected, stored, names, cfg)
    && missing == MissingFrom(expected, stored, names, cfg) && extra == ExtraIn(expected, stored, names, cfg)
  }

  lemma OneMore(expected: Graphs, stored: Graphs, names: seq<string>, i: nat, cfg: Config, missing: nat, extra: nat)
    requires i < |names| && Tallied(expected, stored, names[..i], cfg, missing, extra)
    ensures !WithinReach(expected, stored, names[i], cfg) ==> !Searchable(expected, stored, names, cfg)
    ensures WithinReach(expected, stored, names[i], cfg) ==>
      Tallied(expected, stored, names[..i + 1], cfg,
              missing + |Only(Expected(expected, names[i]), Stored(stored, names[i]), cfg)|,
              extra + |Only(Stored(stored, names[i]), Expected(expected, names[i]), cfg)|)
  {
    assert names[..i + 1][..i] == names[..i];
    assert names[..i + 1] == names[..i] + [names[i]];
  }

  method CompareGraph(expected: Graphs, stored: Graphs, name: string, cfg: Config)
    returns (refused: bool, missing: nat, extra: nat)
    requires Ordered(cfg)
    ensures refused <==> !WithinReach(expected, stored, name, cfg)
    ensures !refused ==> missing == |Only(Expected(expected, name), Stored(stored, name), cfg)|
    ensures !refused ==> extra == |Only(Stored(stored, name), Expected(expected, name), cfg)|
  {
    var diff := Diff(Expected(expected, name), Stored(stored, name), DEFAULT_BOUND, cfg);
    DiffIsOnly(Expected(expected, name), Stored(stored, name), cfg);
    if diff.Refused? { return true, 0, 0; }
    return false, |diff.leftOnly|, |diff.rightOnly|;
  }

  /** The comparison of the registered graphs, one after another. */
  method CompareRegistered(expected: Graphs, stored: Graphs, registered: seq<string>, cfg: Config)
    returns (refused: bool, missing: nat, extra: nat)
    requires Ordered(cfg)
    ensures refused <==> !Searchable(expected, stored, registered, cfg)
    ensures !refused ==> Tallied(expected, stored, registered, cfg, missing, extra)
  {
    refused, missing, extra := false, 0, 0;
    for i := 0 to |registered|
      invariant Tallied(expected, stored, registered[..i], cfg, missing, extra)
    {
      OneMore(expected, stored, registered, i, cfg, missing, extra);
      var stop, m, e := CompareGraph(expected, stored, registered[i], cfg);
      if stop { return true, missing, extra; }
      missing, extra := missing + m, extra + e;
    }
    assert registered[..|registered|] == registered;
  }

  /** The verdict as the comparisons and the rest of the reference give it. */
  ghost predicate Counted(expected: Graphs, stored: Graphs, registered: seq<string>, cfg: Config, missing: nat,
                          extra: nat)
  {
    && missing == MissingFrom(expected, stored, registered, cfg)
                  + LinesOf(expected, expected.Keys - Elements(registered))
    && extra == ExtraIn(expected, stored, registered, cfg)
  }

  lemma VerdictMeans(expected: Graphs, stored: Graphs, registered: seq<string>, cfg: Config, missing: nat, extra: nat)
    requires Ordered(cfg) && Searchable(expected, stored, registered, cfg)
    requires Counted(expected, stored, registered, cfg, missing, extra)
    ensures missing == 0 && extra == 0 ==> Reproduces(expected, stored, registered)
    ensures DuplicateFree(expected) && DuplicateFree(stored) ==>
      (missing == 0 && extra == 0 <==> Reproduces(expected, stored, registered))
  {
    var rest := expected.Keys - Elements(registered);
    assert forall name :: name in rest <==> name in expected && name !in registered;
    NoLines(expected, rest);
    CountsMean(expected, stored, registered, cfg);
  }

  /**
    `validate`: READY proves that the stored graphs reproduce the reference
    dump up to blank-node names. Without repeated lines the gate opens exactly
    then, unless a graph has too many numberings to search.
   */
  method Validate(expected: Graphs, stored: Graphs, registered: seq<string>, cfg: Config) returns (verdict: Verdict)
    requires Ordered(cfg)
    ensures verdict.SearchFailed? <==> !Searchable(expected, stored, registered, cfg)
    ensures verdict.Ready? ==> Reproduces(expected, stored, registered)
    ensures DuplicateFree(expected) && DuplicateFree(stored) ==>
      (verdict.Ready? <==> Searchable(expected, stored, registered, cfg) && Reproduces(expected, stored, registered))
    ensures verdict.Invalid? ==>
      Counted(expected, stored, registered, cfg, verdict.missing, verdict.extra) && verdict.missing + verdict.extra > 0
  {
    var refused, missing, extra := CompareRegistered(expected, stored, registered, cfg);
    if refused { return SearchFailed; }
    var rest := expected.Keys - Elements(registered);
    var absent := Unregistered(expected, rest);
    missing := missing + absent;
    VerdictMeans(expected, stored, registered, cfg, missing, extra);
    return if missing > 0 || extra > 0 then Invalid(missing, extra) else Ready;
  }
}
