/** Partitioning a Wikibase dump into one graph per entity, one per property schema, and the rest. */
module DatasetPartition {
  import opened Wrappers
  import opened Sorting

  datatype Kind = IsIri | IsBlank | IsLiteral
  datatype Triple = Triple(line: string, subject: string, target: string, kind: Kind)

  /**
    How IRIs are read: the entity a subject names, the entity whose export it
    is, and the statement, value and reference nodes.
   */
  datatype Naming = Naming(
    entityOf: string -> Option<string>,
    exportOf: string -> Option<string>,
    structural: string -> bool)

  /** A line parses to one triple only. */
  ghost predicate Parsed(triples: seq<Triple>) {
    forall s, t :: s in triples && t in triples && s.line == t.line ==> s == t
  }

  // -------------------------------------------------------- reachability

  /** A followed edge of the graph. */
  ghost predicate Edge(triples: seq<Triple>, follow: Triple -> bool, x: string, y: string) {
    exists t :: t in triples && t.subject == x && t.target == y && !t.kind.IsLiteral? && follow(t)
  }

  ghost predicate Path(triples: seq<Triple>, roots: set<string>, follow: Triple -> bool, path: seq<string>) {
    && |path| > 0 && path[0] in roots
    && forall i :: 0 < i < |path| ==> Edge(triples, follow, path[i - 1], path[i])
  }

  ghost predicate Reachable(triples: seq<Triple>, roots: set<string>, follow: Triple -> bool, x: string) {
    exists path :: Path(triples, roots, follow, path) && path[|path| - 1] == x
  }

  lemma RootReachable(triples: seq<Triple>, roots: set<string>, follow: Triple -> bool, x: string)
    requires x in roots
    ensures Reachable(triples, roots, follow, x)
  {
    assert Path(triples, roots, follow, [x]);
  }

  lemma EdgeReachable(triples: seq<Triple>, roots: set<string>, follow: Triple -> bool, x: string, y: string)
    requires Reachable(triples, roots, follow, x) && Edge(triples, follow, x, y)
    ensures Reachable(triples, roots, follow, y)
  {
    var path :| Path(triples, roots, follow, path) && path[|path| - 1] == x;
    var longer := path + [y];
    forall i | 0 < i < |longer| ensures Edge(triples, follow, longer[i - 1], longer[i]) {
      if i < |path| { assert Edge(triples, follow, path[i - 1], path[i]); }
    }
    assert Path(triples, roots, follow, longer);
  }

  ghost predicate Closed(triples: seq<Triple>, follow: Triple -> bool, owned: set<string>) {
    forall x, y :: x in owned && Edge(triples, follow, x, y) ==> y in owned
  }

  ghost predicate AllReachable(triples: seq<Triple>, roots: set<string>, follow: Triple -> bool, owned: set<string>) {
    forall x :: x in owned ==> Reachable(triples, roots, follow, x)
  }

  /** A set that holds the roots and is closed under edges holds everything reachable. */
  lemma {:induction false} ClosedHoldsPath(triples: seq<Triple>, roots: set<string>, follow: Triple -> bool,
                                           owned: set<string>, path: seq<string>, n: nat)
    requires roots <= owned && Closed(triples, follow, owned)
    requires Path(triples, roots, follow, path) && n < |path|
    ensures path[n] in owned
  {
    if n > 0 { ClosedHoldsPath(triples, roots, follow, owned, path, n - 1); }
  }

  lemma ClosedHoldsReachable(triples: seq<Triple>, roots: set<string>, follow: Triple -> bool, owned: set<string>)
    requires roots <= owned && Closed(triples, follow, owned)
    ensures forall x :: Reachable(triples, roots, follow, x) ==> x in owned
  {
    forall x | Reachable(triples, roots, follow, x) ensures x in owned {
      var path :| Path(triples, roots, follow, path) && path[|path| - 1] == x;
      ClosedHoldsPath(triples, roots, follow, owned, path, |path| - 1);
    }
  }

  /** The lines whose subject is reachable from the roots. */
  ghost function OwnedLines(triples: seq<Triple>, roots: set<string>, follow: Triple -> bool): set<string> {
    set t | t in triples && Reachable(triples, roots, follow, t.subject) :: t.line
  }

  // ------------------------------------------------------ the fixpoint

  function Objects(triples: seq<Triple>): set<string> { set t | t in triples :: t.target }

  /** One sweep over the triples; it changes nothing only when the set is closed. */
  method Sweep(triples: seq<Triple>, follow: Triple -> bool, owned: set<string>, ghost roots: set<string>)
    returns (next: set<string>, changed: bool)
    requires AllReachable(triples, roots, follow, owned)
    ensures owned <= next <= owned + Objects(triples) && (changed <==> next != owned)
    ensures AllReachable(triples, roots, follow, next)
    ensures !changed ==> Closed(triples, follow, next)
  {
    next, changed := owned, false;
    for i := 0 to |triples|
      invariant owned <= next <= owned + Objects(triples) && (changed <==> next != owned)
      invariant AllReachable(triples, roots, follow, next)
      invariant !changed ==>
        forall k :: 0 <= k < i && triples[k].subject in owned && !triples[k].kind.IsLiteral? && follow(triples[k]) ==>
          triples[k].target in owned
    {
      var t := triples[i];
      if t.subject in next && !t.kind.IsLiteral? && follow(t) && t.target !in next {
        assert Edge(triples, follow, t.subject, t.target);
        EdgeReachable(triples, roots, follow, t.subject, t.target);
        next := next + {t.target};
        changed := true;
      }
    }
  }

  /** `closure`: sweeps until nothing changes; what it owns is exactly what the roots reach. */
  method Closure(triples: seq<Triple>, roots: set<string>, follow: Triple -> bool) returns (owned: set<string>)
    ensures forall x :: x in owned <==> Reachable(triples, roots, follow, x)
  {
    owned := roots;
    var changed := true;
    forall x | x in roots ensures Reachable(triples, roots, follow, x) { RootReachable(triples, roots, follow, x); }
    while changed
      invariant roots <= owned <= roots + Objects(triples)
      invariant AllReachable(triples, roots, follow, owned)
      invariant !changed ==> Closed(triples, follow, owned)
      decreases roots + Objects(triples) - owned, changed
    {
      owned, changed := Sweep(triples, follow, owned, roots);
    }
    ClosedHoldsReachable(triples, roots, follow, owned);
  }

  // ----------------------------------------------------- entity ownership

  predicate RootOf(names: Naming, id: string, subject: string) {
    names.entityOf(subject) == Some(id) || names.exportOf(subject) == Some(id)
  }

  function EntityRoots(triples: seq<Triple>, names: Naming, id: string): set<string> {
    set t | t in triples && RootOf(names, id, t.subject) :: t.subject
  }

  function Structural(names: Naming): Triple -> bool { (t: Triple) => names.structural(t.target) }

  ghost function EntityLines(triples: seq<Triple>, names: Naming, id: string): set<string> {
    OwnedLines(triples, EntityRoots(triples, names, id), Structural(names))
  }

  function LinesOf(triples: seq<Triple>, owned: set<string>): seq<string> {
    if triples == [] then []
    else (if triples[0].subject in owned then [triples[0].line] else []) + LinesOf(triples[1..], owned)
  }

  lemma {:induction false} LinesOfExact(triples: seq<Triple>, owned: set<string>, line: string)
    ensures line in LinesOf(triples, owned) <==> exists t :: t in triples && t.subject in owned && t.line == line
  {
    if triples != [] {
      LinesOfExact(triples[1..], owned, line);
      assert triples == [triples[0]] + triples[1..];
      if t :| t in triples && t.subject in owned && t.line == line {
        if t != triples[0] { assert t in triples[1..]; }
      }
      if line in LinesOf(triples[1..], owned) {
        var t :| t in triples[1..] && t.subject in owned && t.line == line;
        assert t in triples;
      }
    }
  }

  method OwnedEntityLines(triples: seq<Triple>, names: Naming, id: string) returns (lines: seq<string>)
    ensures Elements(lines) == EntityLines(triples, names, id)
  {
    var owned := Closure(triples, EntityRoots(triples, names, id), Structural(names));
    lines := LinesOf(triples, owned);
    forall line
      ensures line in lines <==> line in EntityLines(triples, names, id)
    {
      LinesOfExact(triples, owned, line);
    }
  }

  // ----------------------------------------------------- schema ownership

  /** The first subject that names the property. */
  function SchemaRoot(triples: seq<Triple>, names: Naming, id: string): Option<string> {
    if triples == [] then None
    else if names.entityOf(triples[0].subject) == Some(id) then Some(triples[0].subject)
    else SchemaRoot(triples[1..], names, id)
  }

  predicate IsSubject(triples: seq<Triple>, x: string) { exists t :: t in triples && t.subject == x }

  /** The nodes the property points to, other than its statements, values and references. */
  function Seeds(triples: seq<Triple>, names: Naming, id: string): set<string> {
    var root := SchemaRoot(triples, names, id);
    set t | t in triples && Some(t.subject) == root && t.kind.IsIri? && IsSubject(triples, t.target)
            && !names.structural(t.target) :: t.target
  }

  function Blank(): Triple -> bool { (t: Triple) => t.kind.IsBlank? }

  /** The lines of the seeds and of the blank nodes they lead to. */
  ghost function SchemaLines(triples: seq<Triple>, names: Naming, id: string): set<string> {
    OwnedLines(triples, Seeds(triples, names, id), Blank())
  }

  ghost predicate SchemaClosed(triples: seq<Triple>, lines: set<string>) {
    forall t, c :: t in triples && c in triples && t.line in lines && t.kind.IsBlank? && c.subject == t.target ==>
      c.line in lines
  }

  /** Adds every line of one blank node. */
  method AddNode(triples: seq<Triple>, lines: set<string>, node: string, ghost owned: set<string>)
    returns (next: set<string>, changed: bool)
    requires lines <= owned && forall c :: c in triples && c.subject == node ==> c.line in owned
    ensures lines <= next <= owned && (changed <==> next != lines)
    ensures forall c :: c in triples && c.subject == node ==> c.line in next
  {
    next, changed := lines, false;
    for i := 0 to |triples|
      invariant lines <= next <= owned && (changed <==> next != lines)
      invariant forall k :: 0 <= k < i && triples[k].subject == node ==> triples[k].line in next
    {
      if triples[i].subject == node && triples[i].line !in next {
        next := next + {triples[i].line};
        changed := true;
      }
    }
  }

  /** What a line owned through its triple leads to is owned too. */
  lemma OwnedStep(triples: seq<Triple>, seeds: set<string>, t: Triple)
    requires Parsed(triples) && t in triples && t.line in OwnedLines(triples, seeds, Blank()) && t.kind.IsBlank?
    ensures forall c :: c in triples && c.subject == t.target ==> c.line in OwnedLines(triples, seeds, Blank())
  {
    assert Reachable(triples, seeds, Blank(), t.subject);
    assert Edge(triples, Blank(), t.subject, t.target);
    EdgeReachable(triples, seeds, Blank(), t.subject, t.target);
  }

  method SchemaSweep(triples: seq<Triple>, lines: set<string>, ghost seeds: set<string>)
    returns (next: set<string>, changed: bool)
    requires Parsed(triples) && lines <= OwnedLines(triples, seeds, Blank())
    ensures lines <= next <= OwnedLines(triples, seeds, Blank()) && (changed <==> next != lines)
    ensures !changed ==> SchemaClosed(triples, next)
  {
    next, changed := lines, false;
    ghost var owned := OwnedLines(triples, seeds, Blank());
    for i := 0 to |triples|
      invariant lines <= next <= owned && (changed <==> next != lines)
      invariant !changed ==>
        forall k, c :: (0 <= k < i && c in triples && triples[k].line in lines
                        && triples[k].kind.IsBlank? && c.subject == triples[k].target) ==> c.line in lines
    {
      if triples[i].line in next && triples[i].kind.IsBlank? {
        OwnedStep(triples, seeds, triples[i]);
        var more;
        next, more := AddNode(triples, next, triples[i].target, owned);
        changed := changed || more;
      }
    }
  }

  /** A closed set of lines that holds the lines of the seeds holds every owned line. */
  lemma {:induction false} SchemaClosedHolds(triples: seq<Triple>, seeds: set<string>, lines: set<string>,
                                             path: seq<string>, n: nat, t: Triple)
    requires SchemaClosed(triples, lines) && forall s :: s in triples && s.subject in seeds ==> s.line in lines
    requires Path(triples, seeds, Blank(), path) && n < |path| && t in triples && t.subject == path[n]
    ensures t.line in lines
    decreases n
  {
    if n > 0 {
      assert Edge(triples, Blank(), path[n - 1], path[n]);
      var s :| s in triples && s.subject == path[n - 1] && s.target == path[n] && !s.kind.IsLiteral? && Blank()(s);
      SchemaClosedHolds(triples, seeds, lines, path, n - 1, s);
    }
  }

  lemma SchemaClosedComplete(triples: seq<Triple>, seeds: set<string>, lines: set<string>)
    requires SchemaClosed(triples, lines) && forall s :: s in triples && s.subject in seeds ==> s.line in lines
    ensures OwnedLines(triples, seeds, Blank()) <= lines
  {
    forall t | t in triples && Reachable(triples, seeds, Blank(), t.subject) ensures t.line in lines {
      var path :| Path(triples, seeds, Blank(), path) && path[|path| - 1] == t.subject;
      SchemaClosedHolds(triples, seeds, lines, path, |path| - 1, t);
    }
  }

  /** The lines of the seeds themselves. */
  function SeedLines(triples: seq<Triple>, seeds: set<string>): set<string> {
    set t | t in triples && t.subject in seeds :: t.line
  }

  lemma SeedLinesOwned(triples: seq<Triple>, seeds: set<string>)
    ensures SeedLines(triples, seeds) <= OwnedLines(triples, seeds, Blank())
    ensures forall s :: s in triples && s.subject in seeds ==> s.line in SeedLines(triples, seeds)
  {
    forall x | x in seeds ensures Reachable(triples, seeds, Blank(), x) { RootReachable(triples, seeds, Blank(), x); }
  }

  /** The loop of `ownedPropertySchemaLines`: sweeps until no line is added. */
  method FollowBlanks(triples: seq<Triple>, first: set<string>, ghost seeds: set<string>) returns (lines: set<string>)
    requires Parsed(triples) && first <= OwnedLines(triples, seeds, Blank())
    requires forall s :: s in triples && s.subject in seeds ==> s.line in first
    ensures lines == OwnedLines(triples, seeds, Blank())
  {
    lines := first;
    var changed := true;
    while changed
      invariant first <= lines <= OwnedLines(triples, seeds, Blank())
      invariant !changed ==> SchemaClosed(triples, lines)
      decreases OwnedLines(triples, seeds, Blank()) - lines, changed
    {
      lines, changed := SchemaSweep(triples, lines, seeds);
    }
    SchemaClosedComplete(triples, seeds, lines);
  }

  method OwnedPropertySchemaLines(triples: seq<Triple>, names: Naming, id: string) returns (lines: set<string>)
    requires Parsed(triples)
    ensures lines == SchemaLines(triples, names, id)
  {
    var seeds := Seeds(triples, names, id);
    SeedLinesOwned(triples, seeds);
    lines := FollowBlanks(triples, SeedLines(triples, seeds), seeds);
  }
}
