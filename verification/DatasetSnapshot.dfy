/** Whole-dump and single-entity partitioning: exact, and in agreement with each other. */
module DatasetSnapshot {
  import opened Wrappers
  import opened Sorting
  import opened DatasetPartition

  datatype GraphName = EntityGraph(id: string) | SchemaGraph(id: string) | GlobalGraph

  predicate IsProperty(id: string) { id != "" && id[0] == 'P' }

  function AllLines(triples: seq<Triple>): set<string> { set t | t in triples :: t.line }

  // --------------------------------------------------------- discovery

  function Mentioned(triples: seq<Triple>, names: Naming): seq<string> {
    if triples == [] then []
    else
      (match names.entityOf(triples[0].subject) case Some(id) => [id] case None => [])
      + Mentioned(triples[1..], names)
  }

  /** The ids that are the subject of some triple. */
  function Discovered(triples: seq<Triple>, names: Naming): set<string> { Elements(Mentioned(triples, names)) }

  lemma {:induction false} DiscoveredExact(triples: seq<Triple>, names: Naming, id: string)
    ensures id in Discovered(triples, names) <==> exists t :: t in triples && names.entityOf(t.subject) == Some(id)
  {
    if triples != [] {
      DiscoveredExact(triples[1..], names, id);
      assert triples == [triples[0]] + triples[1..];
      if t :| t in triples && names.entityOf(t.subject) == Some(id) {
        if t != triples[0] { assert t in triples[1..]; }
      }
      if id in Discovered(triples[1..], names) {
        var t :| t in triples[1..] && names.entityOf(t.subject) == Some(id);
        assert t in triples;
      }
    }
  }

  // ---------------------------------------------------------- the dump

  /** `placed` holds exactly the lines of the graphs. */
  ghost predicate Tracks(graphs: map<GraphName, set<string>>, placed: set<string>) {
    forall line :: line in placed <==> exists g :: g in graphs && line in graphs[g]
  }

  ghost predicate OwnGraphs(triples: seq<Triple>, names: Naming, graphs: map<GraphName, set<string>>) {
    && (forall id :: EntityGraph(id) in graphs ==> graphs[EntityGraph(id)] == EntityLines(triples, names, id))
    && (forall id :: SchemaGraph(id) in graphs ==> graphs[SchemaGraph(id)] == SchemaLines(triples, names, id))
  }

  function OwnKeys(ids: set<string>): set<GraphName> {
    (set id | id in ids :: EntityGraph(id)) + (set id | id in ids && IsProperty(id) :: SchemaGraph(id))
  }

  /** The graphs a dump is split into: the owned lines of each entity and property schema, and all other lines. */
  ghost predicate Split(triples: seq<Triple>, names: Naming, graphs: map<GraphName, set<string>>) {
    && graphs.Keys == OwnKeys(Discovered(triples, names)) + {GlobalGraph}
    && OwnGraphs(triples, names, graphs)
    && (forall line :: line in graphs[GlobalGraph] <==>
          line in AllLines(triples) && forall g :: g in graphs && g != GlobalGraph ==> line !in graphs[g])
  }

  /** Graphs after the first entities have been put, before the global graph is. */
  ghost predicate PartlySplit(triples: seq<Triple>, names: Naming, ids: set<string>,
                              graphs: map<GraphName, set<string>>, placed: set<string>) {
    graphs.Keys == OwnKeys(ids) && OwnGraphs(triples, names, graphs) && Tracks(graphs, placed)
  }

  lemma PutTracks(graphs: map<GraphName, set<string>>, placed: set<string>, g: GraphName, lines: set<string>)
    requires g !in graphs && Tracks(graphs, placed)
    ensures Tracks(graphs[g := lines], placed + lines)
  {
    var more := graphs[g := lines];
    forall line ensures line in placed + lines <==> exists h :: h in more && line in more[h] {
      if line in placed {
        var h :| h in graphs && line in graphs[h];
        assert h in more && line in more[h];
      }
      if line in lines { assert g in more && line in more[g]; }
    }
  }

  lemma OneMoreKey(ids: set<string>, id: string)
    ensures OwnKeys(ids + {id}) == OwnKeys(ids) + {EntityGraph(id)} + (if IsProperty(id) then {SchemaGraph(id)} else {})
    ensures id !in ids ==> EntityGraph(id) !in OwnKeys(ids) && SchemaGraph(id) !in OwnKeys(ids)
  {}

  method PutEntity(triples: seq<Triple>, names: Naming, id: string, graphs: map<GraphName, set<string>>,
                   placed: set<string>, ghost ids: set<string>)
    returns (more: map<GraphName, set<string>>, taken: set<string>)
    requires Parsed(triples) && id !in ids && PartlySplit(triples, names, ids, graphs, placed)
    ensures PartlySplit(triples, names, ids + {id}, more, taken)
  {
    OneMoreKey(ids, id);
    var entityLines := OwnedEntityLines(triples, names, id);
    var lines := Elements(entityLines);
    PutTracks(graphs, placed, EntityGraph(id), lines);
    more, taken := graphs[EntityGraph(id) := lines], placed + lines;
    if IsProperty(id) {
      var schemaLines := OwnedPropertySchemaLines(triples, names, id);
      PutTracks(more, taken, SchemaGraph(id), schemaLines);
      more, taken := more[SchemaGraph(id) := schemaLines], taken + schemaLines;
    }
  }

  /** `partitionWikibaseSnapshot`. */
  method PartitionSnapshot(triples: seq<Triple>, names: Naming, idLt: (string, string) -> bool)
    returns (graphs: map<GraphName, set<string>>)
    requires Parsed(triples) && StrictTotal(idLt)
    ensures Split(triples, names, graphs)
  {
    var ids := SortUnique(Mentioned(triples, names), idLt);
    SortUniqueSorted(Mentioned(triples, names), idLt);
    var placed: set<string> := {};
    graphs := map[];
    for i := 0 to |ids|
      invariant PartlySplit(triples, names, Elements(ids[..i]), graphs, placed)
    {
      assert Elements(ids[..i + 1]) == Elements(ids[..i]) + {ids[i]};
      assert forall k :: 0 <= k < i ==> idLt(ids[k], ids[i]);
      graphs, placed := PutEntity(triples, names, ids[i], graphs, placed, Elements(ids[..i]));
    }
    assert ids[..|ids|] == ids;
    var rest := AllLines(triples) - placed;
    GlobalCompletes(triples, names, Elements(ids), graphs, placed, rest);
    graphs := graphs[GlobalGraph := rest];
  }

  lemma GlobalCompletes(triples: seq<Triple>, names: Naming, ids: set<string>, graphs: map<GraphName, set<string>>,
                        placed: set<string>, rest: set<string>)
    requires PartlySplit(triples, names, ids, graphs, placed) && ids == Discovered(triples, names)
    requires rest == AllLines(triples) - placed
    ensures Split(triples, names, graphs[GlobalGraph := rest])
  {
    var all := graphs[GlobalGraph := rest];
    forall line
      ensures line in rest
         <==> line in AllLines(triples) && forall g :: g in all && g != GlobalGraph ==> line !in all[g]
    {
      if line in placed {
        var g :| g in graphs && line in graphs[g];
        assert g in all && g != GlobalGraph && line in all[g];
      }
    }
  }

  // ------------------------------------------------------------ exact

  lemma OwnedAreLines(triples: seq<Triple>, roots: set<string>, follow: Triple -> bool)
    ensures OwnedLines(triples, roots, follow) <= AllLines(triples)
  {}

  /** Nothing is lost and nothing invented; the global graph shares no line with any other graph. */
  lemma SplitExact(triples: seq<Triple>, names: Naming, graphs: map<GraphName, set<string>>)
    requires Split(triples, names, graphs)
    ensures forall line :: line in AllLines(triples) <==> exists g :: g in graphs && line in graphs[g]
    ensures forall g :: g in graphs && g != GlobalGraph ==> graphs[g] !! graphs[GlobalGraph]
  {
    assert GlobalGraph in graphs;
    forall line ensures line in AllLines(triples) <==> exists g :: g in graphs && line in graphs[g] {
      if line in AllLines(triples) && line !in graphs[GlobalGraph] {
        var g :| g in graphs && g != GlobalGraph && line in graphs[g];
      }
      if g :| g in graphs && line in graphs[g] {
        match g
        case EntityGraph(id) => OwnedAreLines(triples, EntityRoots(triples, names, id), Structural(names));
        case SchemaGraph(id) => OwnedAreLines(triples, Seeds(triples, names, id), Blank());
        case GlobalGraph =>
      }
    }
  }

  // --------------------------------------------------------- agreement

  /** `sub` is `whole` with some triples left out. */
  predicate SubSequence(sub: seq<Triple>, whole: seq<Triple>) {
    sub == [] || (whole != [] && ((sub[0] == whole[0] && SubSequence(sub[1..], whole[1..]))
                                  || SubSequence(sub, whole[1..])))
  }

  lemma {:induction false} SubSequenceWithin(sub: seq<Triple>, whole: seq<Triple>)
    requires SubSequence(sub, whole)
    ensures forall t :: t in sub ==> t in whole
  {
    if sub != [] {
      if sub[0] == whole[0] && SubSequence(sub[1..], whole[1..]) {
        SubSequenceWithin(sub[1..], whole[1..]);
        assert sub == [sub[0]] + sub[1..] && whole == [whole[0]] + whole[1..];
      } else {
        SubSequenceWithin(sub, whole[1..]);
      }
    }
  }

  /** Every triple of `whole` that owns a line in `lines` is still there. */
  ghost predicate Keeps(sub: seq<Triple>, whole: seq<Triple>, lines: set<string>) {
    forall t :: t in whole && t.line in lines ==> t in sub
  }

  lemma EdgeInSub(sub: seq<Triple>, whole: seq<Triple>, roots: set<string>, follow: Triple -> bool, x: string,
                  y: string)
    requires Keeps(sub, whole, OwnedLines(whole, roots, follow))
    requires Reachable(whole, roots, follow, x) && Edge(whole, follow, x, y)
    ensures Edge(sub, follow, x, y)
  {
    var t :| t in whole && t.subject == x && t.target == y && !t.kind.IsLiteral? && follow(t);
    assert t.line in OwnedLines(whole, roots, follow);
  }

  lemma {:induction false} PathInSub(sub: seq<Triple>, whole: seq<Triple>, roots: set<string>, follow: Triple -> bool,
                                     path: seq<string>)
    requires Keeps(sub, whole, OwnedLines(whole, roots, follow)) && Path(whole, roots, follow, path)
    ensures Path(sub, roots, follow, path)
  {
    forall i | 0 < i < |path| ensures Edge(sub, follow, path[i - 1], path[i]) {
      assert Path(whole, roots, follow, path[..i]);
      assert path[..i][i - 1] == path[i - 1];
      assert Reachable(whole, roots, follow, path[i - 1]);
      assert Edge(whole, follow, path[i - 1], path[i]);
      EdgeInSub(sub, whole, roots, follow, path[i - 1], path[i]);
    }
  }

  lemma PathInWhole(sub: seq<Triple>, whole: seq<Triple>, roots: set<string>, follow: Triple -> bool, path: seq<string>)
    requires (forall t :: t in sub ==> t in whole) && Path(sub, roots, follow, path)
    ensures Path(whole, roots, follow, path)
  {
    forall i | 0 < i < |path| ensures Edge(whole, follow, path[i - 1], path[i]) {
      assert Edge(sub, follow, path[i - 1], path[i]);
    }
  }

  /** What the roots own does not depend on the triples they do not own. */
  lemma OwnedAgree(sub: seq<Triple>, whole: seq<Triple>, roots: set<string>, follow: Triple -> bool)
    requires (forall t :: t in sub ==> t in whole) && Keeps(sub, whole, OwnedLines(whole, roots, follow))
    ensures OwnedLines(sub, roots, follow) == OwnedLines(whole, roots, follow)
  {
    forall x ensures Reachable(sub, roots, follow, x) <==> Reachable(whole, roots, follow, x) {
      if Reachable(sub, roots, follow, x) {
        var path :| Path(sub, roots, follow, path) && path[|path| - 1] == x;
        PathInWhole(sub, whole, roots, follow, path);
      }
      if Reachable(whole, roots, follow, x) {
        var path :| Path(whole, roots, follow, path) && path[|path| - 1] == x;
        PathInSub(sub, whole, roots, follow, path);
      }
    }
    forall line ensures line in OwnedLines(sub, roots, follow) <==> line in OwnedLines(whole, roots, follow) {
      if line in OwnedLines(whole, roots, follow) {
        var t :| t in whole && Reachable(whole, roots, follow, t.subject) && t.line == line;
        assert t in sub;
      }
    }
  }

  lemma RootsKept(sub: seq<Triple>, whole: seq<Triple>, names: Naming, id: string)
    requires (forall t :: t in sub ==> t in whole) && Keeps(sub, whole, EntityLines(whole, names, id))
    ensures EntityRoots(sub, names, id) == EntityRoots(whole, names, id)
    ensures forall t :: t in whole && RootOf(names, id, t.subject) ==> t in sub
  {
    var roots := EntityRoots(whole, names, id);
    forall t | t in whole && RootOf(names, id, t.subject) ensures t in sub {
      assert t.subject in roots;
      RootReachable(whole, roots, Structural(names), t.subject);
    }
  }

  /** A part of a dump that keeps an entity's owned lines yields the same entity graph as the dump. */
  lemma EntityAgree(sub: seq<Triple>, whole: seq<Triple>, names: Naming, id: string)
    requires (forall t :: t in sub ==> t in whole) && Keeps(sub, whole, EntityLines(whole, names, id))
    ensures EntityLines(sub, names, id) == EntityLines(whole, names, id)
  {
    RootsKept(sub, whole, names, id);
    OwnedAgree(sub, whole, EntityRoots(whole, names, id), Structural(names));
  }

  lemma {:induction false} SchemaRootAgree(sub: seq<Triple>, whole: seq<Triple>, names: Naming, id: string)
    requires SubSequence(sub, whole) && forall t :: t in whole && RootOf(names, id, t.subject) ==> t in sub
    requires forall i, j :: 0 <= i < j < |whole| ==> whole[i] != whole[j]
    ensures SchemaRoot(sub, names, id) == SchemaRoot(whole, names, id)
    decreases |whole|
  {
    if whole != [] {
      assert whole == [whole[0]] + whole[1..];
      if sub != [] && sub[0] == whole[0] && SubSequence(sub[1..], whole[1..]) {
        if names.entityOf(whole[0].subject) != Some(id) {
          forall t | t in whole[1..] && RootOf(names, id, t.subject) ensures t in sub[1..] {
            assert t in sub && sub == [sub[0]] + sub[1..];
            var i :| 0 <= i < |whole[1..]| && whole[1..][i] == t;
            assert whole[0] != whole[i + 1];
          }
          SchemaRootAgree(sub[1..], whole[1..], names, id);
        }
      } else {
        SkippedIsNoRoot(sub, whole, names, id);
        SchemaRootAgree(sub, whole[1..], names, id);
      }
    }
  }

  /** A triple that the part leaves out does not name the property. */
  lemma SkippedIsNoRoot(sub: seq<Triple>, whole: seq<Triple>, names: Naming, id: string)
    requires whole != [] && (sub == [] || SubSequence(sub, whole[1..]))
    requires forall t :: t in whole && RootOf(names, id, t.subject) ==> t in sub
    requires forall i, j :: 0 <= i < j < |whole| ==> whole[i] != whole[j]
    ensures names.entityOf(whole[0].subject) != Some(id)
    ensures SubSequence(sub, whole[1..])
    ensures forall t :: t in whole[1..] && RootOf(names, id, t.subject) ==> t in sub
  {
    assert SubSequence(sub, whole[1..]);
    SubSequenceWithin(sub, whole[1..]);
    assert whole[0] !in whole[1..] by {
      forall i | 0 <= i < |whole[1..]| ensures whole[1..][i] != whole[0] { assert whole[0] != whole[i + 1]; }
    }
    assert whole[0] !in sub;
  }

  lemma SeedsAgree(sub: seq<Triple>, whole: seq<Triple>, names: Naming, id: string)
    requires (forall t :: t in sub ==> t in whole) && SchemaRoot(sub, names, id) == SchemaRoot(whole, names, id)
    requires forall t :: t in whole && RootOf(names, id, t.subject) ==> t in sub
    requires Keeps(sub, whole, SchemaLines(whole, names, id))
    ensures Seeds(sub, names, id) == Seeds(whole, names, id)
  {
    var root := SchemaRoot(whole, names, id);
    SchemaRootNames(whole, names, id);
    forall x | x in Seeds(whole, names, id) ensures x in Seeds(sub, names, id) {
      var t :| t in whole && Some(t.subject) == root && t.kind.IsIri? && IsSubject(whole, t.target)
        && !names.structural(t.target) && t.target == x;
      assert t in sub;
      var c :| c in whole && c.subject == x;
      RootReachable(whole, Seeds(whole, names, id), Blank(), x);
      assert c.line in SchemaLines(whole, names, id);
      assert IsSubject(sub, x);
    }
  }

  lemma {:induction false} SchemaRootNames(triples: seq<Triple>, names: Naming, id: string)
    ensures SchemaRoot(triples, names, id).Some? ==> names.entityOf(SchemaRoot(triples, names, id).value) == Some(id)
  {
    if triples != [] { SchemaRootNames(triples[1..], names, id); }
  }

  /** The same for a property's schema graph. */
  lemma SchemaAgree(sub: seq<Triple>, whole: seq<Triple>, names: Naming, id: string)
    requires SubSequence(sub, whole) && forall i, j :: 0 <= i < j < |whole| ==> whole[i] != whole[j]
    requires Keeps(sub, whole, EntityLines(whole, names, id)) && Keeps(sub, whole, SchemaLines(whole, names, id))
    ensures SchemaLines(sub, names, id) == SchemaLines(whole, names, id)
  {
    SubSequenceWithin(sub, whole);
    RootsKept(sub, whole, names, id);
    SchemaRootAgree(sub, whole, names, id);
    SeedsAgree(sub, whole, names, id);
    OwnedAgree(sub, whole, Seeds(whole, names, id), Blank());
  }

  datatype EntityPartition = EntityPartition(entityLines: set<string>, schemaLines: Option<set<string>>)

  /** `partitionWikibaseEntity`: refused when the entity owns nothing. */
  method PartitionEntity(triples: seq<Triple>, names: Naming, id: string) returns (result: Option<EntityPartition>)
    requires Parsed(triples)
    ensures result.None? <==> EntityLines(triples, names, id) == {}
    ensures result.Some? ==> result.value.entityLines == EntityLines(triples, names, id)
    ensures result.Some? ==>
      result.value.schemaLines == if IsProperty(id) then Some(SchemaLines(triples, names, id)) else None
  {
    var entityLines := OwnedEntityLines(triples, names, id);
    if |entityLines| == 0 { return None; }
    assert entityLines[0] in Elements(entityLines);
    if IsProperty(id) {
      var schemaLines := OwnedPropertySchemaLines(triples, names, id);
      return Some(EntityPartition(Elements(entityLines), Some(schemaLines)));
    }
    return Some(EntityPartition(Elements(entityLines), None));
  }

  /** The incremental path puts the same graphs in the store as the dump path. */
  lemma DumpAndEntityAgree(sub: seq<Triple>, whole: seq<Triple>, names: Naming, id: string,
                           graphs: map<GraphName, set<string>>)
    requires Split(whole, names, graphs) && EntityGraph(id) in graphs
    requires SubSequence(sub, whole) && forall i, j :: 0 <= i < j < |whole| ==> whole[i] != whole[j]
    requires Keeps(sub, whole, graphs[EntityGraph(id)])
    requires (IsProperty(id) ==> Keeps(sub, whole, graphs[SchemaGraph(id)]))
    ensures graphs[EntityGraph(id)] == EntityLines(sub, names, id)
    ensures IsProperty(id) ==> graphs[SchemaGraph(id)] == SchemaLines(sub, names, id)
  {
    SubSequenceWithin(sub, whole);
    EntityAgree(sub, whole, names, id);
    assert IsProperty(id) ==> SchemaGraph(id) in graphs;
    if IsProperty(id) { SchemaAgree(sub, whole, names, id); }
  }
}
