/** Which graphs a dump is split into and which lines each of them holds, told by walks over the triples. */
module DatasetOwnership {
  import opened Wrappers
  import opened DatasetPartition
  import opened DatasetSnapshot

  // ------------------------------------------------------------ entities

  /** A triple points from one node to the next, and not to a literal. */
  ghost predicate PointsTo(triples: seq<Triple>, x: string, y: string) {
    exists t :: t in triples && t.subject == x && t.target == y && t.kind != IsLiteral
  }

  /** The subject names the entity, or the export of the entity. */
  ghost predicate StandsFor(triples: seq<Triple>, names: Naming, id: string, x: string) {
    exists t :: t in triples && t.subject == x && (names.entityOf(x) == Some(id) || names.exportOf(x) == Some(id))
  }

  /** From the entity or its export, through statement, value and reference nodes only. */
  ghost predicate EntityWalk(triples: seq<Triple>, names: Naming, id: string, path: seq<string>) {
    && |path| > 0 && StandsFor(triples, names, id, path[0])
    && forall i :: 0 < i < |path| ==> PointsTo(triples, path[i - 1], path[i]) && names.structural(path[i])
  }

  lemma RootsStand(triples: seq<Triple>, names: Naming, id: string, x: string)
    ensures x in EntityRoots(triples, names, id) <==> StandsFor(triples, names, id, x)
  {
    if StandsFor(triples, names, id, x) {
      var t :| t in triples && t.subject == x && (names.entityOf(x) == Some(id) || names.exportOf(x) == Some(id));
      assert RootOf(names, id, t.subject);
    }
  }

  lemma EntityWalkIsPath(triples: seq<Triple>, names: Naming, id: string, path: seq<string>)
    ensures EntityWalk(triples, names, id, path)
       <==> Path(triples, EntityRoots(triples, names, id), Structural(names), path)
  {
    if |path| > 0 { RootsStand(triples, names, id, path[0]); }
    if EntityWalk(triples, names, id, path) {
      forall i | 0 < i < |path| ensures Edge(triples, Structural(names), path[i - 1], path[i]) {
        assert PointsTo(triples, path[i - 1], path[i]) && names.structural(path[i]);
        StructuralEdge(triples, names, path[i - 1], path[i]);
      }
    }
    if Path(triples, EntityRoots(triples, names, id), Structural(names), path) {
      forall i | 0 < i < |path| ensures PointsTo(triples, path[i - 1], path[i]) && names.structural(path[i]) {
        assert Edge(triples, Structural(names), path[i - 1], path[i]);
        StructuralEdge(triples, names, path[i - 1], path[i]);
      }
    }
  }

  lemma StructuralEdge(triples: seq<Triple>, names: Naming, x: string, y: string)
    ensures Edge(triples, Structural(names), x, y) <==> PointsTo(triples, x, y) && names.structural(y)
  {
    if PointsTo(triples, x, y) && names.structural(y) {
      var t :| t in triples && t.subject == x && t.target == y && t.kind != IsLiteral;
      assert Structural(names)(t);
    }
  }

  /** A line belongs to an entity exactly if such a walk leads to its subject. */
  lemma EntityOwns(triples: seq<Triple>, names: Naming, id: string, line: string)
    ensures line in EntityLines(triples, names, id)
       <==> exists t, path :: t in triples && t.line == line && EntityWalk(triples, names, id, path)
                           && path[|path| - 1] == t.subject
  {
    var roots := EntityRoots(triples, names, id);
    if line in EntityLines(triples, names, id) {
      var t :| t in triples && Reachable(triples, roots, Structural(names), t.subject) && t.line == line;
      var path :| Path(triples, roots, Structural(names), path) && path[|path| - 1] == t.subject;
      EntityWalkIsPath(triples, names, id, path);
    }
    if t, path :| t in triples && t.line == line && EntityWalk(triples, names, id, path)
                  && path[|path| - 1] == t.subject
    {
      EntityWalkIsPath(triples, names, id, path);
      assert Reachable(triples, roots, Structural(names), t.subject);
    }
  }

  // -------------------------------------------------------------- schemas

  /** The first triple whose subject names the property. */
  ghost predicate FirstNaming(triples: seq<Triple>, names: Naming, id: string, i: nat) {
    && i < |triples| && names.entityOf(triples[i].subject) == Some(id)
    && forall k :: 0 <= k < i ==> names.entityOf(triples[k].subject) != Some(id)
  }

  ghost predicate Points(triples: seq<Triple>, x: string, y: string, kind: Kind) {
    exists t :: t in triples && t.subject == x && t.target == y && t.kind == kind
  }

  /**
    The property points to the node by its IRI, the node says something itself
    and is no statement, value or reference.
   */
  ghost predicate Describes(triples: seq<Triple>, names: Naming, id: string, x: string) {
    && (exists i: nat :: FirstNaming(triples, names, id, i) && Points(triples, triples[i].subject, x, IsIri))
    && IsSubject(triples, x) && !names.structural(x)
  }

  /** From such a node, through blank nodes only. */
  ghost predicate SchemaWalk(triples: seq<Triple>, names: Naming, id: string, path: seq<string>) {
    && |path| > 0 && Describes(triples, names, id, path[0])
    && forall i :: 0 < i < |path| ==> Points(triples, path[i - 1], path[i], IsBlank)
  }

  lemma ShiftFirst(triples: seq<Triple>, names: Naming, id: string, i: nat)
    requires triples != [] && names.entityOf(triples[0].subject) != Some(id)
    ensures FirstNaming(triples[1..], names, id, i) <==> FirstNaming(triples, names, id, i + 1)
  {
    if FirstNaming(triples[1..], names, id, i) {
      forall k | 0 <= k < i + 1 ensures names.entityOf(triples[k].subject) != Some(id) {
        if k > 0 { assert triples[1..][k - 1] == triples[k]; }
      }
    }
    if FirstNaming(triples, names, id, i + 1) {
      forall k | 0 <= k < i ensures names.entityOf(triples[1..][k].subject) != Some(id) {
        assert triples[1..][k] == triples[k + 1];
      }
    }
  }

  lemma {:induction false} RootIsFirst(triples: seq<Triple>, names: Naming, id: string)
    ensures SchemaRoot(triples, names, id).None? ==> forall i: nat :: !FirstNaming(triples, names, id, i)
    ensures SchemaRoot(triples, names, id).Some? ==>
      exists i: nat :: FirstNaming(triples, names, id, i) && triples[i].subject == SchemaRoot(triples, names, id).value
  {
    if triples != [] {
      RootIsFirst(triples[1..], names, id);
      if names.entityOf(triples[0].subject) == Some(id) {
        assert FirstNaming(triples, names, id, 0);
      } else if SchemaRoot(triples, names, id).Some? {
        var i: nat :| FirstNaming(triples[1..], names, id, i)
              && triples[1..][i].subject == SchemaRoot(triples, names, id).value;
        ShiftFirst(triples, names, id, i);
      } else {
        forall i: nat ensures !FirstNaming(triples, names, id, i) {
          if i > 0 { ShiftFirst(triples, names, id, i - 1); }
        }
      }
    }
  }

  lemma OneFirst(triples: seq<Triple>, names: Naming, id: string, i: nat, k: nat)
    requires FirstNaming(triples, names, id, i) && FirstNaming(triples, names, id, k)
    ensures i == k
  {}

  lemma SeedsPoint(triples: seq<Triple>, names: Naming, id: string, x: string)
    ensures x in Seeds(triples, names, id) <==>
      && SchemaRoot(triples, names, id).Some? && Points(triples, SchemaRoot(triples, names, id).value, x, IsIri)
      && IsSubject(triples, x) && !names.structural(x)
  {}

  lemma SeedsDescribe(triples: seq<Triple>, names: Naming, id: string, x: string)
    ensures x in Seeds(triples, names, id) <==> Describes(triples, names, id, x)
  {
    SeedsPoint(triples, names, id, x);
    RootIsFirst(triples, names, id);
    if Describes(triples, names, id, x) {
      var i: nat :| FirstNaming(triples, names, id, i) && Points(triples, triples[i].subject, x, IsIri);
      var k: nat :| FirstNaming(triples, names, id, k)
                 && triples[k].subject == SchemaRoot(triples, names, id).value;
      OneFirst(triples, names, id, i, k);
    }
  }

  lemma SchemaWalkIsPath(triples: seq<Triple>, names: Naming, id: string, path: seq<string>)
    ensures SchemaWalk(triples, names, id, path) <==> Path(triples, Seeds(triples, names, id), Blank(), path)
  {
    if |path| > 0 {
      SeedsDescribe(triples, names, id, path[0]);
      forall i | 0 < i < |path|
        ensures Edge(triples, Blank(), path[i - 1], path[i]) <==> Points(triples, path[i - 1], path[i], IsBlank)
      {}
    }
  }

  /** A line belongs to a property's schema exactly if such a walk leads to its subject. */
  lemma SchemaOwns(triples: seq<Triple>, names: Naming, id: string, line: string)
    ensures line in SchemaLines(triples, names, id)
       <==> exists t, path :: t in triples && t.line == line && SchemaWalk(triples, names, id, path)
                           && path[|path| - 1] == t.subject
  {
    var seeds := Seeds(triples, names, id);
    if line in SchemaLines(triples, names, id) {
      var t :| t in triples && Reachable(triples, seeds, Blank(), t.subject) && t.line == line;
      var path :| Path(triples, seeds, Blank(), path) && path[|path| - 1] == t.subject;
      SchemaWalkIsPath(triples, names, id, path);
    }
    if t, path :| t in triples && t.line == line && SchemaWalk(triples, names, id, path)
                  && path[|path| - 1] == t.subject
    {
      SchemaWalkIsPath(triples, names, id, path);
      assert Reachable(triples, seeds, Blank(), t.subject);
    }
  }

  // --------------------------------------------------------------- graphs

  /** One graph for each entity that some subject names, a schema graph for each property among them, and the rest. */
  lemma GraphsOfDump(triples: seq<Triple>, names: Naming, graphs: map<GraphName, set<string>>, id: string)
    requires Split(triples, names, graphs)
    ensures GlobalGraph in graphs
    ensures EntityGraph(id) in graphs <==> exists t :: t in triples && names.entityOf(t.subject) == Some(id)
    ensures SchemaGraph(id) in graphs <==> EntityGraph(id) in graphs && |id| > 0 && id[0] == 'P'
  {
    DiscoveredExact(triples, names, id);
  }
}
