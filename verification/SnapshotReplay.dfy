/** From a dump to an index that is up to date: partition, load, replay, whatever was edited meanwhile. */
module SnapshotReplay {
  import opened Wrappers
  import opened SyncState
  import opened SyncPlan
  import opened SyncConvergence
  import opened SyncPoll
  import opened SyncReplay
  import opened SyncLoader
  import Dp = DatasetPartition
  import Ds = DatasetSnapshot

  /** The N-Triples text of a set of lines. */
  type Rendering = set<string> -> string

  /** The normalised export of an entity at a revision. */
  type Exports = (string, nat) -> seq<Dp.Triple>

  /**
    A dump with what belongs to it: the graphs it is split into, the entries
    the loader walks, the exports of the wiki, and the revision at which the
    dump caught each entity.
   */
  datatype Snapshot = Snapshot(
    dump: seq<Dp.Triple>,
    names: Dp.Naming,
    graphs: map<Ds.GraphName, set<string>>,
    entries: seq<(Iri, string)>,
    exports: Exports,
    at: string -> nat,
    text: Rendering,
    revisionOf: RevisionOf)
  {
    ghost function EntityLines(id: string, revision: nat): set<string> {
      Dp.EntityLines(exports(id, revision), names, id)
    }

    ghost function SchemaLines(id: string, revision: nat): set<string> {
      Dp.SchemaLines(exports(id, revision), names, id)
    }

    predicate Has(id: string) { id in Ds.Discovered(dump, names) }

    /** The revision a loaded entity starts from, 0 when the dump does not have it. */
    function Start(id: string): nat { if Has(id) then at(id) else 0 }
  }

  function IriOf(g: Ds.GraphName): Iri {
    match g
    case EntityGraph(id) => EntityGraph(id)
    case SchemaGraph(id) => SchemaGraph(id)
    case GlobalGraph => GlobalGraph
  }

  ghost predicate Faultless(text: Rendering) { text({}) == "" && forall lines :: lines != {} ==> text(lines) != "" }

  /** What the incremental path makes of an export: nothing when the entity owns nothing. */
  ghost function PartsOf(x: Snapshot, id: string, revision: nat): Option<Parts>
    requires Faultless(x.text)
  {
    var schema := x.SchemaLines(id, revision);
    if x.EntityLines(id, revision) == {} then None
    else
      Some(Parts(x.text(x.EntityLines(id, revision)), if IsProperty(id)
                 && schema != {} then Some(x.text(schema)) else None))
  }

  ghost predicate ServesExports(w: World, x: Snapshot)
    requires Faultless(x.text)
  {
    forall id, revision: nat :: w.parts(id, revision) == PartsOf(x, id, revision)
  }

  /** Every export states its own revision, and no other. */
  ghost predicate StatesRevision(x: Snapshot) {
    forall id, revision: nat :: revision >= 1 && x.EntityLines(id, revision) != {} ==>
      x.revisionOf(x.text(x.EntityLines(id, revision)), id) == Some(revision)
  }

  /**
    The dump caught the entity at its revision: that export is the dump with
    lines left out, none of them the entity's own.
   */
  ghost predicate Caught(x: Snapshot, id: string) {
    var rdf := x.exports(id, x.at(id));
    && x.at(id) >= 1 && Ds.SubSequence(rdf, x.dump)
    && Ds.Keeps(rdf, x.dump, Dp.EntityLines(x.dump, x.names, id))
    && (IsProperty(id) ==> Ds.Keeps(rdf, x.dump, Dp.SchemaLines(x.dump, x.names, id)))
  }

  ghost predicate DumpOf(x: Snapshot) {
    && (forall i, j :: 0 <= i < j < |x.dump| ==> x.dump[i] != x.dump[j])
    && forall id :: x.Has(id) ==> Caught(x, id)
  }

  /** The entries the loader walks are the graphs of the split, each once. */
  ghost predicate Lists(x: Snapshot) {
    && DistinctGraphs(x.entries)
    && (forall g :: g in x.graphs ==> Listed(x.entries, IriOf(g), x.text(x.graphs[g])))
    && (forall i :: 0 <= i < |x.entries| ==> FromSplit(x, x.entries[i]))
  }

  ghost predicate FromSplit(x: Snapshot, entry: (Iri, string)) { exists g :: IsEntry(x, entry, g) }

  predicate IsEntry(x: Snapshot, entry: (Iri, string), g: Ds.GraphName) {
    g in x.graphs && entry == (IriOf(g), x.text(x.graphs[g]))
  }

  /** What is given: the split, the exports behind the dump, and a service that renders, serves and reads them. */
  ghost predicate Given(w: World, x: Snapshot) {
    && Ds.Split(x.dump, x.names, x.graphs) && DumpOf(x) && Lists(x)
    && Faultless(x.text) && ServesExports(w, x) && StatesRevision(x)
  }

  // ---------------------------------------------------------- one entity

  lemma DiscoveredOwns(x: Snapshot, id: string)
    requires x.Has(id)
    ensures Dp.EntityLines(x.dump, x.names, id) != {}
  {
    Ds.DiscoveredExact(x.dump, x.names, id);
    var t :| t in x.dump && x.names.entityOf(t.subject) == Some(id);
    assert t.subject in Dp.EntityRoots(x.dump, x.names, id);
    Dp.RootReachable(x.dump, Dp.EntityRoots(x.dump, x.names, id), Dp.Structural(x.names), t.subject);
    assert t.line in Dp.EntityLines(x.dump, x.names, id);
  }

  /** The dump's graphs of an entity are those of the export it was caught at. */
  lemma SameGraphs(x: Snapshot, id: string)
    requires Ds.Split(x.dump, x.names, x.graphs) && DumpOf(x) && x.Has(id)
    ensures Ds.EntityGraph(id) in x.graphs && x.graphs[Ds.EntityGraph(id)] == x.EntityLines(id, x.at(id)) != {}
    ensures IsProperty(id) ==>
      Ds.SchemaGraph(id) in x.graphs && x.graphs[Ds.SchemaGraph(id)] == x.SchemaLines(id, x.at(id))
  {
    assert Caught(x, id);
    assert Ds.EntityGraph(id) in Ds.OwnKeys(Ds.Discovered(x.dump, x.names));
    assert IsProperty(id) ==> Ds.SchemaGraph(id) in Ds.OwnKeys(Ds.Discovered(x.dump, x.names));
    DiscoveredOwns(x, id);
    Ds.DumpAndEntityAgree(x.exports(id, x.at(id)), x.dump, x.names, id, x.graphs);
  }

  lemma ListedOnce(entries: seq<(Iri, string)>, iri: Iri, body: string, other: string)
    requires DistinctGraphs(entries) && Listed(entries, iri, body) && Listed(entries, iri, other)
    ensures body == other
  {
    var i :| 0 <= i < |entries| && entries[i] == (iri, body);
    var j :| 0 <= j < |entries| && entries[j] == (iri, other);
    assert !(i < j) && !(j < i);
  }

  /** A graph of the split is stored, unless it is empty. */
  lemma StoredGraph(x: Snapshot, s: Loaded, g: Ds.GraphName)
    requires Stores(s.graphs, x.entries) && Lists(x) && g in x.graphs
    ensures Shows(s.graphs, IriOf(g), if x.text(x.graphs[g]) != "" then Some(x.text(x.graphs[g])) else None)
  {
    assert Listed(x.entries, IriOf(g), x.text(x.graphs[g]));
    if IriOf(g) in s.graphs { ListedOnce(x.entries, IriOf(g), s.graphs[IriOf(g)], x.text(x.graphs[g])); }
  }

  /** Only graphs of the split are stored, so only discovered entities are. */
  lemma StoredIsDiscovered(x: Snapshot, s: Loaded, id: string)
    requires Ds.Split(x.dump, x.names, x.graphs) && Stores(s.graphs, x.entries) && Lists(x)
    requires EntityGraph(id) in s.graphs
    ensures x.Has(id)
  {
    var i :| 0 <= i < |x.entries| && x.entries[i] == (EntityGraph(id), s.graphs[EntityGraph(id)]);
    assert FromSplit(x, x.entries[i]);
    var g :| IsEntry(x, x.entries[i], g);
    assert g == Ds.EntityGraph(id);
  }

  // ------------------------------------------------------- the whole load

  /** Such a dump is never refused: every entity graph in it states one revision. */
  lemma NeverRefused(w: World, x: Snapshot, i: nat)
    requires Given(w, x) && i < |x.entries|
    ensures !Unreadable(x.entries[i], x.revisionOf)
  {
    assert FromSplit(x, x.entries[i]);
    var g :| IsEntry(x, x.entries[i], g);
    if g.EntityGraph? {
      assert x.Has(g.id);
      SameGraphs(x, g.id);
      assert Caught(x, g.id);
    }
  }

  lemma CaughtGraphs(w: World, x: Snapshot, s: Loaded, id: string)
    requires Given(w, x) && Stores(s.graphs, x.entries) && x.Has(id)
    ensures EntityGraph(id) in s.graphs && Holds(w, s.graphs, id, x.at(id))
    ensures x.revisionOf(s.graphs[EntityGraph(id)], id) == Some(x.at(id))
  {
    SameGraphs(x, id);
    assert Caught(x, id);
    StoredGraph(x, s, Ds.EntityGraph(id));
    if IsProperty(id) { StoredGraph(x, s, Ds.SchemaGraph(id)); }
    assert w.parts(id, x.at(id)) == PartsOf(x, id, x.at(id));
  }

  /**
    The loader fences each entity at the revision the dump caught it at, and
    stores the graphs the incremental path would.
   */
  lemma LoadedEntity(w: World, x: Snapshot, s: Loaded, id: string)
    requires Given(w, x) && Mirrors(s, x.entries, x.revisionOf)
    ensures id in s.rows <==> x.Has(id)
    ensures id in s.rows ==> s.rows[id].indexedRevision == x.at(id) && Holds(w, s.graphs, id, x.at(id))
  {
    if x.Has(id) { CaughtGraphs(w, x, s, id); }
    if id in s.rows { StoredIsDiscovered(x, s, id); }
    FencedRow(s, x.revisionOf, id);
  }

  lemma FencedRow(s: Loaded, revisionOf: RevisionOf, id: string)
    requires Fenced(s, revisionOf)
    ensures id in s.rows <==> EntityGraph(id) in s.graphs
    ensures id in s.rows ==> revisionOf(s.graphs[EntityGraph(id)], id) == Some(s.rows[id].indexedRevision)
  {}

  // ------------------------------------------------------ load and replay

  /** The state in which the engine starts on a loaded generation. */
  function StartOf(s: Loaded, cursor: Option<Position>): Durable {
    Durable(s.rows, s.graphs, s.registry, true, cursor)
  }

  /** The dump caught each entity at a moment of its own, at or after the start of the log. */
  ghost predicate FuzzyDump(x: Snapshot, log: seq<Event>, base: string -> nat) {
    forall id :: SomeMoment(x.Start(id), log, id, base)
  }

  lemma LoadedIsFuzzy(w: World, x: Snapshot, s: Loaded, log: seq<Event>, base: string -> nat, cursor: Option<Position>)
    requires Given(w, x) && Mirrors(s, x.entries, x.revisionOf) && FuzzyDump(x, log, base)
    ensures FuzzySnapshot(w, StartOf(s, cursor), log, base)
    ensures forall id :: Indexed(StartOf(s, cursor), id) == x.Start(id)
  {
    var d := StartOf(s, cursor);
    forall id ensures Faithful(w, d, id) && SomeMoment(Indexed(d, id), log, id, base) && Indexed(d, id) == x.Start(id) {
      LoadedEntity(w, x, s, id);
      assert SomeMoment(x.Start(id), log, id, base);
    }
  }

  /**
    The engine can index the export: the entity owns lines, a property also
    schema lines, and the version query agrees.
   */
  ghost predicate Indexable(w: World, x: Snapshot, id: string, revision: nat) {
    && x.EntityLines(id, revision) != {}
    && w.versioned(x.text(x.EntityLines(id, revision)), id, revision)
    && (IsProperty(id) ==> x.SchemaLines(id, revision) != {})
  }

  lemma ServedIffIndexable(w: World, x: Snapshot, id: string, revision: nat)
    requires Faultless(x.text) && ServesExports(w, x)
    ensures Served(w, id, revision) <==> Indexable(w, x, id, revision)
  {
    assert w.parts(id, revision) == PartsOf(x, id, revision);
  }

  /** Every export that the log brings and the dump does not have yet can be indexed. */
  ghost predicate NewsIndexable(w: World, x: Snapshot, log: seq<Event>) {
    forall k :: 0 <= k < |log| && log[k].change.Edit? && x.Start(log[k].change.id) < log[k].change.revision ==>
      Indexable(w, x, log[k].change.id, log[k].change.revision)
  }

  lemma NewsMatch(w: World, x: Snapshot, start: Durable, log: seq<Event>)
    requires Faultless(x.text) && ServesExports(w, x)
    requires forall id :: Indexed(start, id) == x.Start(id)
    ensures NewsServed(w, start, log) <==> NewsIndexable(w, x, log)
  {
    forall k | 0 <= k < |log| && log[k].change.Edit?
      ensures News(start, log[k]) <==> x.Start(log[k].change.id) < log[k].change.revision
      ensures Served(w, log[k].change.id, log[k].change.revision)
         <==> Indexable(w, x, log[k].change.id, log[k].change.revision)
    {
      ServedIffIndexable(w, x, log[k].change.id, log[k].change.revision);
    }
  }

  /** The log names every revision in order. */
  ghost predicate Replayable(log: seq<Event>, base: string -> nat) {
    Ascending(log) && EditOnly(log) && Linked(log, base)
  }

  /**
    Load, then replay the log from before the dump: no event is refused exactly
    if every export the dump does not cover can be indexed, and then every
    entity stands at its last revision, in row and graphs, however unevenly in
    time the dump caught the entities.
   */
  lemma LoadThenReplay(w: World, x: Snapshot, s: Loaded, log: seq<Event>, base: string -> nat, cursor: Option<Position>)
    requires Given(w, x) && Mirrors(s, x.entries, x.revisionOf)
    requires FuzzyDump(x, log, base) && Replayable(log, base) && StandsAt(log, cursor, 0)
    ensures Fold(w, StartOf(s, cursor), log, |log|).Some? <==> NewsIndexable(w, x, log)
    ensures NewsIndexable(w, x, log) ==> UpToDate(w, log, base, Fold(w, StartOf(s, cursor), log, |log|).value)
  {
    LoadedIsFuzzy(w, x, s, log, base, cursor);
    NewsMatch(w, x, StartOf(s, cursor), log);
    SnapshotPlusReplay(w, StartOf(s, cursor), log, base);
  }

  /** And the same when the replay crashes and restarts any number of times. */
  lemma LoadThenCrashingReplay(w: World, x: Snapshot, s: Loaded, log: seq<Event>, base: string -> nat,
                               cursor: Option<Position>, moments: seq<Moment>)
    requires Given(w, x) && Mirrors(s, x.entries, x.revisionOf)
    requires FuzzyDump(x, log, base) && Replayable(log, base) && StandsAt(log, cursor, 0)
    requires Run(w, log, StartOf(s, cursor), moments) && moments[|moments| - 1].passed == |log|
    ensures NewsIndexable(w, x, log) && UpToDate(w, log, base, moments[|moments| - 1].state)
  {
    LoadedIsFuzzy(w, x, s, log, base, cursor);
    NewsMatch(w, x, StartOf(s, cursor), log);
    ReplayThroughCrashes(w, StartOf(s, cursor), log, base, moments);
  }

  /** A property whose export owns no schema lines stops the engine, after its entity graph is written. */
  lemma EmptySchemaStops(w: World, x: Snapshot, d: Durable, event: Event)
    requires Faultless(x.text) && ServesExports(w, x)
    requires event.change.Edit? && IsProperty(event.change.id)
    requires x.EntityLines(event.change.id, event.change.revision) != {}
    requires x.SchemaLines(event.change.id, event.change.revision) == {}
    requires News(d, event) && Indexed(d, event.change.id) in {0, event.change.oldRevision}
    ensures EventPlan(w, d, event).ending == Stopped("PROPERTY_SCHEMA_PARTITION_MISSING")
    ensures Final(w, d, event).rows == d.rows && Final(w, d, event).cursor == d.cursor
    ensures var parts := w.parts(event.change.id, event.change.revision);
      parts.Some? && EventPlan(w, d, event).writes == EntityWrites(event.change.id, parts.value)
  {
    var id, revision := event.change.id, event.change.revision;
    assert w.parts(id, revision) == PartsOf(x, id, revision);
    var rdf := w.parts(id, revision).value.entityRdf;
    var put, register := ReplaceGraph(EntityGraph(id), rdf), RegisterGraph(EntityGraph(id));
    ThreeWrites(d, put, register, register);
    assert EventPlan(w, d, event).writes == [put, register];
  }
}
