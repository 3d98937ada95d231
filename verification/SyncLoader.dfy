/** Loading a partitioned snapshot: every stored entity graph sets the fence to the revision it states. */
module SyncLoader {
  import opened Wrappers
  import opened SyncState

  /** The revision an entity graph states about its entity; none when it states none, or several. */
  type RevisionOf = (string, string) -> Option<nat>

  datatype Loaded = Loaded(graphs: map<Iri, string>, rows: map<string, Row>, registry: set<Iri>)

  ghost predicate DistinctGraphs(entries: seq<(Iri, string)>) {
    forall i, j :: 0 <= i < j < |entries| ==> entries[i].0 != entries[j].0
  }

  /** An entity graph of the snapshot whose revision cannot be read. */
  predicate Unreadable(entry: (Iri, string), revisionOf: RevisionOf) {
    && entry.0.EntityGraph? && entry.1 != ""
    && (revisionOf(entry.1, entry.0.id).None? || revisionOf(entry.1, entry.0.id).value < 1)
  }

  ghost predicate Listed(entries: seq<(Iri, string)>, iri: Iri, body: string) {
    exists i :: 0 <= i < |entries| && entries[i] == (iri, body)
  }

  /** The backend holds exactly the nonempty graphs of the snapshot. */
  ghost predicate Stores(graphs: map<Iri, string>, entries: seq<(Iri, string)>) {
    && (forall iri :: iri in graphs ==> graphs[iri] != "" && Listed(entries, iri, graphs[iri]))
    && (forall i :: 0 <= i < |entries| && entries[i].1 != "" ==> entries[i].0 in graphs)
  }

  /** Every graph is registered, and each entity is fenced at the revision its own graph states. */
  ghost predicate Fenced(s: Loaded, revisionOf: RevisionOf) {
    && s.registry == s.graphs.Keys
    && (forall id :: id in s.rows <==> EntityGraph(id) in s.graphs)
    && (forall id :: id in s.rows ==>
          && revisionOf(s.graphs[EntityGraph(id)], id) == Some(s.rows[id].indexedRevision)
          && s.rows[id].indexedRevision >= 1 && s.rows[id].status.Current?)
  }

  ghost predicate Mirrors(s: Loaded, entries: seq<(Iri, string)>, revisionOf: RevisionOf) {
    Stores(s.graphs, entries) && Fenced(s, revisionOf)
  }

  /** The row of each entity is that of its own graph, with nothing seen beyond it. */
  ghost predicate RowsExact(s: Loaded, checksum: string -> string) {
    forall id :: id in s.rows ==>
      && EntityGraph(id) in s.graphs
      && s.rows[id] == Row(s.rows[id].indexedRevision, s.rows[id].indexedRevision, Current,
                           Some(checksum(s.graphs[EntityGraph(id)])), None)
  }

  lemma StoresMore(graphs: map<Iri, string>, done: seq<(Iri, string)>, entry: (Iri, string))
    requires Stores(graphs, done) && DistinctGraphs(done + [entry])
    ensures entry.0 !in graphs
    ensures Stores(if entry.1 != "" then graphs[entry.0 := entry.1] else graphs, done + [entry])
  {
    var all := done + [entry];
    var next := if entry.1 != "" then graphs[entry.0 := entry.1] else graphs;
    assert all[|done|] == entry;
    forall iri | iri in graphs ensures iri != entry.0 && Listed(all, iri, graphs[iri]) {
      assert Listed(done, iri, graphs[iri]);
      var i :| 0 <= i < |done| && done[i] == (iri, graphs[iri]);
      assert all[i] == done[i] && all[i].0 != all[|done|].0;
    }
    forall i | 0 <= i < |all| && all[i].1 != "" ensures all[i].0 in next {
      if i < |done| { assert done[i].0 in graphs; }
    }
    if entry.1 != "" { assert Listed(all, entry.0, entry.1); }
  }

  /** One graph: stored, registered and, for an entity, fenced. */
  method LoadGraph(s: Loaded, entry: (Iri, string), revisionOf: RevisionOf, checksum: string -> string,
                   ghost done: seq<(Iri, string)>) returns (next: Loaded)
    requires Mirrors(s, done, revisionOf) && DistinctGraphs(done + [entry]) && !Unreadable(entry, revisionOf)
    requires RowsExact(s, checksum)
    ensures Mirrors(next, done + [entry], revisionOf) && RowsExact(next, checksum)
  {
    StoresMore(s.graphs, done, entry);
    if entry.1 == "" { return s; }
    next := s.(graphs := s.graphs[entry.0 := entry.1], registry := s.registry + {entry.0});
    if entry.0.EntityGraph? {
      var revision := revisionOf(entry.1, entry.0.id).value;
      next := next.(rows := s.rows[entry.0.id := Row(revision, revision, Current, Some(checksum(entry.1)), None)]);
    }
  }

  /** `loadSnapshot`, into an empty backend and empty rows; refused at the first entity graph without one revision. */
  method LoadSnapshot(entries: seq<(Iri, string)>, revisionOf: RevisionOf, checksum: string -> string)
    returns (result: Outcome<Loaded>)
    requires DistinctGraphs(entries)
    ensures result.Committed? <==> forall i :: 0 <= i < |entries| ==> !Unreadable(entries[i], revisionOf)
    ensures result.Committed? ==> Mirrors(result.state, entries, revisionOf) && RowsExact(result.state, checksum)
  {
    var s := Loaded(map[], map[], {});
    for k := 0 to |entries|
      invariant forall i :: 0 <= i < k ==> !Unreadable(entries[i], revisionOf)
      invariant Mirrors(s, entries[..k], revisionOf) && RowsExact(s, checksum)
    {
      if Unreadable(entries[k], revisionOf) { return Aborted("SNAPSHOT_ENTITY_REVISION_AMBIGUOUS"); }
      assert entries[..k + 1] == entries[..k] + [entries[k]];
      s := LoadGraph(s, entries[k], revisionOf, checksum, entries[..k]);
    }
    assert entries[..|entries|] == entries;
    return Committed(s);
  }
}
