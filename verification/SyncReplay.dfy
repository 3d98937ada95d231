/** A snapshot taken while editing goes on, brought up to date by replaying the change log from before the snapshot. */
module SyncReplay {
  import opened Wrappers
  import opened SyncState
  import opened SyncPlan
  import opened SyncLifecycle
  import opened SyncConvergence
  import opened SyncPoll

  ghost predicate EditOnly(log: seq<Event>) { forall k :: 0 <= k < |log| ==> log[k].change.Edit? }

  /** The revision of `id` after the first `k` events, starting from `base` (0 when it did not exist). */
  function Latest(log: seq<Event>, k: nat, id: string, base: string -> nat): nat
    requires k <= |log|
  {
    if k == 0 then base(id)
    else if log[k - 1].change.Edit? && log[k - 1].change.id == id then log[k - 1].change.revision
    else Latest(log, k - 1, id, base)
  }

  /** Every edit names the revision it replaced, and revisions grow. */
  ghost predicate Linked(log: seq<Event>, base: string -> nat) {
    forall k :: 0 <= k < |log| ==> LinkedAt(log, base, k)
  }

  ghost predicate LinkedAt(log: seq<Event>, base: string -> nat, k: nat)
    requires k < |log|
  {
    log[k].change.Edit? ==>
      && log[k].change.oldRevision == Latest(log, k, log[k].change.id, base)
      && log[k].change.oldRevision < log[k].change.revision
  }

  /** The fetcher and the partitioner serve every revision of the log. */
  ghost predicate Served(w: World, id: string, revision: nat) {
    && w.parts(id, revision).Some?
    && w.versioned(w.parts(id, revision).value.entityRdf, id, revision)
    && (IsProperty(id) ==> w.parts(id, revision).value.schemaRdf.Some?)
  }

  /** The edit is not yet covered by the snapshot `d`. */
  predicate News(d: Durable, event: Event) { event.change.Edit? && Indexed(d, event.change.id) < event.change.revision }

  /** Every revision that the snapshot does not cover yet is served. */
  ghost predicate NewsServed(w: World, start: Durable, log: seq<Event>) {
    forall k :: 0 <= k < |log| && News(start, log[k]) ==> Served(w, log[k].change.id, log[k].change.revision)
  }

  /** The stored graphs of `id` are those of revision `revision`, and it has no others. */
  ghost predicate Holds(w: World, graphs: map<Iri, string>, id: string, revision: nat) {
    && w.parts(id, revision).Some?
    && Shows(graphs, EntityGraph(id), Some(w.parts(id, revision).value.entityRdf))
    && (IsProperty(id) ==> Shows(graphs, SchemaGraph(id), w.parts(id, revision).value.schemaRdf))
  }

  predicate Shows(graphs: map<Iri, string>, iri: Iri, rdf: Option<string>) {
    if rdf.Some? then iri in graphs && graphs[iri] == rdf.value else iri !in graphs
  }

  ghost predicate Faithful(w: World, d: Durable, id: string) {
    Indexed(d, id) > 0 ==> Holds(w, d.graphs, id, Indexed(d, id))
  }

  /** Each entity is caught at a moment of its own, somewhere at or after the start of the log. */
  ghost predicate FuzzySnapshot(w: World, d: Durable, log: seq<Event>, base: string -> nat) {
    forall id :: Faithful(w, d, id) && SomeMoment(Indexed(d, id), log, id, base)
  }

  ghost predicate SomeMoment(revision: nat, log: seq<Event>, id: string, base: string -> nat) {
    exists j: nat :: j <= |log| && revision == Latest(log, j, id, base)
  }

  lemma {:induction false} LatestGrows(log: seq<Event>, i: nat, j: nat, id: string, base: string -> nat)
    requires Linked(log, base) && i <= j <= |log|
    ensures Latest(log, i, id, base) <= Latest(log, j, id, base)
  {
    if i < j {
      LatestGrows(log, i, j - 1, id, base);
      assert LinkedAt(log, base, j - 1);
    }
  }

  // -------------------------------------------------------- one edit

  lemma {:induction false} LastGraph(d: Durable, id: string, parts: Parts)
    ensures var g := ApplyAll(d, GraphWrites(id, parts)).graphs;
      && EntityGraph(id) in g && g[EntityGraph(id)] == parts.entityRdf
      && (IsProperty(id) && parts.schemaRdf.Some? ==>
          SchemaGraph(id) in g && g[SchemaGraph(id)] == parts.schemaRdf.value)
  {
    var put, register := ReplaceGraph(EntityGraph(id), parts.entityRdf), RegisterGraph(EntityGraph(id));
    var mid := Apply(Apply(d, put), register);
    ThreeWrites(d, put, register, register);
    if IsProperty(id) && parts.schemaRdf.Some? {
      var rdf := parts.schemaRdf.value;
      ApplyAppend(d, EntityWrites(id, parts), SchemaWrites(id, rdf));
      ThreeWrites(mid, ReplaceGraph(SchemaGraph(id), rdf), RegisterGraph(SchemaGraph(id)), SchemaIsCurrent);
    } else {
      assert GraphWrites(id, parts) == EntityWrites(id, parts);
    }
  }

  /** Indexing a served revision succeeds and leaves its row and graphs. */
  lemma IndexSucceeds(w: World, d: Durable, id: string, row: Row, revision: nat)
    requires Served(w, id, revision)
    ensures var plan := IndexPlan(w, d, id, row, revision);
      var end := ApplyAll(d, plan.writes);
      && plan.ending.Applied?
      && Indexed(end, id) == revision
      && Holds(w, end.graphs, id, revision)
  {
    var parts := w.parts(id, revision).value;
    var plan := IndexPlan(w, d, id, row, revision);
    LastGraph(d, id, parts);
    var save := SaveEntity(id, IndexedRow(w, row, revision, parts));
    ApplyAppend(d, GraphWrites(id, parts), [save]);
    var mid := ApplyAll(d, GraphWrites(id, parts));
    assert ApplyAll(mid, [save]) == Apply(mid, save);
  }

  /**
    An edit whose predecessor is indexed, or that is already covered, commits;
    the fence moves to the larger revision.
   */
  lemma EditCommits(w: World, d: Durable, event: Event)
    requires event.change.Edit? && !Regresses(d.cursor, event.position)
    requires event.change.revision > event.change.oldRevision
    requires News(d, event) ==> Indexed(d, event.change.id) == event.change.oldRevision
    requires News(d, event) ==> Served(w, event.change.id, event.change.revision)
    requires Faithful(w, d, event.change.id)
    ensures Commits(w, d, event)
    ensures Indexed(Final(w, d, event), event.change.id) == Max(Indexed(d, event.change.id), event.change.revision)
    ensures Faithful(w, Final(w, d, event), event.change.id)
    ensures Final(w, d, event).cursor == Some(event.position)
  {
    var edit := event.change;
    var row := LoadEntity(d.rows, edit.id);
    if News(d, event) { IndexSucceeds(w, d, edit.id, row, edit.revision); }
    CommitAfter(w, d, event);
  }

  /** An edit that commits and was not covered has been served. */
  lemma CommittedWasServed(w: World, d: Durable, event: Event)
    requires Commits(w, d, event) && News(d, event)
    ensures Served(w, event.change.id, event.change.revision)
  {
    var edit := event.change;
    LastGraph(d, edit.id, w.parts(edit.id, edit.revision).value);
  }

  /** An edit of another entity leaves `id` alone. */
  lemma OthersKept(w: World, d: Durable, event: Event, id: string)
    requires event.change.Edit? && event.change.id != id && Commits(w, d, event)
    ensures Indexed(Final(w, d, event), id) == Indexed(d, id)
    ensures Faithful(w, d, id) ==> Faithful(w, Final(w, d, event), id)
  {
    var edit := event.change;
    var ws := BodyPlan(w, d, event).writes;
    EditWithin(w, d, edit.id, edit.revision, edit.oldRevision, false);
    CommitAfter(w, d, event);
    var end := ApplyAll(d, ws);
    forall p | p == RowOf(id) || p == GraphAt(EntityGraph(id)) || p == GraphAt(SchemaGraph(id))
      ensures Look(end, p) == Look(d, p)
    {
      WritesAreBlind(d, d, ws, p);
    }
    assert Look(end, RowOf(id)) == Look(d, RowOf(id));
    assert Look(end, GraphAt(EntityGraph(id))) == Look(d, GraphAt(EntityGraph(id)));
    assert Look(end, GraphAt(SchemaGraph(id))) == Look(d, GraphAt(SchemaGraph(id)));
  }

  // ---------------------------------------------------------- replay

  /** After `k` events every entity is at the later of its snapshot revision and its revision in the log so far. */
  ghost predicate Replayed(w: World, start: Durable, log: seq<Event>, base: string -> nat, k: nat, d: Durable)
    requires k <= |log|
  {
    && StandsAt(log, d.cursor, k)
    && forall id :: Faithful(w, d, id) && Indexed(d, id) == Max(Indexed(start, id), Latest(log, k, id, base))
  }

  /** A snapshot revision is never strictly between an edit and its predecessor. */
  lemma NeverBetween(log: seq<Event>, base: string -> nat, k: nat, revision: nat)
    requires Linked(log, base) && k < |log| && log[k].change.Edit?
    requires SomeMoment(revision, log, log[k].change.id, base)
    ensures revision <= log[k].change.oldRevision || log[k].change.revision <= revision
  {
    var edit := log[k].change;
    assert LinkedAt(log, base, k);
    var j: nat :| j <= |log| && revision == Latest(log, j, edit.id, base);
    if j <= k { LatestGrows(log, j, k, edit.id, base); } else { LatestGrows(log, k + 1, j, edit.id, base); }
  }

  lemma ReplayEvent(w: World, start: Durable, log: seq<Event>, base: string -> nat, k: nat, d: Durable)
    requires k < |log|
    requires Ascending(log) && EditOnly(log) && Linked(log, base)
    requires News(start, log[k]) ==> Served(w, log[k].change.id, log[k].change.revision)
    requires FuzzySnapshot(w, start, log, base) && Replayed(w, start, log, base, k, d)
    ensures Commits(w, d, log[k]) && Replayed(w, start, log, base, k + 1, Final(w, d, log[k]))
  {
    var edit, end := log[k].change, Final(w, d, log[k]);
    assert Faithful(w, start, edit.id) && SomeMoment(Indexed(start, edit.id), log, edit.id, base);
    assert Faithful(w, d, edit.id) && LinkedAt(log, base, k);
    NeverBetween(log, base, k, Indexed(start, edit.id));
    EditCommits(w, d, log[k]);
    CommitMoves(w, log, d, k);
    forall id
      ensures Faithful(w, end, id) && Indexed(end, id) == Max(Indexed(start, id), Latest(log, k + 1, id, base))
    {
      assert Faithful(w, d, id);
      if id != edit.id { OthersKept(w, d, log[k], id); }
    }
  }

  lemma ReplayStart(w: World, start: Durable, log: seq<Event>, base: string -> nat)
    requires Linked(log, base) && FuzzySnapshot(w, start, log, base) && StandsAt(log, start.cursor, 0)
    ensures Replayed(w, start, log, base, 0, start)
  {
    forall id
      ensures Faithful(w, start, id) && Indexed(start, id) == Max(Indexed(start, id), Latest(log, 0, id, base))
    {
      assert Faithful(w, start, id) && SomeMoment(Indexed(start, id), log, id, base);
      var j: nat :| j <= |log| && Indexed(start, id) == Latest(log, j, id, base);
      LatestGrows(log, 0, j, id, base);
    }
  }

  /** What the snapshot does not cover is still not covered when its turn comes. */
  lemma MustHaveServed(w: World, start: Durable, log: seq<Event>, base: string -> nat, k: nat, d: Durable)
    requires EditOnly(log) && Linked(log, base) && k < |log| && Replayed(w, start, log, base, k, d)
    requires Fold(w, start, log, k) == Some(d) && Fold(w, start, log, k + 1).Some?
    ensures News(start, log[k]) ==> Served(w, log[k].change.id, log[k].change.revision)
  {
    assert LinkedAt(log, base, k);
    if News(start, log[k]) { CommittedWasServed(w, d, log[k]); }
  }

  lemma OneMore(w: World, start: Durable, log: seq<Event>, base: string -> nat, k: nat, d: Durable)
    requires k < |log| && Ascending(log) && EditOnly(log) && Linked(log, base)
    requires News(start, log[k]) ==> Served(w, log[k].change.id, log[k].change.revision)
    requires FuzzySnapshot(w, start, log, base) && Replayed(w, start, log, base, k, d)
    requires Fold(w, start, log, k) == Some(d)
    ensures Fold(w, start, log, k + 1).Some? && Replayed(w, start, log, base, k + 1, Fold(w, start, log, k + 1).value)
  {
    ReplayEvent(w, start, log, base, k, d);
  }

  /** As far as the replay gets, it is on schedule and everything new has been served. */
  lemma {:induction false} ReplayedSoFar(w: World, start: Durable, log: seq<Event>, base: string -> nat, k: nat)
    requires Ascending(log) && EditOnly(log) && Linked(log, base) && k <= |log|
    requires FuzzySnapshot(w, start, log, base) && StandsAt(log, start.cursor, 0) && Fold(w, start, log, k).Some?
    ensures Replayed(w, start, log, base, k, Fold(w, start, log, k).value)
    ensures forall m :: 0 <= m < k && News(start, log[m]) ==> Served(w, log[m].change.id, log[m].change.revision)
  {
    if k == 0 {
      ReplayStart(w, start, log, base);
    } else {
      ReplayedSoFar(w, start, log, base, k - 1);
      MustHaveServed(w, start, log, base, k - 1, Fold(w, start, log, k - 1).value);
      OneMore(w, start, log, base, k - 1, Fold(w, start, log, k - 1).value);
    }
  }

  lemma NewsAt(w: World, start: Durable, log: seq<Event>, k: nat)
    requires NewsServed(w, start, log) && k < |log|
    ensures News(start, log[k]) ==> Served(w, log[k].change.id, log[k].change.revision)
  {}

  lemma {:induction false} ReplayTo(w: World, start: Durable, log: seq<Event>, base: string -> nat, k: nat)
    requires Ascending(log) && EditOnly(log) && Linked(log, base) && NewsServed(w, start, log)
    requires FuzzySnapshot(w, start, log, base) && StandsAt(log, start.cursor, 0) && k <= |log|
    ensures Fold(w, start, log, k).Some?
  {
    if k > 0 {
      ReplayTo(w, start, log, base, k - 1);
      ReplayedSoFar(w, start, log, base, k - 1);
      NewsAt(w, start, log, k - 1);
      OneMore(w, start, log, base, k - 1, Fold(w, start, log, k - 1).value);
    }
  }

  /** The fence of `id` is at its last revision, and the stored graphs are those of that revision. */
  ghost predicate AtLast(w: World, log: seq<Event>, base: string -> nat, d: Durable, id: string) {
    Indexed(d, id) == Latest(log, |log|, id, base) && Faithful(w, d, id)
  }

  ghost predicate UpToDate(w: World, log: seq<Event>, base: string -> nat, d: Durable) {
    forall id :: AtLast(w, log, base, d, id)
  }

  lemma ReplayedIsUpToDate(w: World, start: Durable, log: seq<Event>, base: string -> nat, end: Durable)
    requires Linked(log, base) && FuzzySnapshot(w, start, log, base) && Replayed(w, start, log, base, |log|, end)
    ensures UpToDate(w, log, base, end)
  {
    forall id ensures AtLast(w, log, base, end, id) {
      assert Faithful(w, end, id);
      assert Faithful(w, start, id) && SomeMoment(Indexed(start, id), log, id, base);
      var j: nat :| j <= |log| && Indexed(start, id) == Latest(log, j, id, base);
      LatestGrows(log, j, |log|, id, base);
    }
  }

  /**
   * Fuzzy snapshot plus replay: the replay gets through the whole log exactly if every revision that the snapshot does
   * not cover is served. No edit ever raises a gap, and at the end every fence and every stored graph is at the
   * entity's
   * last revision, however unevenly in time the snapshot caught the entities.
   */
  lemma SnapshotPlusReplay(w: World, start: Durable, log: seq<Event>, base: string -> nat)
    requires Ascending(log) && EditOnly(log) && Linked(log, base)
    requires FuzzySnapshot(w, start, log, base) && StandsAt(log, start.cursor, 0)
    ensures Fold(w, start, log, |log|).Some? <==> NewsServed(w, start, log)
    ensures NewsServed(w, start, log) ==>
      forall k :: 0 <= k < |log| ==> Fold(w, start, log, k).Some? && Commits(w, Fold(w, start, log, k).value, log[k])
    ensures Fold(w, start, log, |log|).Some? ==> UpToDate(w, log, base, Fold(w, start, log, |log|).value)
  {
    if NewsServed(w, start, log) {
      ReplayTo(w, start, log, base, |log|);
      forall k | 0 <= k < |log|
        ensures Fold(w, start, log, k).Some? && Commits(w, Fold(w, start, log, k).value, log[k])
      {
        ReplayTo(w, start, log, base, k);
        ReplayTo(w, start, log, base, k + 1);
      }
    }
    if Fold(w, start, log, |log|).Some? {
      ReplayedSoFar(w, start, log, base, |log|);
      ReplayedIsUpToDate(w, start, log, base, Fold(w, start, log, |log|).value);
    }
  }

  /** And a run that gets through with any number of crashes ends there too. */
  lemma ReplayThroughCrashes(w: World, start: Durable, log: seq<Event>, base: string -> nat, moments: seq<Moment>)
    requires Ascending(log) && EditOnly(log) && Linked(log, base)
    requires FuzzySnapshot(w, start, log, base) && StandsAt(log, start.cursor, 0)
    requires Run(w, log, start, moments) && moments[|moments| - 1].passed == |log|
    ensures NewsServed(w, start, log) && UpToDate(w, log, base, moments[|moments| - 1].state)
  {
    CaughtUp(w, log, start, moments);
    SnapshotPlusReplay(w, start, log, base);
  }
}
