/**
  When the engine lets an event through, told on the event and the stored rows,
  and what it leaves when it does not.
 */
module SyncRefusals {
  import opened Wrappers
  import opened SyncState
  import opened SyncPlan
  import opened SyncCrash
  import opened SyncLifecycle
  import opened SyncConvergence
  import opened SyncPoll
  import opened SyncReplay

  /** The event names no entity for certain: it was not understood, or the resolver did not settle it. */
  predicate Unsettled(w: World, event: Event) {
    match event.change
    case Ambiguous => true
    case Lifecycle(_, _) =>
      (match w.resolve(event)
       case None => true
       case Some(es) => |es| == 0)
    case _ => false
  }

  /** An event that is not understood stops the engine before it writes anything. */
  lemma UnsettledStops(w: World, d: Durable, event: Event)
    requires Unsettled(w, event)
    ensures EventPlan(w, d, event).ending
         == Stopped(if event.change.Ambiguous? then "AMBIGUOUS_EVENT" else "AMBIGUOUS_LIFECYCLE")
    ensures Final(w, d, event) == d
  {}

  // ------------------------------------------- when an event goes through

  /** The edit is covered already, or it is the direct successor and can be fetched. */
  ghost predicate Appliable(w: World, d: Durable, id: string, revision: nat, oldRevision: nat) {
    && 1 <= revision
    && (revision <= Indexed(d, id)
        || ((Indexed(d, id) == 0 || oldRevision == Indexed(d, id)) && Served(w, id, revision)))
  }

  /** The entity has a row that a restore can start from. */
  predicate Tombstoned(d: Durable, id: string) {
    id in d.rows && (d.rows[id].status == Deleted || d.rows[id].status == Restoring || d.rows[id].status == Current)
  }

  /**
    One entity of a lifecycle change: an undelete needs a tombstone, a half-done
    restore or a current row to start from; nothing is fetched for what is covered.
   */
  ghost predicate Resolvable(w: World, d: Durable, e: Resolved, undelete: bool) {
    || e.deleted
    || (&& 1 <= e.revision
        && if undelete
           then Tombstoned(d, e.id) && Served(w, e.id, e.revision)
           else e.revision <= Indexed(d, e.id) || Served(w, e.id, e.revision))
  }

  ghost predicate AllResolvable(w: World, d: Durable, es: seq<Resolved>, undelete: bool) {
    forall i :: 0 <= i < |es| ==> Resolvable(w, d, es[i], undelete)
  }

  ghost predicate Processable(w: World, d: Durable, event: Event) {
    match event.change
    case NonEntity => true
    case Ambiguous => false
    case Edit(id, revision, oldRevision) => Appliable(w, d, id, revision, oldRevision)
    case Delete(_) => true
    case Lifecycle(undelete, _) =>
      w.resolve(event).Some? && w.resolve(event).value != [] && AllResolvable(w, d, w.resolve(event).value, undelete)
  }

  lemma IndexedIfServed(w: World, d: Durable, id: string, row: Row, revision: nat)
    ensures IndexPlan(w, d, id, row, revision).ending.Applied? <==> Served(w, id, revision)
    ensures !IndexPlan(w, d, id, row, revision).ending.Ignored?
  {
    if Served(w, id, revision) { IndexSucceeds(w, d, id, row, revision); }
    else if w.parts(id, revision).Some? { LastGraph(d, id, w.parts(id, revision).value); }
  }

  lemma EditExactly(w: World, d: Durable, id: string, revision: nat, oldRevision: nat)
    ensures !EditPlan(w, d, id, revision, oldRevision, false).ending.Stopped?
       <==> Appliable(w, d, id, revision, oldRevision)
  {
    IndexedIfServed(w, d, id, LoadEntity(d.rows, id), revision);
  }

  lemma RestoreExactly(w: World, d: Durable, id: string, revision: nat, oldRevision: nat)
    ensures !EditPlan(w, d, id, revision, oldRevision, true).ending.Stopped?
       <==> (&& 1 <= revision && Tombstoned(d, id)
             && Served(w, id, revision))
  {
    var row := LoadEntity(d.rows, id);
    IndexedIfServed(w, Apply(d, SaveEntity(id, RestoringRow(row))), id, row, revision);
  }

  lemma ResolvedExactly(w: World, d: Durable, e: Resolved, undelete: bool)
    ensures !ResolvedPlan(w, d, e, undelete).ending.Stopped? <==> Resolvable(w, d, e, undelete)
  {
    if undelete { RestoreExactly(w, d, e.id, e.revision, Indexed(d, e.id)); }
    else { EditExactly(w, d, e.id, e.revision, Indexed(d, e.id)); }
  }

  /** Processing one entity does not change what another needs. */
  lemma ResolvableStays(w: World, d: Durable, first: Resolved, es: seq<Resolved>, undelete: bool)
    requires forall i :: 0 <= i < |es| ==> es[i].id != first.id
    ensures AllResolvable(w, ApplyAll(d, ResolvedPlan(w, d, first, undelete).writes), es, undelete)
       <==> AllResolvable(w, d, es, undelete)
  {
    var ws := ResolvedPlan(w, d, first, undelete).writes;
    ResolvedWithin(w, d, first, undelete);
    forall i | 0 <= i < |es|
      ensures Resolvable(w, ApplyAll(d, ws), es[i], undelete) <==> Resolvable(w, d, es[i], undelete)
    {
      assert Own(es[i].id, RowOf(es[i].id)) && !Own(first.id, RowOf(es[i].id));
      WritesAreBlind(d, d, ws, RowOf(es[i].id));
      assert Look(ApplyAll(d, ws), RowOf(es[i].id)) == Look(d, RowOf(es[i].id));
    }
  }

  lemma {:induction false} LifecycleExactly(w: World, d: Durable, es: seq<Resolved>, undelete: bool)
    requires DistinctIds(es)
    ensures !LifecyclePlan(w, d, es, undelete).ending.Stopped? <==> AllResolvable(w, d, es, undelete)
    decreases |es|
  {
    if es != [] {
      ResolvedExactly(w, d, es[0], undelete);
      assert AllResolvable(w, d, es, undelete) <==>
        Resolvable(w, d, es[0], undelete) && AllResolvable(w, d, es[1..], undelete) by
      {
        assert es == [es[0]] + es[1..];
      }
      ResolvableStays(w, d, es[0], es[1..], undelete);
      if Resolvable(w, d, es[0], undelete) {
        LifecycleSplit(w, d, es, undelete);
        LifecycleExactly(w, ApplyAll(d, ResolvedPlan(w, d, es[0], undelete).writes), es[1..], undelete);
      }
    }
  }

  /** The event is later than everything committed. */
  predicate Forward(d: Durable, event: Event) {
    d.cursor.None? || Before(d.cursor.value, event.position)
  }

  /**
    An event is committed exactly if it moves the cursor forward and is a change
    of no entity, an edit covered or applied, a delete, or a lifecycle change
    that the resolver settled and every one of whose entities can be settled.
   */
  lemma CommitsExactly(w: World, d: Durable, event: Event)
    requires ResolvesDistinct(w, event)
    ensures Commits(w, d, event) <==> Processable(w, d, event) && Forward(d, event)
  {
    match event.change
    case Edit(id, revision, oldRevision) => EditExactly(w, d, id, revision, oldRevision);
    case Lifecycle(undelete, _) =>
      if w.resolve(event).Some? { LifecycleExactly(w, d, w.resolve(event).value, undelete); }
    case _ =>
  }

  // ---------------------------------------------------- what is left behind

  lemma CursorMoves(w: World, d: Durable, event: Event)
    ensures Final(w, d, event).cursor == if Commits(w, d, event) then Some(event.position) else d.cursor
  {
    BodyKeepsCursor(w, d, event);
    WritesAreBlind(d, d, BodyPlan(w, d, event).writes, CursorCell);
    if Commits(w, d, event) { CommitAfter(w, d, event); }
  }

  /** A change of no entity, or one that is covered already, moves the cursor and nothing else. */
  lemma SkippedLeaves(w: World, d: Durable, event: Event)
    requires Forward(d, event)
    requires event.change.NonEntity?
          || (event.change.Edit? && 1 <= event.change.revision <= Indexed(d, event.change.id))
    ensures Final(w, d, event) == d.(cursor := Some(event.position))
  {
    CommitAfter(w, d, event);
  }

  /** A gap is recorded in the row of its entity, and stops the engine. */
  lemma GapLeaves(w: World, d: Durable, event: Event)
    requires event.change.Edit? && Indexed(d, event.change.id) != 0
    requires event.change.revision > Indexed(d, event.change.id) != event.change.oldRevision
    ensures EventPlan(w, d, event).ending == Stopped("REVISION_GAP")
    ensures var row := LoadEntity(d.rows, event.change.id);
      Final(w, d, event) ==
      d.(rows := d.rows[event.change.id := Row(row.indexedRevision, event.change.revision, Gap, row.checksum,
                                               Some("REVISION_GAP"))])
  {
    var row := LoadEntity(d.rows, event.change.id);
    var save := SaveEntity(event.change.id, GapRow(row, event.change.revision));
    assert EventPlan(w, d, event).writes == [save];
    assert ApplyAll(d, [save]) == Apply(d, save) by { assert [save][1..] == []; }
  }

  /** Any other edit that is refused leaves every row as it was. */
  lemma RefusedEditLeavesRows(w: World, d: Durable, event: Event)
    requires event.change.Edit? && !Commits(w, d, event) && Forward(d, event)
    requires EventPlan(w, d, event).ending != Stopped("REVISION_GAP")
    ensures Final(w, d, event).rows == d.rows && Final(w, d, event).cursor == d.cursor
  {
    var edit := event.change;
    CursorMoves(w, d, event);
    IndexPlanShape(w, d, edit.id, LoadEntity(d.rows, edit.id), edit.revision);
    EditWithin(w, d, edit.id, edit.revision, edit.oldRevision, false);
    forall id
      ensures id in Final(w, d, event).rows <==> id in d.rows
      ensures id in d.rows ==> Final(w, d, event).rows[id] == d.rows[id]
    {
      WritesAreBlind(d, d, EventPlan(w, d, event).writes, RowOf(id));
    }
  }

  /** A restore that is refused on its way leaves the entity RESTORING, at its old fence, to be started again. */
  lemma RefusedRestoreLeaves(w: World, d: Durable, id: string, revision: nat, oldRevision: nat)
    requires 1 <= revision && Tombstoned(d, id)
    requires EditPlan(w, d, id, revision, oldRevision, true).ending.Stopped?
    ensures var row := LoadEntity(d.rows, id);
      LoadEntity(ApplyAll(d, EditPlan(w, d, id, revision, oldRevision, true).writes).rows, id)
      == Row(row.indexedRevision, row.latestSeenRevision, Restoring, row.checksum, None)
  {
    var row := LoadEntity(d.rows, id);
    var marked := Apply(d, SaveEntity(id, RestoringRow(row)));
    var rest := IndexPlan(w, marked, id, row, revision);
    IndexPlanShape(w, marked, id, row, revision);
    RowKept(marked, rest.writes, id);
    assert EditPlan(w, d, id, revision, oldRevision, true).writes[1..] == rest.writes;
  }

  // ------------------------------------------------------ why it refused

  /** Fetching and storing a revision can fail in three ways. */
  predicate FetchRefused(w: World, id: string, revision: nat, code: string) {
    match w.parts(id, revision)
    case None => code == "FETCH_FAILED"
    case Some(parts) =>
      if IsProperty(id) && parts.schemaRdf == None then code == "PROPERTY_SCHEMA_PARTITION_MISSING"
      else code == "BACKEND_VERIFY_FAILED"
  }

  /** The code names the first thing that stood in the way of an edit. */
  lemma EditRefusedWith(w: World, d: Durable, id: string, revision: nat, oldRevision: nat)
    requires EditPlan(w, d, id, revision, oldRevision, false).ending.Stopped?
    ensures var code := EditPlan(w, d, id, revision, oldRevision, false).ending.code;
      if revision < 1 then code == "SYNC_FAILED"
      else if Indexed(d, id) != 0 && oldRevision != Indexed(d, id) then code == "REVISION_GAP"
      else FetchRefused(w, id, revision, code)
  {
    IndexedIfServed(w, d, id, LoadEntity(d.rows, id), revision);
  }

  /** And of a restore. */
  lemma RestoreRefusedWith(w: World, d: Durable, id: string, revision: nat, oldRevision: nat)
    requires EditPlan(w, d, id, revision, oldRevision, true).ending.Stopped?
    ensures var code := EditPlan(w, d, id, revision, oldRevision, true).ending.code;
      if !Tombstoned(d, id) then code == "UNDELETE_WITHOUT_TOMBSTONE"
      else if revision < 1 then code == "SYNC_FAILED"
      else FetchRefused(w, id, revision, code)
  {
    var row := LoadEntity(d.rows, id);
    IndexedIfServed(w, Apply(d, SaveEntity(id, RestoringRow(row))), id, row, revision);
  }
}
