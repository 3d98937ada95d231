/** What a committed change leaves behind, entity by entity. */
module SyncOutcomes {
  import opened Wrappers
  import opened SyncState
  import opened SyncPlan
  import opened SyncCrash
  import opened SyncLifecycle
  import opened SyncConvergence
  import opened SyncReplay
  import opened SyncPoll

  /** Nothing that belongs to `id` differs. */
  ghost predicate Untouched(a: Durable, b: Durable, id: string) {
    forall p :: Own(id, p) ==> Look(a, p) == Look(b, p)
  }

  // -------------------------------------------------------------- edits

  ghost predicate Indexes(w: World, d: Durable, id: string, revision: nat) {
    && Indexed(d, id) == revision && LoadEntity(d.rows, id).status.Current?
    && Holds(w, d.graphs, id, revision)
    && Verified(d, w, id, revision)
    && EntityGraph(id) in d.registry
    && (IsProperty(id) ==> SchemaGraph(id) in d.registry && d.schemaCurrent)
  }

  lemma GraphsRegistered(d: Durable, id: string, parts: Parts)
    requires IsProperty(id) ==> parts.schemaRdf.Some?
    ensures var end := ApplyAll(d, GraphWrites(id, parts));
      EntityGraph(id) in end.registry && (IsProperty(id) ==> SchemaGraph(id) in end.registry && end.schemaCurrent)
  {
    var put, register := ReplaceGraph(EntityGraph(id), parts.entityRdf), RegisterGraph(EntityGraph(id));
    ThreeWrites(d, put, register, register);
    if IsProperty(id) {
      var rdf := parts.schemaRdf.value;
      var mid := Apply(Apply(d, put), register);
      ApplyAppend(d, EntityWrites(id, parts), SchemaWrites(id, rdf));
      ThreeWrites(mid, ReplaceGraph(SchemaGraph(id), rdf), RegisterGraph(SchemaGraph(id)), SchemaIsCurrent);
    } else {
      assert GraphWrites(id, parts) == EntityWrites(id, parts);
    }
  }

  /** The fence advances only over graphs that were stored, registered and seen by the version query. */
  lemma IndexingVerified(w: World, d: Durable, id: string, row: Row, revision: nat)
    requires IndexPlan(w, d, id, row, revision).ending.Applied?
    ensures Indexes(w, ApplyAll(d, IndexPlan(w, d, id, row, revision).writes), id, revision)
  {
    var parts := w.parts(id, revision).value;
    var save := SaveEntity(id, IndexedRow(w, row, revision, parts));
    var mid := ApplyAll(d, GraphWrites(id, parts));
    LastGraph(d, id, parts);
    GraphsRegistered(d, id, parts);
    ApplyAppend(d, GraphWrites(id, parts), [save]);
    assert ApplyAll(mid, [save]) == Apply(mid, save);
  }

  /** An applied edit leaves the entity indexed at its revision, verified, and every other entity as it was. */
  lemma EditApplied(w: World, d: Durable, event: Event, other: string)
    requires event.change.Edit? && Commits(w, d, event) && BodyPlan(w, d, event).ending.Applied?
    requires other != event.change.id
    ensures Indexes(w, Final(w, d, event), event.change.id, event.change.revision)
    ensures w.parts(event.change.id, event.change.revision).Some?
    ensures var seen := LoadEntity(d.rows, event.change.id).latestSeenRevision;
      LoadEntity(Final(w, d, event).rows, event.change.id) ==
      Row(event.change.revision, if seen < event.change.revision then event.change.revision else seen, Current,
          Some(w.checksum(w.parts(event.change.id, event.change.revision).value.entityRdf)), None)
    ensures Untouched(d, Final(w, d, event), other)
    ensures Final(w, d, event).cursor == Some(event.position)
  {
    var edit := event.change;
    var body := BodyPlan(w, d, event).writes;
    IndexingVerified(w, d, edit.id, LoadEntity(d.rows, edit.id), edit.revision);
    CommitAfter(w, d, event);
    EditWithin(w, d, edit.id, edit.revision, edit.oldRevision, false);
    forall p | Own(other, p) ensures Look(d, p) == Look(Final(w, d, event), p) {
      WritesAreBlind(d, d, body, p);
      assert Look(ApplyAll(d, body), p) == Look(Final(w, d, event), p);
    }
  }

  // ------------------------------------------------------------- deletes

  ghost predicate Removed(d: Durable, id: string) {
    && EntityGraph(id) !in d.graphs && EntityGraph(id) !in d.registry
    && (IsProperty(id) ==> SchemaGraph(id) !in d.graphs && SchemaGraph(id) !in d.registry)
    && LoadEntity(d.rows, id).status.Deleted? && LoadEntity(d.rows, id).checksum.None?
  }

  lemma GraphsRemoved(d: Durable, id: string)
    ensures var end := ApplyAll(d, DeleteWrites(id));
      && EntityGraph(id) !in end.graphs && EntityGraph(id) !in end.registry
      && (IsProperty(id) ==> SchemaGraph(id) !in end.graphs && SchemaGraph(id) !in end.registry)
  {
    var drop, unregister := DeleteGraph(EntityGraph(id)), UnregisterGraph(EntityGraph(id));
    var mid := Apply(Apply(d, drop), unregister);
    ThreeWrites(d, drop, unregister, unregister);
    if IsProperty(id) {
      var dropSchema, unregisterSchema := DeleteGraph(SchemaGraph(id)), UnregisterGraph(SchemaGraph(id));
      ApplyAppend(d, [drop, unregister], [dropSchema, unregisterSchema]);
      ThreeWrites(mid, dropSchema, unregisterSchema, unregisterSchema);
    } else {
      assert DeleteWrites(id) == [drop, unregister];
    }
  }

  lemma DeletePlacesOwn(id: string)
    ensures Within(id, DeleteWrites(id))
  {
    var a, b := DeleteGraph(EntityGraph(id)), UnregisterGraph(EntityGraph(id));
    PairTouched(a, b);
    if IsProperty(id) {
      PairTouched(DeleteGraph(SchemaGraph(id)), UnregisterGraph(SchemaGraph(id)));
      TouchedAppend([a, b], [DeleteGraph(SchemaGraph(id)), UnregisterGraph(SchemaGraph(id))]);
    } else {
      assert DeleteWrites(id) == [a, b];
    }
  }

  /**
    A committed delete removes the entity's graphs, also a property's schema
    graph, keeps its fence, and touches nobody else.
   */
  lemma DeleteRemoves(w: World, d: Durable, event: Event, other: string)
    requires event.change.Delete? && Commits(w, d, event) && other != event.change.id
    ensures Removed(Final(w, d, event), event.change.id)
    ensures var row := LoadEntity(d.rows, event.change.id);
      LoadEntity(Final(w, d, event).rows, event.change.id)
      == Row(row.indexedRevision, row.latestSeenRevision, Deleted, None, None)
    ensures Untouched(d, Final(w, d, event), other)
    ensures Final(w, d, event).cursor == Some(event.position)
  {
    var id := event.change.id;
    var body := BodyPlan(w, d, event).writes;
    GraphsRemoved(d, id);
    CommitAfter(w, d, event);
    DeletePlacesOwn(id);
    forall p | Own(other, p) ensures Look(d, p) == Look(Final(w, d, event), p) {
      WritesAreBlind(d, d, body, p);
      assert Look(ApplyAll(d, body), p) == Look(Final(w, d, event), p);
    }
  }

  // ----------------------------------------------------------- lifecycle

  /** What one resolved entity looks like once it is done. */
  ghost predicate Settled(w: World, d: Durable, e: Resolved, undelete: bool) {
    if e.deleted then EntityGraph(e.id) !in d.graphs && LoadEntity(d.rows, e.id).status.Deleted?
    else if undelete then Indexes(w, d, e.id, e.revision)
    else Indexed(d, e.id) >= e.revision
  }

  lemma DoneIsSettled(w: World, d: Durable, e: Resolved, undelete: bool)
    requires Done(w, d, e, undelete)
    ensures Settled(w, d, e, undelete)
  {
    if e.deleted {
      var drop, save := DeleteGraph(EntityGraph(e.id)), SaveEntity(e.id, LoadEntity(d.rows, e.id).(status := Deleted));
      ThreeWrites(d, drop, save, save);
    } else if undelete {
      var row := LoadEntity(d.rows, e.id);
      var marked := SaveEntity(e.id, RestoringRow(row));
      IndexingVerified(w, Apply(d, marked), e.id, row, e.revision);
      AfterFirst(d, marked, IndexPlan(w, Apply(d, marked), e.id, row, e.revision).writes,
                 1 + |IndexPlan(w, Apply(d, marked), e.id, row, e.revision).writes|);
    } else {
      EditSettles(w, d, e.id, e.revision);
    }
  }

  lemma EditSettles(w: World, d: Durable, id: string, revision: nat)
    requires var plan := EditPlan(w, d, id, revision, Indexed(d, id), false);
      !plan.ending.Stopped? && ApplyAll(d, plan.writes) == d
    ensures Indexed(d, id) >= revision
  {
    var plan := EditPlan(w, d, id, revision, Indexed(d, id), false);
    if plan.ending.Applied? { IndexingVerified(w, d, id, LoadEntity(d.rows, id), revision); }
  }

  lemma {:induction false} AllDone(w: World, d: Durable, es: seq<Resolved>, undelete: bool, i: nat)
    requires DistinctIds(es) && i < |es| && !LifecyclePlan(w, d, es, undelete).ending.Stopped?
    ensures Done(w, ApplyAll(d, LifecyclePlan(w, d, es, undelete).writes), es[i], undelete)
    decreases |es|
  {
    var first := ResolvedPlan(w, d, es[0], undelete);
    var next := ApplyAll(d, first.writes);
    LifecycleSplit(w, d, es, undelete);
    if i == 0 {
      FinishedIsDone(w, d, es[0], undelete);
      LifecycleElsewhere(w, next, es[1..], undelete, es[0].id);
      OthersLeaveDone(w, next, es[0], undelete, LifecyclePlan(w, next, es[1..], undelete).writes);
    } else {
      AllDone(w, next, es[1..], undelete, i - 1);
    }
  }

  /**
    A committed lifecycle change leaves every resolved entity settled:
    tombstoned, restored, or at least at its resolved revision.
   */
  lemma LifecycleSettles(w: World, d: Durable, event: Event, i: nat)
    requires event.change.Lifecycle? && Commits(w, d, event) && ResolvesDistinct(w, event)
    requires w.resolve(event).Some? && i < |w.resolve(event).value|
    ensures Settled(w, Final(w, d, event), w.resolve(event).value[i], event.change.undelete)
    ensures Final(w, d, event).cursor == Some(event.position)
  {
    var es, undelete := w.resolve(event).value, event.change.undelete;
    var done := ApplyAll(d, BodyPlan(w, d, event).writes);
    AllDone(w, d, es, undelete, i);
    DoneIsSettled(w, done, es[i], undelete);
    CommitAfter(w, d, event);
    assert Final(w, d, event) == done.(cursor := Some(event.position));
  }

  // ----------------------------------------------------- chains of edits

  /** Event `k` of the uninterrupted run applies an edit of `id`. */
  ghost predicate AppliedAt(w: World, start: Durable, log: seq<Event>, k: nat, id: string) {
    && k < |log| && Fold(w, start, log, k).Some?
    && log[k].change.Edit? && log[k].change.id == id
    && EventPlan(w, Fold(w, start, log, k).value, log[k]).ending.Applied?
  }

  /** The event is no lifecycle change that names `id`. */
  ghost predicate Spares(w: World, event: Event, id: string) {
    event.change.Lifecycle? && w.resolve(event).Some? ==>
      forall i :: 0 <= i < |w.resolve(event).value| ==> w.resolve(event).value[i].id != id
  }

  lemma LifecycleKeepsFence(w: World, d: Durable, event: Event, id: string)
    requires event.change.Lifecycle? && Commits(w, d, event) && Spares(w, event, id)
    ensures Indexed(Final(w, d, event), id) == Indexed(d, id)
  {
    var body := BodyPlan(w, d, event);
    LifecycleElsewhere(w, d, w.resolve(event).value, event.change.undelete, id);
    assert Own(id, RowOf(id));
    RowKept(d, body.writes, id);
    CommitAfter(w, d, event);
  }

  lemma DeleteKeepsFence(w: World, d: Durable, event: Event, id: string)
    requires event.change.Delete? && Commits(w, d, event)
    ensures Indexed(Final(w, d, event), id) == Indexed(d, id)
  {
    if event.change.id == id {
      assert |id + "x"| > |id|;
      DeleteRemoves(w, d, event, id + "x");
    } else {
      DeleteRemoves(w, d, event, id);
      assert Own(id, RowOf(id)) && Look(d, RowOf(id)) == Look(Final(w, d, event), RowOf(id));
    }
  }

  /** Only an applied edit of the entity, or a lifecycle change that names it, moves its fence. */
  lemma FenceStays(w: World, d: Durable, event: Event, id: string)
    requires Commits(w, d, event) && Spares(w, event, id)
    requires event.change.Edit? && event.change.id == id ==> !EventPlan(w, d, event).ending.Applied?
    ensures Indexed(Final(w, d, event), id) == Indexed(d, id)
  {
    match event.change
    case Edit(other, _, _) => if other == id { EditFollowsChain(w, d, event); } else { OthersKept(w, d, event, id); }
    case Delete(_) => DeleteKeepsFence(w, d, event, id);
    case Lifecycle(_, _) => LifecycleKeepsFence(w, d, event, id);
    case NonEntity => CommitAfter(w, d, event);
    case Ambiguous =>
  }

  /** Nothing moves the fence of `id` strictly between events `i` and `j`. */
  ghost predicate Undisturbed(w: World, start: Durable, log: seq<Event>, i: nat, j: nat, id: string)
    requires j <= |log|
  {
    forall k :: i < k < j ==> !AppliedAt(w, start, log, k, id) && Spares(w, log[k], id)
  }

  lemma FenceAfter(w: World, start: Durable, log: seq<Event>, i: nat, id: string)
    requires AppliedAt(w, start, log, i, id) && Fold(w, start, log, i + 1).Some?
    ensures Indexed(Fold(w, start, log, i + 1).value, id) == log[i].change.revision > 0
  {
    EditFollowsChain(w, Fold(w, start, log, i).value, log[i]);
  }

  lemma FenceStep(w: World, start: Durable, log: seq<Event>, k: nat, id: string)
    requires k < |log| && Fold(w, start, log, k + 1).Some?
    requires !AppliedAt(w, start, log, k, id) && Spares(w, log[k], id)
    ensures Fold(w, start, log, k).Some?
    ensures Indexed(Fold(w, start, log, k + 1).value, id) == Indexed(Fold(w, start, log, k).value, id)
  {
    FenceStays(w, Fold(w, start, log, k).value, log[k], id);
  }

  lemma {:induction false} FenceHeld(w: World, start: Durable, log: seq<Event>, i: nat, j: nat, id: string)
    requires i < j <= |log| && Fold(w, start, log, j).Some? && Undisturbed(w, start, log, i, j, id)
    ensures Fold(w, start, log, i + 1).Some?
    ensures Indexed(Fold(w, start, log, j).value, id) == Indexed(Fold(w, start, log, i + 1).value, id)
    decreases j
  {
    if i + 1 < j {
      UndisturbedBefore(w, start, log, i, j, id);
      FenceStep(w, start, log, j - 1, id);
      FenceHeld(w, start, log, i, j - 1, id);
    }
  }

  lemma UndisturbedBefore(w: World, start: Durable, log: seq<Event>, i: nat, j: nat, id: string)
    requires i + 1 < j <= |log| && Undisturbed(w, start, log, i, j, id)
    ensures Undisturbed(w, start, log, i, j - 1, id)
    ensures !AppliedAt(w, start, log, j - 1, id) && Spares(w, log[j - 1], id)
  {}

  /**
    Over any run, of all kinds of events: the revisions applied to an entity
    form an unbroken piece of its chain. Each applied edit names the one applied
    before it as its predecessor, unless a lifecycle change came in between.
   */
  lemma AppliedSegment(w: World, start: Durable, log: seq<Event>, i: nat, j: nat, id: string)
    requires i < j < |log| && AppliedAt(w, start, log, i, id) && AppliedAt(w, start, log, j, id)
    requires Undisturbed(w, start, log, i, j, id)
    ensures log[j].change.oldRevision == log[i].change.revision < log[j].change.revision
  {
    FenceHeld(w, start, log, i, j, id);
    FenceAfter(w, start, log, i, id);
    EditFollowsChain(w, Fold(w, start, log, j).value, log[j]);
  }
}
