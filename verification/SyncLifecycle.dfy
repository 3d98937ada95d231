/** A lifecycle change over several entities: entities that are already done stay done when the change starts over. */
module SyncLifecycle {
  import opened SyncState
  import opened SyncPlan
  import opened SyncCrash

  ghost predicate DistinctIds(es: seq<Resolved>) {
    forall i, j :: 0 <= i < j < |es| ==> es[i].id != es[j].id
  }

  lemma WithinAppend(id: string, a: seq<Write>, b: seq<Write>)
    requires Within(id, a) && Within(id, b) && CursorCell !in TouchedAll(a) && CursorCell !in TouchedAll(b)
    ensures Within(id, a + b) && CursorCell !in TouchedAll(a + b)
  {
    TouchedAppend(a, b);
  }

  lemma EditWithin(w: World, d: Durable, id: string, revision: nat, oldRevision: nat, force: bool)
    ensures Within(id, EditPlan(w, d, id, revision, oldRevision, force).writes)
    ensures CursorCell !in TouchedAll(EditPlan(w, d, id, revision, oldRevision, force).writes)
  {
    var row := LoadEntity(d.rows, id);
    var restoring := SaveEntity(id, RestoringRow(row));
    var gap := SaveEntity(id, GapRow(row, revision));
    SingleTouched(restoring);
    SingleTouched(gap);
    IndexPlanShape(w, d, id, row, revision);
    IndexPlanShape(w, Apply(d, restoring), id, row, revision);
    WithinAppend(id, [restoring], IndexPlan(w, Apply(d, restoring), id, row, revision).writes);
  }

  lemma ResolvedWithin(w: World, d: Durable, e: Resolved, undelete: bool)
    ensures Within(e.id, ResolvedPlan(w, d, e, undelete).writes)
    ensures CursorCell !in TouchedAll(ResolvedPlan(w, d, e, undelete).writes)
  {
    if e.deleted {
      var drop, save := DeleteGraph(EntityGraph(e.id)), SaveEntity(e.id, LoadEntity(d.rows, e.id).(status := Deleted));
      SingleTouched(drop);
      SingleTouched(save);
      TouchedAppend([drop], [save]);
      assert ResolvedPlan(w, d, e, undelete).writes == [drop] + [save];
    } else {
      EditWithin(w, d, e.id, e.revision, LoadEntity(d.rows, e.id).indexedRevision, undelete);
    }
  }

  lemma ResolvedRestart(w: World, d: Durable, e: Resolved, undelete: bool, n: nat, plan: Plan, half: Durable)
    requires plan == ResolvedPlan(w, d, e, undelete)
    requires n <= |plan.writes| && half == ApplyAll(d, plan.writes[..n])
    ensures EndsAlike(d, plan, half, ResolvedPlan(w, half, e, undelete))
  {
    if e.deleted {
      TombstoneRow(d, e.id, n);
      Redo(d, plan.writes, n);
    } else {
      EditRestart(w, d, e.id, e.revision, LoadEntity(d.rows, e.id).indexedRevision,
                  LoadEntity(half.rows, e.id).indexedRevision, undelete, n, plan, half);
    }
  }

  lemma TombstoneRow(d: Durable, id: string, n: nat)
    requires n <= 2
    ensures var save := SaveEntity(id, LoadEntity(d.rows, id).(status := Deleted));
      var half := ApplyAll(d, [DeleteGraph(EntityGraph(id)), save][..n]);
      LoadEntity(half.rows, id).(status := Deleted) == LoadEntity(d.rows, id).(status := Deleted)
  {
    var drop, save := DeleteGraph(EntityGraph(id)), SaveEntity(id, LoadEntity(d.rows, id).(status := Deleted));
    var dropped := Apply(d, drop);
    assert [drop, save] == [drop] + [save];
    assert ApplyAll(dropped, [save]) == Apply(dropped, save);
    if n > 0 { AfterFirst(d, drop, [save], n); }
    assert n == 1 ==> [save][..n - 1] == [];
    assert n == 2 ==> [save][..n - 1] == [save];
  }

  // ------------------------------------------------------- already done

  /** Processing `e` here succeeds and changes nothing. */
  ghost predicate Done(w: World, d: Durable, e: Resolved, undelete: bool) {
    !ResolvedPlan(w, d, e, undelete).ending.Stopped? && ApplyAll(d, ResolvedPlan(w, d, e, undelete).writes) == d
  }

  lemma {:induction false} SchemaSet(d: Durable, ws: seq<Write>)
    requires SchemaFlag in TouchedAll(ws)
    ensures ApplyAll(d, ws).schemaCurrent
    decreases |ws|
  {
    if SchemaFlag in Touched(ws[0]) {
      SchemaStays(Apply(d, ws[0]), ws[1..]);
    } else {
      SchemaSet(Apply(d, ws[0]), ws[1..]);
    }
  }

  lemma ResolvedPlanFrame(w: World, a: Durable, b: Durable, e: Resolved, undelete: bool)
    requires LoadEntity(a.rows, e.id) == LoadEntity(b.rows, e.id)
    ensures ResolvedPlan(w, a, e, undelete) == ResolvedPlan(w, b, e, undelete)
  {
    var row := LoadEntity(a.rows, e.id);
    var restoring := SaveEntity(e.id, RestoringRow(row));
    IndexPlanFrame(w, a, b, e.id, row, row, e.revision);
    IndexPlanFrame(w, Apply(a, restoring), Apply(b, restoring), e.id, row, row, e.revision);
  }

  lemma DoneElsewhere(w: World, a: Durable, b: Durable, e: Resolved, undelete: bool)
    requires Done(w, a, e, undelete)
    requires forall p :: Own(e.id, p) ==> Look(a, p) == Look(b, p)
    requires a.schemaCurrent ==> b.schemaCurrent
    ensures Done(w, b, e, undelete)
  {
    assert Own(e.id, RowOf(e.id)) && Look(a, RowOf(e.id)) == Look(b, RowOf(e.id));
    ResolvedPlanFrame(w, a, b, e, undelete);
    ResolvedWithin(w, a, e, undelete);
    var ws := ResolvedPlan(w, a, e, undelete).writes;
    forall p ensures Look(ApplyAll(b, ws), p) == Look(b, p) {
      WritesAreBlind(b, a, ws, p);
      if p in TouchedAll(ws) && !Own(e.id, p) {
        SchemaSet(a, ws);
        SchemaSet(b, ws);
      }
    }
    SameCells(ApplyAll(b, ws), b);
  }

  /** Work on entities other than `e` leaves `e` done. */
  lemma {:induction false} OthersLeaveDone(w: World, a: Durable, e: Resolved, undelete: bool, ws: seq<Write>)
    requires Done(w, a, e, undelete)
    requires forall p :: p in TouchedAll(ws) ==> !Own(e.id, p)
    ensures Done(w, ApplyAll(a, ws), e, undelete)
  {
    var b := ApplyAll(a, ws);
    forall p | Own(e.id, p) ensures Look(a, p) == Look(b, p) { WritesAreBlind(a, a, ws, p); }
    SchemaStays(a, ws);
    DoneElsewhere(w, a, b, e, undelete);
  }

  lemma {:induction false} LifecycleElsewhere(w: World, d: Durable, es: seq<Resolved>, undelete: bool, id: string)
    requires forall i :: 0 <= i < |es| ==> es[i].id != id
    ensures forall p :: p in TouchedAll(LifecyclePlan(w, d, es, undelete).writes) ==> !Own(id, p) && p != CursorCell
    decreases |es|
  {
    if es != [] {
      var first := ResolvedPlan(w, d, es[0], undelete);
      ResolvedWithin(w, d, es[0], undelete);
      if !first.ending.Stopped? {
        LifecycleElsewhere(w, ApplyAll(d, first.writes), es[1..], undelete, id);
        TouchedAppend(first.writes, LifecyclePlan(w, ApplyAll(d, first.writes), es[1..], undelete).writes);
      }
    }
  }

  // --------------------------------------------------------- restarting

  /** A restarted change ends in the same state, with the same refusal if there was one. */
  ghost predicate SameEnd(d: Durable, plan: Plan, half: Durable, again: Plan) {
    && ApplyAll(half, again.writes) == ApplyAll(d, plan.writes)
    && (plan.ending.Stopped? <==> again.ending.Stopped?)
    && (plan.ending.Stopped? ==> again.ending == plan.ending)
  }

  lemma LifecycleSplit(w: World, d: Durable, es: seq<Resolved>, undelete: bool)
    requires es != [] && !ResolvedPlan(w, d, es[0], undelete).ending.Stopped?
    ensures var first := ResolvedPlan(w, d, es[0], undelete);
      var next := ApplyAll(d, first.writes);
      var rest := LifecyclePlan(w, next, es[1..], undelete);
      && LifecyclePlan(w, d, es, undelete) == Plan(first.writes + rest.writes, rest.ending)
      && ApplyAll(d, first.writes + rest.writes) == ApplyAll(next, rest.writes)
  {
    var first := ResolvedPlan(w, d, es[0], undelete);
    ApplyAppend(d, first.writes, LifecyclePlan(w, ApplyAll(d, first.writes), es[1..], undelete).writes);
  }

  /** An entity processed to its end is done. */
  lemma FinishedIsDone(w: World, d: Durable, e: Resolved, undelete: bool)
    requires !ResolvedPlan(w, d, e, undelete).ending.Stopped?
    ensures Done(w, ApplyAll(d, ResolvedPlan(w, d, e, undelete).writes), e, undelete)
  {
    var plan := ResolvedPlan(w, d, e, undelete);
    assert plan.writes[..|plan.writes|] == plan.writes;
    ResolvedRestart(w, d, e, undelete, |plan.writes|, plan, ApplyAll(d, plan.writes));
  }

  /** Cut inside the first entity: it restarts, and the rest follows from the same state. */
  lemma CutInFirst(w: World, d: Durable, es: seq<Resolved>, undelete: bool, n: nat, half: Durable)
    requires es != [] && n <= |ResolvedPlan(w, d, es[0], undelete).writes|
    requires half == ApplyAll(d, ResolvedPlan(w, d, es[0], undelete).writes[..n])
    ensures SameEnd(d, LifecyclePlan(w, d, es, undelete), half, LifecyclePlan(w, half, es, undelete))
  {
    var first := ResolvedPlan(w, d, es[0], undelete);
    ResolvedRestart(w, d, es[0], undelete, n, first, half);
    if !first.ending.Stopped? {
      LifecycleSplit(w, d, es, undelete);
      LifecycleSplit(w, half, es, undelete);
    }
  }

  lemma {:induction false} LifecycleRestart(w: World, d: Durable, es: seq<Resolved>, undelete: bool, n: nat, plan: Plan,
                                            half: Durable)
    requires DistinctIds(es) && plan == LifecyclePlan(w, d, es, undelete)
    requires n <= |plan.writes| && half == ApplyAll(d, plan.writes[..n])
    ensures SameEnd(d, plan, half, LifecyclePlan(w, half, es, undelete))
    decreases |es|
  {
    if es == [] {
      assert half == d;
    } else {
      var first := ResolvedPlan(w, d, es[0], undelete);
      if n <= |first.writes| {
        assert plan.writes[..n] == first.writes[..n];
        CutInFirst(w, d, es, undelete, n, half);
      } else {
        var next := ApplyAll(d, first.writes);
        var rest := LifecyclePlan(w, next, es[1..], undelete);
        var m := n - |first.writes|;
        LifecycleSplit(w, d, es, undelete);
        assert plan.writes[..n] == first.writes + rest.writes[..m];
        ApplyAppend(d, first.writes, rest.writes[..m]);
        LifecycleRestart(w, next, es[1..], undelete, m, rest, half);
        FinishedIsDone(w, d, es[0], undelete);
        LifecycleElsewhere(w, next, es[1..], undelete, es[0].id);
        TouchedPrefix(rest.writes, m);
        OthersLeaveDone(w, next, es[0], undelete, rest.writes[..m]);
        LifecycleSplit(w, half, es, undelete);
      }
    }
  }
}
