/** Crashes between awaits: whatever was already written, processing the same change again ends the same way. */
module SyncCrash {
  import opened SyncState
  import opened SyncPlan

  /** The cells that indexing or deleting `id` may write, apart from the shared schema flag. */
  predicate Own(id: string, p: Place) {
    p == RowOf(id) || p == GraphAt(EntityGraph(id)) || p == GraphAt(SchemaGraph(id))
    || p == RegisteredAt(EntityGraph(id)) || p == RegisteredAt(SchemaGraph(id))
  }

  ghost predicate Within(id: string, ws: seq<Write>) {
    forall p :: p in TouchedAll(ws) ==> Own(id, p) || p == SchemaFlag
  }

  /** Nothing ever unsets the schema flag. */
  lemma {:induction false} SchemaStays(d: Durable, ws: seq<Write>)
    ensures d.schemaCurrent ==> ApplyAll(d, ws).schemaCurrent
    decreases |ws|
  {
    if ws != [] { SchemaStays(Apply(d, ws[0]), ws[1..]); }
  }

  lemma {:induction false} TouchedAppend(a: seq<Write>, b: seq<Write>)
    ensures TouchedAll(a + b) == TouchedAll(a) + TouchedAll(b)
  {
    if a == [] {
      assert a + b == b;
    } else {
      assert (a + b)[1..] == a[1..] + b && (a + b)[0] == a[0];
      TouchedAppend(a[1..], b);
    }
  }

  lemma EntityWritesPlaces(id: string, parts: Parts)
    ensures TouchedAll(EntityWrites(id, parts)) == {GraphAt(EntityGraph(id)), RegisteredAt(EntityGraph(id))}
  {
    var entity, register := ReplaceGraph(EntityGraph(id), parts.entityRdf), RegisterGraph(EntityGraph(id));
    TouchedAppend([entity], [register]);
    SingleTouched(entity);
    SingleTouched(register);
    assert EntityWrites(id, parts) == [entity] + [register];
  }

  lemma SchemaWritesPlaces(id: string, rdf: string)
    ensures TouchedAll(SchemaWrites(id, rdf)) == {GraphAt(SchemaGraph(id)), RegisteredAt(SchemaGraph(id)), SchemaFlag}
  {
    var schema, also := ReplaceGraph(SchemaGraph(id), rdf), RegisterGraph(SchemaGraph(id));
    TouchedAppend([also], [SchemaIsCurrent]);
    TouchedAppend([schema], [also] + [SchemaIsCurrent]);
    SingleTouched(schema);
    SingleTouched(also);
    SingleTouched(SchemaIsCurrent);
    assert SchemaWrites(id, rdf) == [schema] + ([also] + [SchemaIsCurrent]);
  }

  lemma GraphWritesPlaces(id: string, parts: Parts)
    ensures Within(id, GraphWrites(id, parts)) && RowOf(id) !in TouchedAll(GraphWrites(id, parts))
    ensures CursorCell !in TouchedAll(GraphWrites(id, parts))
  {
    EntityWritesPlaces(id, parts);
    if IsProperty(id) && parts.schemaRdf.Some? {
      SchemaWritesPlaces(id, parts.schemaRdf.value);
      TouchedAppend(EntityWrites(id, parts), SchemaWrites(id, parts.schemaRdf.value));
    } else {
      assert GraphWrites(id, parts) == EntityWrites(id, parts);
    }
  }

  lemma RowKept(d: Durable, ws: seq<Write>, id: string)
    requires RowOf(id) !in TouchedAll(ws)
    ensures LoadEntity(ApplyAll(d, ws).rows, id) == LoadEntity(d.rows, id)
  {
    WritesAreBlind(d, d, ws, RowOf(id));
    assert Look(ApplyAll(d, ws), RowOf(id)) == Look(d, RowOf(id));
  }

  /** The version query sees the graph that was just written. */
  lemma VerifiedDependsOnParts(a: Durable, b: Durable, w: World, id: string, revision: nat, parts: Parts)
    ensures Verified(ApplyAll(a, GraphWrites(id, parts)), w, id, revision)
      == Verified(ApplyAll(b, GraphWrites(id, parts)), w, id, revision)
  {
    var ws, p := GraphWrites(id, parts), GraphAt(EntityGraph(id));
    WritesAreBlind(a, b, ws, p);
    TouchedAppend([ws[0]], ws[1..]);
    assert ws == [ws[0]] + ws[1..];
    assert Look(ApplyAll(a, ws), p) == Look(ApplyAll(b, ws), p);
  }

  /** Indexing does not look at the state beyond the row it was given. */
  lemma IndexPlanFrame(w: World, a: Durable, b: Durable, id: string, row: Row, other: Row, revision: nat)
    requires Max(row.latestSeenRevision, revision) == Max(other.latestSeenRevision, revision)
    ensures IndexPlan(w, a, id, row, revision) == IndexPlan(w, b, id, other, revision)
  {
    if w.parts(id, revision).Some? { VerifiedDependsOnParts(a, b, w, id, revision, w.parts(id, revision).value); }
  }

  /** Indexing writes the graphs first and the row last, and the row only when everything succeeded. */
  lemma IndexPlanShape(w: World, d: Durable, id: string, row: Row, revision: nat)
    ensures var plan := IndexPlan(w, d, id, row, revision);
      && !plan.ending.Ignored?
      && Within(id, plan.writes)
      && CursorCell !in TouchedAll(plan.writes)
      && (plan.ending.Stopped? ==> RowOf(id) !in TouchedAll(plan.writes))
      && (plan.ending.Applied? ==>
            && |plan.writes| > 0
            && plan.ending.row.indexedRevision == revision
            && plan.ending.row.status == Current
            && plan.ending.row.latestSeenRevision == Max(row.latestSeenRevision, revision)
            && plan.writes[|plan.writes| - 1] == SaveEntity(id, plan.ending.row)
            && RowOf(id) !in TouchedAll(plan.writes[..|plan.writes| - 1])
            && RowOf(id) in TouchedAll(plan.writes))
  {
    var fetched := w.parts(id, revision);
    if fetched.Some? {
      GraphWritesPlaces(id, fetched.value);
      var graphs := GraphWrites(id, fetched.value);
      var saved := IndexedRow(w, row, revision, fetched.value);
      TouchedAppend(graphs, [SaveEntity(id, saved)]);
      SingleTouched(SaveEntity(id, saved));
      assert (graphs + [SaveEntity(id, saved)])[..|graphs|] == graphs;
    }
  }

  lemma SingleTouched(w: Write)
    ensures TouchedAll([w]) == Touched(w)
  {
    assert [w][1..] == [];
  }

  lemma AppliedRow(d: Durable, ws: seq<Write>, id: string, row: Row)
    requires ws != [] && ws[|ws| - 1] == SaveEntity(id, row)
    ensures ApplyAll(d, ws).rows == ApplyAll(d, ws[..|ws| - 1]).rows[id := row]
  {
    assert ws == ws[..|ws| - 1] + [SaveEntity(id, row)];
    ApplyAppend(d, ws[..|ws| - 1], [SaveEntity(id, row)]);
    var before := ApplyAll(d, ws[..|ws| - 1]);
    assert ApplyAll(before, [SaveEntity(id, row)]) == Apply(before, SaveEntity(id, row));
  }

  /** `again` ends as `plan` does: same final state, same refusal, and the same row when both index. */
  ghost predicate EndsAlike(d: Durable, plan: Plan, half: Durable, again: Plan) {
    && ApplyAll(half, again.writes) == ApplyAll(d, plan.writes)
    && (plan.ending.Stopped? <==> again.ending.Stopped?)
    && (plan.ending.Stopped? ==> again.ending == plan.ending)
    && (plan.ending.Applied? && again.ending.Applied? ==> again.ending == plan.ending)
  }

  /** At the end of indexing the row is the indexed one. */
  lemma IndexFinished(w: World, d: Durable, id: string, row: Row, revision: nat, plan: Plan)
    requires plan == IndexPlan(w, d, id, row, revision) && plan.ending.Applied?
    ensures LoadEntity(ApplyAll(d, plan.writes).rows, id) == plan.ending.row
  {
    IndexPlanShape(w, d, id, row, revision);
    AppliedRow(d, plan.writes, id, plan.ending.row);
  }

  /** Before that it is untouched. */
  lemma RowKeptBefore(d: Durable, ws: seq<Write>, n: nat, m: nat, id: string)
    requires n <= m <= |ws| && RowOf(id) !in TouchedAll(ws[..m])
    ensures LoadEntity(ApplyAll(d, ws[..n]).rows, id) == LoadEntity(d.rows, id)
  {
    assert ws[..m][..n] == ws[..n];
    TouchedPrefix(ws[..m], n);
    RowKept(d, ws[..n], id);
  }

  lemma IndexCut(w: World, d: Durable, id: string, row: Row, revision: nat, n: nat, plan: Plan)
    requires plan == IndexPlan(w, d, id, row, revision) && n <= |plan.writes|
    requires (plan.ending.Stopped? || n < |plan.writes|)
    ensures LoadEntity(ApplyAll(d, plan.writes[..n]).rows, id) == LoadEntity(d.rows, id)
  {
    IndexPlanShape(w, d, id, row, revision);
    if plan.ending.Stopped? {
      assert plan.writes[..|plan.writes|] == plan.writes;
      RowKeptBefore(d, plan.writes, n, |plan.writes|, id);
    } else {
      RowKeptBefore(d, plan.writes, n, |plan.writes| - 1, id);
    }
  }

  /**
    Part-way through indexing the row is untouched, so the same writes are
    planned again; at the end it is the indexed row.
   */
  lemma IndexHalfway(w: World, d: Durable, id: string, row: Row, revision: nat, n: nat, plan: Plan, half: Durable)
    requires plan == IndexPlan(w, d, id, row, revision)
    requires n <= |plan.writes| && half == ApplyAll(d, plan.writes[..n])
    ensures plan.ending.Applied? && n == |plan.writes| ==>
      half == ApplyAll(d, plan.writes) && LoadEntity(half.rows, id) == plan.ending.row
    ensures plan.ending.Stopped? || n < |plan.writes| ==> LoadEntity(half.rows, id) == LoadEntity(d.rows, id)
    ensures IndexPlan(w, half, id, row, revision) == plan
    ensures ApplyAll(half, plan.writes) == ApplyAll(d, plan.writes)
  {
    IndexPlanFrame(w, d, half, id, row, row, revision);
    Redo(d, plan.writes, n);
    if plan.ending.Stopped? || n < |plan.writes| {
      IndexCut(w, d, id, row, revision, n, plan);
    } else if plan.ending.Applied? {
      assert plan.writes[..n] == plan.writes;
      IndexFinished(w, d, id, row, revision, plan);
    }
  }

  lemma IndexRestart(w: World, d: Durable, id: string, revision: nat, oldRevision: nat, next: nat, n: nat, plan: Plan,
                     half: Durable)
    requires Observe(LoadEntity(d.rows, id).indexedRevision, revision, oldRevision).Advance?
    requires plan == EditPlan(w, d, id, revision, oldRevision, false)
    requires n <= |plan.writes| && half == ApplyAll(d, plan.writes[..n])
    requires LoadEntity(half.rows, id).indexedRevision == LoadEntity(d.rows, id).indexedRevision ==> next == oldRevision
    ensures EndsAlike(d, plan, half, EditPlan(w, half, id, revision, next, false))
  {
    var row := LoadEntity(d.rows, id);
    IndexHalfway(w, d, id, row, revision, n, plan, half);
    IndexPlanShape(w, d, id, row, revision);
    if plan.ending.Applied? && n == |plan.writes| {
      assert EditPlan(w, half, id, revision, next, false) == Plan([], Ignored);
    } else {
      assert EditPlan(w, half, id, revision, next, false) == plan;
    }
  }

  /** While an undelete is under way its row is the restoring one, or already the indexed one. */
  lemma HalfRestored(started: Durable, id: string, row: Row, revision: nat, rest: Plan, n: nat)
    requires n <= |rest.writes| && id in started.rows && started.rows[id] == RestoringRow(row)
    requires rest.ending.Stopped? ==> RowOf(id) !in TouchedAll(rest.writes)
    requires rest.ending.Applied? ==>
      && |rest.writes| > 0
      && rest.ending.row.status == Current
      && rest.ending.row.latestSeenRevision == Max(row.latestSeenRevision, revision)
      && rest.writes[|rest.writes| - 1] == SaveEntity(id, rest.ending.row)
      && RowOf(id) !in TouchedAll(rest.writes[..|rest.writes| - 1])
    requires !rest.ending.Ignored?
    ensures var now := LoadEntity(ApplyAll(started, rest.writes[..n]).rows, id);
      && Restorable(now)
      && Max(now.latestSeenRevision, revision) == Max(row.latestSeenRevision, revision)
      && (rest.ending.Stopped? ==> RestoringRow(now) == RestoringRow(row))
  {
    if rest.ending.Stopped? {
      assert rest.writes[..|rest.writes|] == rest.writes;
      RowKeptBefore(started, rest.writes, n, |rest.writes|, id);
    } else if n == |rest.writes| {
      assert rest.writes[..n] == rest.writes;
      AppliedRow(started, rest.writes, id, rest.ending.row);
    } else {
      RowKeptBefore(started, rest.writes, n, |rest.writes| - 1, id);
    }
  }

  /** Marking the row again and repeating the writes ends where the first pass ends. */
  lemma ResumedConverges(started: Durable, ws: seq<Write>, n: nat, id: string, restoring: Row)
    requires n <= |ws| && id in started.rows && (RowOf(id) in TouchedAll(ws) || restoring == started.rows[id])
    ensures ApplyAll(Apply(ApplyAll(started, ws[..n]), SaveEntity(id, restoring)), ws) == ApplyAll(started, ws)
  {
    var resumed := Apply(ApplyAll(started, ws[..n]), SaveEntity(id, restoring));
    TouchedPrefix(ws, n);
    forall p | p !in TouchedAll(ws) ensures Look(resumed, p) == Look(started, p) {
      WritesAreBlind(started, started, ws[..n], p);
    }
    Converge(resumed, started, ws);
  }

  /** Resuming an undelete marks the row again and repeats the same indexing. */
  lemma RestoreResumed(w: World, d: Durable, id: string, row: Row, revision: nat, n: nat, rest: Plan, half: Durable)
    requires row == LoadEntity(d.rows, id)
    requires var started := Apply(d, SaveEntity(id, RestoringRow(row)));
      && rest == IndexPlan(w, started, id, row, revision)
      && n <= |rest.writes|
      && half == ApplyAll(started, rest.writes[..n])
    ensures var now := LoadEntity(half.rows, id);
      var resumed := Apply(half, SaveEntity(id, RestoringRow(now)));
      && Restorable(now)
      && IndexPlan(w, resumed, id, now, revision) == rest
      && ApplyAll(resumed, rest.writes) == ApplyAll(Apply(d, SaveEntity(id, RestoringRow(row))), rest.writes)
  {
    var started := Apply(d, SaveEntity(id, RestoringRow(row)));
    IndexPlanShape(w, started, id, row, revision);
    HalfRestored(started, id, row, revision, rest, n);
    var now := LoadEntity(half.rows, id);
    var resumed := Apply(half, SaveEntity(id, RestoringRow(now)));
    IndexPlanFrame(w, started, resumed, id, row, now, revision);
    ResumedConverges(started, rest.writes, n, id, RestoringRow(now));
  }

  lemma ForcedPlan(w: World, d: Durable, id: string, revision: nat, oldRevision: nat, first: Write, rest: Plan)
    requires Restorable(LoadEntity(d.rows, id)) && revision >= 1
    requires first == SaveEntity(id, RestoringRow(LoadEntity(d.rows, id)))
    requires rest == IndexPlan(w, Apply(d, first), id, LoadEntity(d.rows, id), revision)
    ensures EditPlan(w, d, id, revision, oldRevision, true) == Plan([first] + rest.writes, rest.ending)
  {}

  lemma RestoreRestart(w: World, d: Durable, id: string, revision: nat, oldRevision: nat, next: nat, n: nat, plan: Plan,
                       half: Durable)
    requires Restorable(LoadEntity(d.rows, id)) && revision >= 1
    requires plan == EditPlan(w, d, id, revision, oldRevision, true)
    requires 1 <= n <= |plan.writes| && half == ApplyAll(d, plan.writes[..n])
    ensures EndsAlike(d, plan, half, EditPlan(w, half, id, revision, next, true))
  {
    var restoring := SaveEntity(id, RestoringRow(LoadEntity(d.rows, id)));
    var rest := IndexPlan(w, Apply(d, restoring), id, LoadEntity(d.rows, id), revision);
    ForcedPlan(w, d, id, revision, oldRevision, restoring, rest);
    AfterFirst(d, restoring, rest.writes, n);
    RestoreResumed(w, d, id, LoadEntity(d.rows, id), revision, n - 1, rest, half);
    var again := SaveEntity(id, RestoringRow(LoadEntity(half.rows, id)));
    ForcedPlan(w, half, id, revision, next, again, rest);
    SameRest(d, half, restoring, again, rest);
  }

  /** Plans that differ in their first write only end alike when the rest does. */
  lemma SameRest(d: Durable, half: Durable, first: Write, again: Write, rest: Plan)
    requires ApplyAll(Apply(half, again), rest.writes) == ApplyAll(Apply(d, first), rest.writes)
    ensures EndsAlike(d, Plan([first] + rest.writes, rest.ending), half, Plan([again] + rest.writes, rest.ending))
  {
    AfterFirst(half, again, rest.writes, 1 + |rest.writes|);
    AfterFirst(d, first, rest.writes, 1 + |rest.writes|);
  }

  lemma AfterFirst(d: Durable, first: Write, rest: seq<Write>, n: nat)
    requires 1 <= n <= 1 + |rest|
    ensures ApplyAll(d, ([first] + rest)[..n]) == ApplyAll(Apply(d, first), rest[..n - 1])
    ensures n == 1 + |rest| ==> ([first] + rest)[..n] == [first] + rest && rest[..n - 1] == rest
  {
    assert ([first] + rest)[..n] == [first] + rest[..n - 1];
    assert ([first] + rest[..n - 1])[1..] == rest[..n - 1];
  }

  lemma GapRestart(w: World, d: Durable, id: string, revision: nat, oldRevision: nat, n: nat, plan: Plan, half: Durable)
    requires Observe(LoadEntity(d.rows, id).indexedRevision, revision, oldRevision).GapDetected?
    requires plan == EditPlan(w, d, id, revision, oldRevision, false)
    requires 0 < n <= |plan.writes| && half == ApplyAll(d, plan.writes[..n])
    ensures EndsAlike(d, plan, half, EditPlan(w, half, id, revision, oldRevision, false))
    ensures LoadEntity(half.rows, id).indexedRevision == LoadEntity(d.rows, id).indexedRevision
  {
    assert plan.writes[..n] == plan.writes;
    assert plan.writes[1..] == [];
    assert half == Apply(d, plan.writes[0]);
    assert EditPlan(w, half, id, revision, oldRevision, false).writes == plan.writes;
    assert plan.writes[..1] == plan.writes;
    Redo(d, plan.writes, 1);
  }

  lemma NothingDone(d: Durable, plan: Plan, half: Durable)
    requires half == ApplyAll(d, plan.writes[..0])
    ensures half == d && EndsAlike(d, plan, half, plan)
  {}

  /** An unforced edit that does not advance writes only when it found a gap. */
  lemma SettledPlan(w: World, d: Durable, id: string, revision: nat, oldRevision: nat, plan: Plan)
    requires plan == EditPlan(w, d, id, revision, oldRevision, false) && plan.writes != []
    requires !Observe(LoadEntity(d.rows, id).indexedRevision, revision, oldRevision).Advance?
    ensures Observe(LoadEntity(d.rows, id).indexedRevision, revision, oldRevision).GapDetected?
  {}

  lemma ForcedIsRestorable(w: World, d: Durable, id: string, revision: nat, oldRevision: nat, plan: Plan)
    requires plan == EditPlan(w, d, id, revision, oldRevision, true) && plan.writes != []
    ensures Restorable(LoadEntity(d.rows, id)) && revision >= 1
  {}

  /** Editing one entity is restartable at every await. */
  lemma EditRestart(w: World, d: Durable, id: string, revision: nat, oldRevision: nat, next: nat, force: bool, n: nat,
                    plan: Plan, half: Durable)
    requires plan == EditPlan(w, d, id, revision, oldRevision, force)
    requires n <= |plan.writes| && half == ApplyAll(d, plan.writes[..n])
    requires LoadEntity(half.rows, id).indexedRevision == LoadEntity(d.rows, id).indexedRevision ==> next == oldRevision
    ensures EndsAlike(d, plan, half, EditPlan(w, half, id, revision, next, force))
  {
    var decision := Observe(LoadEntity(d.rows, id).indexedRevision, revision, oldRevision);
    if n == 0 {
      NothingDone(d, plan, half);
    } else if force {
      ForcedIsRestorable(w, d, id, revision, oldRevision, plan);
      RestoreRestart(w, d, id, revision, oldRevision, next, n, plan, half);
    } else if decision.Advance? {
      IndexRestart(w, d, id, revision, oldRevision, next, n, plan, half);
    } else {
      SettledPlan(w, d, id, revision, oldRevision, plan);
      GapRestart(w, d, id, revision, oldRevision, n, plan, half);
    }
  }
}
