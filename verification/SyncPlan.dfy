/** What processing one change does: the writes it performs, in order, and how it ends. */
module SyncPlan {
  import opened Wrappers
  import opened SyncState

  /** A graph body with at least one line. */
  type Body = s: string | s != "" witness "."

  /**
    What partitioning an export yields. The engine treats a missing and an empty
    schema partition alike: both are `None`.
   */
  datatype Parts = Parts(entityRdf: string, schemaRdf: Option<Body>)

  datatype Resolved = Resolved(id: string, deleted: bool, revision: nat)

  datatype Change =
    | NonEntity
    | Ambiguous
    | Edit(id: string, revision: nat, oldRevision: nat)
    | Delete(id: string)
    | Lifecycle(undelete: bool, id: string)

  datatype Event = Event(position: Position, change: Change)

  /**
    The outside world, taken as deterministic: fetch-and-partition, the
    lifecycle resolver, the checksum, the version query.
   */
  datatype World = World(
    parts: (string, nat) -> Option<Parts>,
    resolve: Event -> Option<seq<Resolved>>,
    checksum: string -> string,
    versioned: (string, string, nat) -> bool)

  datatype Decision = Duplicate | Older | GapDetected | Advance | InvalidRevision

  /** `RevisionFence.observe`. */
  function Observe(indexed: nat, incoming: nat, oldRevision: nat): Decision {
    if incoming < 1 then InvalidRevision
    else if incoming == indexed then Duplicate
    else if incoming < indexed then Older
    else if indexed != 0 && oldRevision != indexed then GapDetected
    else Advance
  }

  datatype Ending = Applied(row: Row) | Ignored | Stopped(code: string)
  datatype Plan = Plan(writes: seq<Write>, ending: Ending)

  predicate IsProperty(id: string) { id != "" && id[0] == 'P' }

  predicate Restorable(row: Row) { row.status.Deleted? || row.status.Restoring? || row.status.Current? }

  function Max(a: nat, b: nat): nat { if a < b then b else a }

  function EntityWrites(id: string, parts: Parts): seq<Write> {
    [ReplaceGraph(EntityGraph(id), parts.entityRdf), RegisterGraph(EntityGraph(id))]
  }

  function SchemaWrites(id: string, rdf: string): seq<Write> {
    [ReplaceGraph(SchemaGraph(id), rdf), RegisterGraph(SchemaGraph(id)), SchemaIsCurrent]
  }

  predicate Verified(d: Durable, w: World, id: string, revision: nat) {
    EntityGraph(id) in d.graphs && w.versioned(d.graphs[EntityGraph(id)], id, revision)
  }

  function IndexedRow(w: World, row: Row, revision: nat, parts: Parts): Row {
    Row(revision, Max(row.latestSeenRevision, revision), Current, Some(w.checksum(parts.entityRdf)), None)
  }

  function GraphWrites(id: string, parts: Parts): seq<Write> {
    EntityWrites(id, parts) + (if IsProperty(id)
                               && parts.schemaRdf.Some? then SchemaWrites(id, parts.schemaRdf.value) else [])
  }

  /** Fetch, replace and register the graphs, verify, and only then advance the fence. */
  function IndexPlan(w: World, d: Durable, id: string, row: Row, revision: nat): Plan {
    var fetched := w.parts(id, revision);
    if fetched.None? then Plan([], Stopped("FETCH_FAILED"))
    else
      var parts := fetched.value;
      var graphs := GraphWrites(id, parts);
      if IsProperty(id) && parts.schemaRdf.None? then Plan(graphs, Stopped("PROPERTY_SCHEMA_PARTITION_MISSING"))
      else if !Verified(ApplyAll(d, graphs), w, id, revision) then Plan(graphs, Stopped("BACKEND_VERIFY_FAILED"))
      else
        var saved := IndexedRow(w, row, revision, parts);
        Plan(graphs + [SaveEntity(id, saved)], Applied(saved))
  }

  function GapRow(row: Row, revision: nat): Row {
    row.(latestSeenRevision := revision, status := Gap, errorCode := Some("REVISION_GAP"))
  }

  function RestoringRow(row: Row): Row { row.(status := Restoring, errorCode := None) }

  /** `#edit` up to, and without, the cursor commit. */
  function EditPlan(w: World, d: Durable, id: string, revision: nat, oldRevision: nat, forceRestore: bool): Plan {
    var row := LoadEntity(d.rows, id);
    var decision := Observe(row.indexedRevision, revision, oldRevision);
    if forceRestore && !Restorable(row) then Plan([], Stopped("UNDELETE_WITHOUT_TOMBSTONE"))
    else if decision.InvalidRevision? then Plan([], Stopped("SYNC_FAILED"))
    else if forceRestore then
      var restoring := SaveEntity(id, RestoringRow(row));
      var rest := IndexPlan(w, Apply(d, restoring), id, row, revision);
      Plan([restoring] + rest.writes, rest.ending)
    else if decision.GapDetected? then Plan([SaveEntity(id, GapRow(row, revision))], Stopped("REVISION_GAP"))
    else if !decision.Advance? then Plan([], Ignored)
    else IndexPlan(w, d, id, row, revision)
  }

  /** One entity of a lifecycle change. */
  function ResolvedPlan(w: World, d: Durable, e: Resolved, undelete: bool): Plan {
    if e.deleted then
      Plan([DeleteGraph(EntityGraph(e.id)), SaveEntity(e.id, LoadEntity(d.rows, e.id).(status := Deleted))], Ignored)
    else EditPlan(w, d, e.id, e.revision, LoadEntity(d.rows, e.id).indexedRevision, undelete)
  }

  function LifecyclePlan(w: World, d: Durable, es: seq<Resolved>, undelete: bool): Plan
    decreases |es|
  {
    if es == [] then Plan([], Ignored)
    else
      var first := ResolvedPlan(w, d, es[0], undelete);
      if first.ending.Stopped? then first
      else
        var rest := LifecyclePlan(w, ApplyAll(d, first.writes), es[1..], undelete);
        Plan(first.writes + rest.writes, rest.ending)
  }

  function DeleteWrites(id: string): seq<Write> {
    [DeleteGraph(EntityGraph(id)), UnregisterGraph(EntityGraph(id))]
    + if IsProperty(id) then [DeleteGraph(SchemaGraph(id)), UnregisterGraph(SchemaGraph(id))] else []
  }

  function DeletedRow(row: Row): Row { row.(status := Deleted, checksum := None, errorCode := None) }

  /** Everything a change does before its cursor commit. */
  function BodyPlan(w: World, d: Durable, event: Event): Plan {
    match event.change
    case NonEntity => Plan([], Ignored)
    case Ambiguous => Plan([], Stopped("AMBIGUOUS_EVENT"))
    case Edit(id, revision, oldRevision) => EditPlan(w, d, id, revision, oldRevision, false)
    case Delete(id) => Plan(DeleteWrites(id), Applied(DeletedRow(LoadEntity(d.rows, id))))
    case Lifecycle(undelete, _) =>
      var es := w.resolve(event);
      if es.None? || es.value == [] then Plan([], Stopped("AMBIGUOUS_LIFECYCLE"))
      else LifecyclePlan(w, d, es.value, undelete)
  }

  /** The row that is committed together with the cursor. */
  function SavedWith(event: Event, ending: Ending): Option<(string, Row)> {
    match event.change
    case Edit(id, _, _) => if ending.Applied? then Some((id, ending.row)) else None
    case Delete(id) => if ending.Applied? then Some((id, ending.row)) else None
    case _ => None
  }

  predicate Regresses(cursor: Option<Position>, next: Position) { cursor.Some? && !Before(cursor.value, next) }

  /** `processEvent`: the body, then one atomic commit of the cursor. */
  function EventPlan(w: World, d: Durable, event: Event): Plan {
    var body := BodyPlan(w, d, event);
    if body.ending.Stopped? then body
    else if Regresses(d.cursor, event.position) then Plan(body.writes, Stopped("CURSOR_REGRESSION"))
    else Plan(body.writes + [CommitEvent(event.position, SavedWith(event, body.ending))], body.ending)
  }

  function Final(w: World, d: Durable, event: Event): Durable { ApplyAll(d, EventPlan(w, d, event).writes) }

  predicate Commits(w: World, d: Durable, event: Event) { !EventPlan(w, d, event).ending.Stopped? }
}
