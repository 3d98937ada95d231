/** The engine as it runs: awaited writes one after another, each of them a point where a crash may fall. */
module SyncEngine {
  import opened Wrappers
  import opened SyncState
  import opened SyncPlan
  import opened SyncConvergence
  import opened SyncPoll
  import opened SyncSource
  import opened SyncRefusals

  datatype SourceStatus = Running | RebuildRequired(code: string)

  lemma Extend(start: Durable, ws: seq<Write>, w: Write)
    ensures ApplyAll(start, ws + [w]) == Apply(ApplyAll(start, ws), w)
  {
    ApplyAppend(start, ws, [w]);
    assert ApplyAll(ApplyAll(start, ws), [w]) == Apply(ApplyAll(start, ws), w);
  }

  lemma Regroup(a: seq<Write>, b: seq<Write>, c: seq<Write>)
    ensures (a + b) + c == a + (b + c)
  {}

  /** `whole` is what was written so far, followed by what the entities from `i` on will write. */
  ghost predicate Remaining(whole: Plan, done: seq<Write>, w: World, now: Durable, es: seq<Resolved>, undelete: bool,
                            i: nat)
    requires i <= |es|
  {
    var rest := LifecyclePlan(w, now, es[i..], undelete);
    whole == Plan(done + rest.writes, rest.ending)
  }

  lemma AllRemaining(w: World, now: Durable, es: seq<Resolved>, undelete: bool)
    ensures Remaining(LifecyclePlan(w, now, es, undelete), [], w, now, es, undelete, 0)
  {
    assert es[0..] == es;
  }

  lemma NoneRemaining(whole: Plan, done: seq<Write>, w: World, now: Durable, es: seq<Resolved>, undelete: bool)
    requires Remaining(whole, done, w, now, es, undelete, |es|)
    ensures whole == Plan(done, Ignored)
  {
    assert done + [] == done;
  }

  lemma OneEntity(whole: Plan, done: seq<Write>, w: World, now: Durable, es: seq<Resolved>, undelete: bool, i: nat,
                  plan: Plan)
    requires i < |es| && Remaining(whole, done, w, now, es, undelete, i)
    requires plan == ResolvedPlan(w, now, es[i], undelete)
    ensures plan.ending.Stopped? ==> whole == Plan(done + plan.writes, plan.ending)
    ensures !plan.ending.Stopped? ==>
      Remaining(whole, done + plan.writes, w, ApplyAll(now, plan.writes), es, undelete, i + 1)
  {
    assert es[i..][1..] == es[i + 1..];
    if !plan.ending.Stopped? {
      var rest := LifecyclePlan(w, ApplyAll(now, plan.writes), es[i + 1..], undelete);
      assert done + (plan.writes + rest.writes) == (done + plan.writes) + rest.writes;
    }
  }

  /** The first `size` events, or as many as there are. */
  function Batch(events: seq<Event>, size: nat): seq<Event> {
    if size < |events| then events[..size] else events
  }

  class RdfSyncEngine {
    const world: World
    var rows: map<string, Row>
    var graphs: map<Iri, string>
    var registry: set<Iri>
    var schemaCurrent: bool
    var cursor: Option<Position>
    var status: SourceStatus
    /** The writes that became durable, in order. */
    ghost var written: seq<Write>

    constructor (world: World)
      ensures this.world == world && State() == Durable(map[], map[], {}, false, None)
      ensures status == Running && written == []
    {
      this.world := world;
      rows, graphs, registry, schemaCurrent, cursor := map[], map[], {}, false, None;
      status := Running;
      written := [];
    }

    function State(): Durable
      reads this
    {
      Durable(rows, graphs, registry, schemaCurrent, cursor)
    }

    // --------------------------------------------- repository and backend

    method SaveRow(id: string, row: Row)
      modifies this
      ensures State() == Apply(old(State()), SaveEntity(id, row))
      ensures written == old(written) + [SaveEntity(id, row)] && status == old(status)
    {
      rows := rows[id := row];
      written := written + [SaveEntity(id, row)];
    }

    method ReplaceNamedGraph(iri: Iri, rdf: string)
      modifies this
      ensures State() == Apply(old(State()), ReplaceGraph(iri, rdf))
      ensures written == old(written) + [ReplaceGraph(iri, rdf)] && status == old(status)
    {
      graphs := graphs[iri := rdf];
      written := written + [ReplaceGraph(iri, rdf)];
    }

    method DeleteNamedGraph(iri: Iri)
      modifies this
      ensures State() == Apply(old(State()), DeleteGraph(iri))
      ensures written == old(written) + [DeleteGraph(iri)] && status == old(status)
    {
      graphs := graphs - {iri};
      written := written + [DeleteGraph(iri)];
    }

    method Register(iri: Iri)
      modifies this
      ensures State() == Apply(old(State()), RegisterGraph(iri))
      ensures written == old(written) + [RegisterGraph(iri)] && status == old(status)
    {
      registry := registry + {iri};
      written := written + [RegisterGraph(iri)];
    }

    method Unregister(iri: Iri)
      modifies this
      ensures State() == Apply(old(State()), UnregisterGraph(iri))
      ensures written == old(written) + [UnregisterGraph(iri)] && status == old(status)
    {
      registry := registry - {iri};
      written := written + [UnregisterGraph(iri)];
    }

    method SetSchemaCurrent()
      modifies this
      ensures State() == Apply(old(State()), SchemaIsCurrent)
      ensures written == old(written) + [SchemaIsCurrent] && status == old(status)
    {
      schemaCurrent := true;
      written := written + [SchemaIsCurrent];
    }

    /** Moves the cursor, and saves a row with it when one is given; refuses a cursor that does not move forward. */
    method Commit(next: Position, saved: Option<(string, Row)>) returns (ok: bool)
      modifies this
      ensures ok <==> !Regresses(old(cursor), next)
      ensures ok ==>
        State() == Apply(old(State()), CommitEvent(next, saved)) && written == old(written) + [CommitEvent(next, saved)]
      ensures !ok ==> State() == old(State()) && written == old(written)
      ensures status == old(status)
    {
      if cursor.Some? && !Before(cursor.value, next) { return false; }
      if saved.Some? { rows := rows[saved.value.0 := saved.value.1]; }
      cursor := Some(next);
      written := written + [CommitEvent(next, saved)];
      return true;
    }

    // -------------------------------------------------------------- edits

    method WriteGraphs(id: string, parts: Parts)
      modifies this
      ensures State() == ApplyAll(old(State()), GraphWrites(id, parts))
      ensures written == old(written) + GraphWrites(id, parts) && status == old(status)
    {
      ghost var start := State();
      ReplaceNamedGraph(EntityGraph(id), parts.entityRdf);
      Register(EntityGraph(id));
      ghost var done := EntityWrites(id, parts);
      Extend(start, [], done[0]);
      Extend(start, [done[0]], done[1]);
      assert done == [done[0]] + [done[1]];
      if IsProperty(id) && parts.schemaRdf.Some? {
        var rdf := parts.schemaRdf.value;
        ghost var more := SchemaWrites(id, rdf);
        ReplaceNamedGraph(SchemaGraph(id), rdf);
        Register(SchemaGraph(id));
        SetSchemaCurrent();
        Extend(start, done, more[0]);
        Extend(start, done + [more[0]], more[1]);
        Extend(start, done + [more[0]] + [more[1]], more[2]);
        assert done + more == done + [more[0]] + [more[1]] + [more[2]];
      } else {
        assert GraphWrites(id, parts) == done;
      }
    }

    method IndexEntity(id: string, row: Row, revision: nat) returns (ending: Ending)
      modifies this
      ensures var plan := IndexPlan(world, old(State()), id, row, revision);
        State() == ApplyAll(old(State()), plan.writes) && written == old(written) + plan.writes && ending == plan.ending
      ensures status == old(status)
    {
      ghost var start := State();
      var fetched := world.parts(id, revision);
      if fetched.None? { return Stopped("FETCH_FAILED"); }
      WriteGraphs(id, fetched.value);
      if IsProperty(id) && fetched.value.schemaRdf.None? { return Stopped("PROPERTY_SCHEMA_PARTITION_MISSING"); }
      if !Verified(State(), world, id, revision) { return Stopped("BACKEND_VERIFY_FAILED"); }
      var indexed := IndexedRow(world, row, revision, fetched.value);
      SaveRow(id, indexed);
      Extend(start, GraphWrites(id, fetched.value), SaveEntity(id, indexed));
      return Applied(indexed);
    }

    /** `#edit` without its cursor commit. */
    method EditEntity(id: string, revision: nat, oldRevision: nat, forceRestore: bool) returns (ending: Ending)
      modifies this
      ensures var plan := EditPlan(world, old(State()), id, revision, oldRevision, forceRestore);
        State() == ApplyAll(old(State()), plan.writes) && written == old(written) + plan.writes && ending == plan.ending
      ensures status == old(status)
    {
      var row := LoadEntity(rows, id);
      if forceRestore && !Restorable(row) { return Stopped("UNDELETE_WITHOUT_TOMBSTONE"); }
      var decision := Observe(row.indexedRevision, revision, oldRevision);
      if decision.InvalidRevision? { return Stopped("SYNC_FAILED"); }
      if forceRestore {
        ghost var start, marked := State(), SaveEntity(id, RestoringRow(row));
        SaveRow(id, RestoringRow(row));
        ghost var plan := IndexPlan(world, State(), id, row, revision);
        ending := IndexEntity(id, row, revision);
        assert ([marked] + plan.writes)[1..] == plan.writes;
      } else if decision.GapDetected? {
        Extend(State(), [], SaveEntity(id, GapRow(row, revision)));
        SaveRow(id, GapRow(row, revision));
        return Stopped("REVISION_GAP");
      } else if decision.Advance? {
        ending := IndexEntity(id, row, revision);
      } else {
        return Ignored;
      }
    }

    // ------------------------------------------------- deletes, lifecycles

    method RemoveGraphs(id: string)
      modifies this
      ensures State() == ApplyAll(old(State()), DeleteWrites(id))
      ensures written == old(written) + DeleteWrites(id) && status == old(status)
    {
      ghost var start, ws := State(), DeleteWrites(id);
      DeleteNamedGraph(EntityGraph(id));
      Unregister(EntityGraph(id));
      Extend(start, [], ws[0]);
      Extend(start, [ws[0]], ws[1]);
      if IsProperty(id) {
        DeleteNamedGraph(SchemaGraph(id));
        Unregister(SchemaGraph(id));
        Extend(start, [ws[0], ws[1]], ws[2]);
        Extend(start, [ws[0], ws[1], ws[2]], ws[3]);
        assert ws == [ws[0], ws[1], ws[2]] + [ws[3]];
      } else {
        assert ws == [ws[0]] + [ws[1]];
      }
    }

    method ProcessResolved(e: Resolved, undelete: bool) returns (ending: Ending)
      modifies this
      ensures var plan := ResolvedPlan(world, old(State()), e, undelete);
        State() == ApplyAll(old(State()), plan.writes) && written == old(written) + plan.writes && ending == plan.ending
      ensures status == old(status)
    {
      if e.deleted {
        ghost var start, ws := State(), ResolvedPlan(world, State(), e, undelete).writes;
        DeleteNamedGraph(EntityGraph(e.id));
        SaveRow(e.id, LoadEntity(rows, e.id).(status := Deleted));
        Extend(start, [], ws[0]);
        Extend(start, [ws[0]], ws[1]);
        return Ignored;
      }
      ending := EditEntity(e.id, e.revision, LoadEntity(rows, e.id).indexedRevision, undelete);
    }

    /** `#lifecycle`: every resolved entity in turn, stopping at the first that fails. */
    method ProcessLifecycle(es: seq<Resolved>, undelete: bool) returns (ending: Ending)
      modifies this
      ensures var plan := LifecyclePlan(world, old(State()), es, undelete);
        State() == ApplyAll(old(State()), plan.writes) && written == old(written) + plan.writes && ending == plan.ending
      ensures status == old(status)
    {
      ghost var start, log, done: seq<Write> := State(), written, [];
      ghost var whole := LifecyclePlan(world, State(), es, undelete);
      AllRemaining(world, State(), es, undelete);
      for i := 0 to |es|
        invariant State() == ApplyAll(start, done) && written == log + done && status == old(status)
        invariant Remaining(whole, done, world, State(), es, undelete, i)
      {
        ghost var plan := ResolvedPlan(world, State(), es[i], undelete);
        OneEntity(whole, done, world, State(), es, undelete, i, plan);
        ApplyAppend(start, done, plan.writes);
        ending := ProcessResolved(es[i], undelete);
        Regroup(log, done, plan.writes);
        done := done + plan.writes;
        if ending.Stopped? { return; }
      }
      NoneRemaining(whole, done, world, State(), es, undelete);
      ending := Ignored;
    }

    // ------------------------------------------------------------- events

    /** Everything an event does before its cursor commit. */
    method ProcessBody(event: Event) returns (ending: Ending)
      modifies this
      ensures var plan := BodyPlan(world, old(State()), event);
        State() == ApplyAll(old(State()), plan.writes) && written == old(written) + plan.writes && ending == plan.ending
      ensures status == old(status)
    {
      match event.change
      case NonEntity => ending := Ignored;
      case Ambiguous => ending := Stopped("AMBIGUOUS_EVENT");
      case Edit(id, revision, oldRevision) => ending := EditEntity(id, revision, oldRevision, false);
      case Delete(id) =>
        var row := LoadEntity(rows, id);
        RemoveGraphs(id);
        ending := Applied(DeletedRow(row));
      case Lifecycle(undelete, _) =>
        var resolved := world.resolve(event);
        if resolved.None? || |resolved.value| == 0 { return Stopped("AMBIGUOUS_LIFECYCLE"); }
        ending := ProcessLifecycle(resolved.value, undelete);
    }

    lemma EventMeans(start: Durable, event: Event)
      ensures var plan := EventPlan(world, start, event);
        && ApplyAll(start, plan.writes).cursor == (if plan.ending.Stopped? then start.cursor else Some(event.position))
        && (Unsettled(world, event) ==>
              ApplyAll(start, plan.writes) == start
              && plan.ending
                 == Stopped(if event.change.Ambiguous? then "AMBIGUOUS_EVENT" else "AMBIGUOUS_LIFECYCLE"))
        && (ResolvesDistinct(world, event) ==>
              (!plan.ending.Stopped? <==> Processable(world, start, event) && Forward(start, event)))
    {
      CursorMoves(world, start, event);
      if Unsettled(world, event) { UnsettledStops(world, start, event); }
      if ResolvesDistinct(world, event) { CommitsExactly(world, start, event); }
    }

    /**
      `processEvent`: the durable writes are those of the plan, in its order. The
      cursor moves exactly for an event that can be processed; a refusal asks for
      a rebuild, and an event that is not understood changes nothing at all.
     */
    method ProcessEvent(event: Event) returns (ending: Ending)
      modifies this
      ensures var plan := EventPlan(world, old(State()), event);
        State() == ApplyAll(old(State()), plan.writes) && written == old(written) + plan.writes && ending == plan.ending
      ensures status == if ending.Stopped? then RebuildRequired(ending.code) else old(status)
      ensures cursor == if ending.Stopped? then old(cursor) else Some(event.position)
      ensures ResolvesDistinct(world, event) ==>
        (!ending.Stopped? <==> old(Processable(world, State(), event) && Forward(State(), event)))
      ensures Unsettled(world, event) ==>
        && State() == old(State())
        && status == RebuildRequired(if event.change.Ambiguous? then "AMBIGUOUS_EVENT" else "AMBIGUOUS_LIFECYCLE")
    {
      EventMeans(State(), event);
      ghost var start := State();
      ghost var body := BodyPlan(world, start, event);
      var before := cursor;
      ending := ProcessBody(event);
      if !ending.Stopped? {
        var saved := SavedWith(event, ending);
        BodyCursor(start, event);
        ghost var mid := State();
        var ok := Commit(event.position, saved);
        if ok {
          Extend(start, body.writes, CommitEvent(event.position, saved));
        } else {
          ending := Stopped("CURSOR_REGRESSION");
        }
      }
      if ending.Stopped? { status := RebuildRequired(ending.code); }
    }

    /** `pollOnce` after the read: events are processed in order until one is refused; the rest of the page waits. */
    method ProcessPage(events: seq<Event>, batchSize: nat) returns (processed: nat)
      modifies this
      ensures Moment(State(), processed) == Polled(world, old(State()), Batch(events, batchSize))
    {
      var batch := Batch(events, batchSize);
      ghost var whole := Polled(world, State(), batch);
      processed := 0;
      assert batch[0..] == batch;
      while processed < |batch|
        invariant processed <= |batch|
        invariant whole == Later(Polled(world, State(), batch[processed..]), processed)
      {
        assert batch[processed..][1..] == batch[processed + 1..];
        var ending := ProcessEvent(batch[processed]);
        if ending.Stopped? { return; }
        processed := processed + 1;
      }
    }

    /** `pollOnce`: the events that are processed are a run of the log right after the stored cursor. */
    method PollOnce(log: seq<Event>, pageSize: int, batchSize: nat) returns (read: ReadResult, processed: nat)
      requires Ascending(log)
      modifies this
      ensures read.InvalidLimit? <==> !(1 <= pageSize <= 100)
      ensures read.ScanLimit? <==> 1 <= pageSize <= 100 && SameSecondOverflow(log, old(cursor), pageSize)
      ensures !read.Events? ==> State() == old(State()) && processed == 0
      ensures read.Events? && read.events == [] ==> Passed(log, old(cursor)) == |log|
      ensures read.Events? ==> RunAfter(log, Passed(log, old(cursor)), read.events, batchSize)
      ensures read.Events? ==>
        Moment(State(), processed) == Polled(world, old(State()), Batch(read.events, batchSize))
    {
      ghost var k := Passed(log, cursor);
      read := Read(log, cursor, pageSize);
      if !read.Events? { return read, 0; }
      FirstOfRun(log, k, read.events, batchSize);
      processed := ProcessPage(read.events, batchSize);
    }

    /** What is taken from a page is the run of the log from `k` on, as long as the page and the batch allow. */
    static predicate RunAfter(log: seq<Event>, k: nat, events: seq<Event>, batchSize: nat) {
      var n := if batchSize < |events| then batchSize else |events|;
      k + n <= |log| && Batch(events, batchSize) == log[k..k + n]
    }

    static lemma FirstOfRun(log: seq<Event>, k: nat, events: seq<Event>, batchSize: nat)
      requires k <= |log| && events <= log[k..]
      ensures RunAfter(log, k, events, batchSize)
    {}

    lemma BodyCursor(start: Durable, event: Event)
      ensures ApplyAll(start, BodyPlan(world, start, event).writes).cursor == start.cursor
    {
      var ws := BodyPlan(world, start, event).writes;
      assert ws[..|ws|] == ws;
      CursorKept(world, start, event, |ws|);
    }
  }
}
