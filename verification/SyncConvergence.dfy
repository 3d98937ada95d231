/** Runs of the sync engine that are cut by crashes and resumed from the stored cursor. */
module SyncConvergence {
  import opened Wrappers
  import opened SyncState
  import opened SyncPlan
  import opened SyncCrash
  import opened SyncLifecycle

  /** What the lifecycle resolver returns names each entity once. */
  ghost predicate ResolvesDistinct(w: World, event: Event) {
    event.change.Lifecycle? && w.resolve(event).Some? ==> DistinctIds(w.resolve(event).value)
  }

  // --------------------------------------------------------- one change

  lemma DeletePlaces(id: string)
    ensures RowOf(id) !in TouchedAll(DeleteWrites(id)) && CursorCell !in TouchedAll(DeleteWrites(id))
  {
    var a := [DeleteGraph(EntityGraph(id)), UnregisterGraph(EntityGraph(id))];
    PairTouched(DeleteGraph(EntityGraph(id)), UnregisterGraph(EntityGraph(id)));
    if IsProperty(id) {
      PairTouched(DeleteGraph(SchemaGraph(id)), UnregisterGraph(SchemaGraph(id)));
      TouchedAppend(a, [DeleteGraph(SchemaGraph(id)), UnregisterGraph(SchemaGraph(id))]);
    } else {
      assert DeleteWrites(id) == a;
    }
  }

  lemma PairTouched(a: Write, b: Write)
    ensures TouchedAll([a, b]) == Touched(a) + Touched(b)
  {
    SingleTouched(a);
    SingleTouched(b);
    TouchedAppend([a], [b]);
    assert [a, b] == [a] + [b];
  }

  lemma {:induction false} LifecycleKeepsCursor(w: World, d: Durable, es: seq<Resolved>, undelete: bool)
    ensures CursorCell !in TouchedAll(LifecyclePlan(w, d, es, undelete).writes)
    decreases |es|
  {
    if es != [] {
      var first := ResolvedPlan(w, d, es[0], undelete);
      ResolvedWithin(w, d, es[0], undelete);
      if !first.ending.Stopped? {
        LifecycleKeepsCursor(w, ApplyAll(d, first.writes), es[1..], undelete);
        TouchedAppend(first.writes, LifecyclePlan(w, ApplyAll(d, first.writes), es[1..], undelete).writes);
      }
    }
  }

  lemma BodyKeepsCursor(w: World, d: Durable, event: Event)
    ensures CursorCell !in TouchedAll(BodyPlan(w, d, event).writes)
  {
    match event.change
    case Edit(id, revision, oldRevision) => EditWithin(w, d, id, revision, oldRevision, false);
    case Delete(id) => DeletePlaces(id);
    case Lifecycle(undelete, _) =>
      if w.resolve(event).Some? { LifecycleKeepsCursor(w, d, w.resolve(event).value, undelete); }
    case _ =>
  }

  /** The row handed to the commit is the row that is already there, or depends only on what the body left alone. */
  lemma BodyRestart(w: World, d: Durable, event: Event, n: nat, plan: Plan, half: Durable)
    requires ResolvesDistinct(w, event) && plan == BodyPlan(w, d, event)
    requires n <= |plan.writes| && half == ApplyAll(d, plan.writes[..n])
    ensures SameEnd(d, plan, half, BodyPlan(w, half, event))
    ensures plan.ending.Applied? && BodyPlan(w, half, event).ending.Applied? && !event.change.Lifecycle? ==>
      BodyPlan(w, half, event).ending == plan.ending
    ensures event.change.Delete? ==> plan.ending.Applied? && BodyPlan(w, half, event).ending.Applied?
  {
    match event.change
    case Edit(id, revision, oldRevision) =>
      EditRestart(w, d, id, revision, oldRevision, oldRevision, false, n, plan, half);
    case Delete(id) =>
      DeletePlaces(id);
      TouchedPrefix(plan.writes, n);
      RowKept(d, plan.writes[..n], id);
      Redo(d, plan.writes, n);
    case Lifecycle(undelete, _) =>
      if w.resolve(event).Some? && w.resolve(event).value != [] {
        LifecycleRestart(w, d, w.resolve(event).value, undelete, n, plan, half);
      }
    case _ =>
  }

  /** An edit that went through left its row in place, so committing the row again changes nothing. */
  lemma EditLeavesRow(w: World, d: Durable, event: Event)
    requires event.change.Edit? && BodyPlan(w, d, event).ending.Applied?
    ensures var body := BodyPlan(w, d, event);
      ApplyAll(d, body.writes).rows == ApplyAll(d, body.writes).rows[event.change.id := body.ending.row]
  {
    var id := event.change.id;
    var body := BodyPlan(w, d, event);
    IndexPlanShape(w, d, id, LoadEntity(d.rows, id), event.change.revision);
    AppliedRow(d, body.writes, id, body.ending.row);
  }

  /** The state after the commit, from the state after the body. */
  lemma CommitAfter(w: World, d: Durable, event: Event)
    requires Commits(w, d, event)
    ensures var body := BodyPlan(w, d, event);
      var done := ApplyAll(d, body.writes);
      var saved := SavedWith(event, body.ending);
      && Final(w, d, event) == Apply(done, CommitEvent(event.position, saved))
      && (event.change.Edit? ==> Final(w, d, event) == done.(cursor := Some(event.position)))
  {
    var body := BodyPlan(w, d, event);
    var commit := CommitEvent(event.position, SavedWith(event, body.ending));
    ApplyAppend(d, body.writes, [commit]);
    assert ApplyAll(ApplyAll(d, body.writes), [commit]) == Apply(ApplyAll(d, body.writes), commit);
    if event.change.Edit? && body.ending.Applied? { EditLeavesRow(w, d, event); }
  }

  lemma CursorKept(w: World, d: Durable, event: Event, n: nat)
    requires n <= |BodyPlan(w, d, event).writes|
    ensures ApplyAll(d, BodyPlan(w, d, event).writes[..n]).cursor == d.cursor
  {
    var ws := BodyPlan(w, d, event).writes;
    BodyKeepsCursor(w, d, event);
    TouchedPrefix(ws, n);
    WritesAreBlind(d, d, ws[..n], CursorCell);
    assert Look(ApplyAll(d, ws[..n]), CursorCell) == Look(d, CursorCell);
  }

  /** From either state, processing the change ends the same way. */
  ghost predicate Agree(w: World, a: Durable, b: Durable, event: Event) {
    Final(w, a, event) == Final(w, b, event) && (Commits(w, a, event) <==> Commits(w, b, event))
  }

  /** Restartability: cut after any write short of the commit, the change can be processed again from its beginning. */
  lemma EventRestart(w: World, d: Durable, event: Event, n: nat)
    requires ResolvesDistinct(w, event)
    requires n <= |BodyPlan(w, d, event).writes|
    ensures Agree(w, ApplyAll(d, BodyPlan(w, d, event).writes[..n]), d, event)
  {
    var body := BodyPlan(w, d, event);
    var half := ApplyAll(d, body.writes[..n]);
    BodyRestart(w, d, event, n, body, half);
    CursorKept(w, d, event, n);
    if Commits(w, d, event) {
      CommitAfter(w, d, event);
      CommitAfter(w, half, event);
    }
  }

  // --------------------------------------------------------------- runs

  ghost predicate Ascending(log: seq<Event>) {
    forall i, j :: 0 <= i < j < |log| ==> Before(log[i].position, log[j].position)
  }

  /** The cursor stands after the first `k` events of the log. */
  ghost predicate StandsAt(log: seq<Event>, cursor: Option<Position>, k: nat) {
    && k <= |log|
    && (forall i :: 0 <= i < k ==> cursor.Some? && !Before(cursor.value, log[i].position))
    && (forall i :: k <= i < |log| ==> cursor.None? || Before(cursor.value, log[i].position))
  }

  /** The uninterrupted engine after `k` events, if it commits every one of them. */
  function Fold(w: World, d: Durable, log: seq<Event>, k: nat): Option<Durable>
    requires k <= |log|
  {
    if k == 0 then Some(d)
    else
      var before := Fold(w, d, log, k - 1);
      if before.Some? && Commits(w, before.value, log[k - 1]) then Some(Final(w, before.value, log[k - 1])) else None
  }

  /** A durable state, and the number of events its cursor has passed. */
  datatype Moment = Moment(state: Durable, passed: nat)

  /** One attempt at the next event: `n` of its writes become durable before a crash, a stop, or the commit. */
  function Attempt(w: World, log: seq<Event>, m: Moment, n: nat): Moment
    requires m.passed < |log|
  {
    var plan := EventPlan(w, m.state, log[m.passed]);
    var k := if n < |plan.writes| then n else |plan.writes|;
    Moment(ApplyAll(m.state, plan.writes[..k]), if k == |plan.writes|
           && !plan.ending.Stopped? then m.passed + 1 else m.passed)
  }

  ghost predicate Follows(w: World, log: seq<Event>, m: Moment, next: Moment) {
    m.passed < |log| && exists n: nat :: next == Attempt(w, log, m, n)
  }

  /** A run: attempt after attempt, each starting from what the last one left behind. */
  ghost predicate Run(w: World, log: seq<Event>, start: Durable, moments: seq<Moment>) {
    && |moments| > 0 && moments[0] == Moment(start, 0)
    && forall i :: 0 < i < |moments| ==> Follows(w, log, moments[i - 1], moments[i])
  }

  /** What an attempt leaves behind still ends, at the next event, where the uninterrupted engine does. */
  ghost predicate OnTrack(w: World, log: seq<Event>, start: Durable, m: Moment) {
    && m.passed <= |log|
    && Fold(w, start, log, m.passed).Some?
    && StandsAt(log, m.state.cursor, m.passed)
    && (m.passed < |log| ==> Agree(w, m.state, Fold(w, start, log, m.passed).value, log[m.passed]))
  }

  lemma FoldStep(w: World, start: Durable, log: seq<Event>, k: nat, d: Durable)
    requires k < |log| && Fold(w, start, log, k).Some?
    requires Agree(w, d, Fold(w, start, log, k).value, log[k]) && Commits(w, d, log[k])
    ensures Fold(w, start, log, k + 1) == Some(Final(w, d, log[k]))
  {}

  lemma CommitMoves(w: World, log: seq<Event>, d: Durable, k: nat)
    requires Ascending(log) && k < |log| && StandsAt(log, d.cursor, k) && Commits(w, d, log[k])
    ensures StandsAt(log, Final(w, d, log[k]).cursor, k + 1)
  {
    CommitAfter(w, d, log[k]);
  }

  /** An attempt is either the whole event, committed, or a prefix of its body. */
  lemma AttemptShape(w: World, log: seq<Event>, m: Moment, n: nat)
    requires m.passed < |log|
    ensures var event := log[m.passed];
      var body := BodyPlan(w, m.state, event).writes;
      var next := Attempt(w, log, m, n);
      if next.passed > m.passed then
        Commits(w, m.state, event) && next == Moment(Final(w, m.state, event), m.passed + 1)
      else next.passed == m.passed && exists k: nat :: k <= |body| && next.state == ApplyAll(m.state, body[..k])
  {
    var event := log[m.passed];
    var plan, body := EventPlan(w, m.state, event), BodyPlan(w, m.state, event).writes;
    var k := if n < |plan.writes| then n else |plan.writes|;
    if k == |plan.writes| { assert plan.writes[..k] == plan.writes; }
    if k <= |body| { assert plan.writes[..k] == body[..k]; }
  }

  lemma CommittedOnTrack(w: World, log: seq<Event>, start: Durable, m: Moment)
    requires Ascending(log) && m.passed < |log| && OnTrack(w, log, start, m) && Commits(w, m.state, log[m.passed])
    ensures var end := Final(w, m.state, log[m.passed]);
      OnTrack(w, log, start, Moment(end, m.passed + 1)) && Fold(w, start, log, m.passed + 1) == Some(end)
  {
    FoldStep(w, start, log, m.passed, m.state);
    CommitMoves(w, log, m.state, m.passed);
  }

  lemma CutOnTrack(w: World, log: seq<Event>, start: Durable, m: Moment, k: nat)
    requires m.passed < |log| && ResolvesDistinct(w, log[m.passed]) && OnTrack(w, log, start, m)
    requires k <= |BodyPlan(w, m.state, log[m.passed]).writes|
    ensures OnTrack(w, log, start, Moment(ApplyAll(m.state, BodyPlan(w, m.state, log[m.passed]).writes[..k]), m.passed))
  {
    EventRestart(w, m.state, log[m.passed], k);
    CursorKept(w, m.state, log[m.passed], k);
  }

  /** One attempt keeps the run on track; if the cursor moves, the state is exactly the uninterrupted one. */
  lemma AttemptOnTrack(w: World, log: seq<Event>, start: Durable, m: Moment, n: nat)
    requires Ascending(log) && m.passed < |log| && ResolvesDistinct(w, log[m.passed]) && OnTrack(w, log, start, m)
    ensures var next := Attempt(w, log, m, n);
      && OnTrack(w, log, start, next)
      && m.passed <= next.passed <= m.passed + 1
      && (next.passed > m.passed ==> Fold(w, start, log, next.passed) == Some(next.state))
  {
    var next := Attempt(w, log, m, n);
    AttemptShape(w, log, m, n);
    if next.passed > m.passed {
      CommittedOnTrack(w, log, start, m);
    } else {
      var body := BodyPlan(w, m.state, log[m.passed]).writes;
      var k: nat :| k <= |body| && next.state == ApplyAll(m.state, body[..k]);
      CutOnTrack(w, log, start, m, k);
      assert next == Moment(ApplyAll(m.state, body[..k]), m.passed);
    }
  }

  lemma {:induction false} RunOnTrack(w: World, log: seq<Event>, start: Durable, moments: seq<Moment>, i: nat)
    requires Ascending(log) && (forall k :: 0 <= k < |log| ==> ResolvesDistinct(w, log[k]))
    requires Run(w, log, start, moments) && StandsAt(log, start.cursor, 0) && i < |moments|
    ensures OnTrack(w, log, start, moments[i])
  {
    if i > 0 {
      RunOnTrack(w, log, start, moments, i - 1);
      assert Follows(w, log, moments[i - 1], moments[i]);
      var n: nat :| moments[i] == Attempt(w, log, moments[i - 1], n);
      AttemptOnTrack(w, log, start, moments[i - 1], n);
    }
  }

  /**
   * Crash convergence. However often a run is cut between awaits and resumed from its cursor: whenever the cursor
   * has moved past `k` events the rows, graphs, registry and schema flag are those of the uninterrupted engine,
   * and in between nothing is lost: finishing the next event leads to the uninterrupted state as well.
   */
  lemma CrashConvergence(w: World, log: seq<Event>, start: Durable, moments: seq<Moment>, i: nat)
    requires Ascending(log) && (forall k :: 0 <= k < |log| ==> ResolvesDistinct(w, log[k]))
    requires Run(w, log, start, moments) && StandsAt(log, start.cursor, 0) && i < |moments|
    ensures moments[i].passed <= |log| && StandsAt(log, moments[i].state.cursor, moments[i].passed)
    ensures var clean := Fold(w, start, log, moments[i].passed);
      && clean.Some?
      && (i > 0 && moments[i].passed > moments[i - 1].passed ==> moments[i].state == clean.value)
      && (moments[i].passed < |log| ==> Agree(w, moments[i].state, clean.value, log[moments[i].passed]))
    ensures i > 0 ==> moments[i - 1].passed <= moments[i].passed <= moments[i - 1].passed + 1
  {
    RunOnTrack(w, log, start, moments, i);
    if i > 0 {
      RunOnTrack(w, log, start, moments, i - 1);
      assert Follows(w, log, moments[i - 1], moments[i]);
      var n: nat :| moments[i] == Attempt(w, log, moments[i - 1], n);
      AttemptOnTrack(w, log, start, moments[i - 1], n);
    }
  }

  /** Once the whole log is behind the cursor, the crashes have left no trace. */
  lemma {:induction false} CaughtUp(w: World, log: seq<Event>, start: Durable, moments: seq<Moment>)
    requires Ascending(log) && (forall k :: 0 <= k < |log| ==> ResolvesDistinct(w, log[k]))
    requires Run(w, log, start, moments) && StandsAt(log, start.cursor, 0)
    requires moments[|moments| - 1].passed == |log|
    ensures Fold(w, start, log, |log|) == Some(moments[|moments| - 1].state)
  {
    var last := |moments| - 1;
    if last > 0 {
      assert Follows(w, log, moments[last - 1], moments[last]);
      CrashConvergence(w, log, start, moments, last);
    }
  }

  // ------------------------------------------------------ counterexample

  lemma ThreeWrites(d: Durable, a: Write, b: Write, c: Write)
    ensures ApplyAll(d, [a, b]) == Apply(Apply(d, a), b)
    ensures ApplyAll(d, [a, b, c]) == Apply(Apply(Apply(d, a), b), c)
  {
    assert [a, b][1..] == [b] && [b][1..] == [] && [a, b, c][1..] == [b, c] && [b, c][1..] == [c] && [c][1..] == [];
    assert ApplyAll(Apply(d, a), [b]) == Apply(Apply(d, a), b);
    assert ApplyAll(Apply(Apply(d, a), b), [c]) == Apply(Apply(Apply(d, a), b), c);
  }

  const TWICE: seq<Resolved> := [Resolved("Q1", true, 0), Resolved("Q1", false, 7)]

  /** The tombstone of the first mention, then the indexing of the second. */
  lemma TwiceFromFive(w: World, d: Durable, rdf: string)
    requires w.parts("Q1", 7) == Some(Parts(rdf, None)) && w.versioned(rdf, "Q1", 7)
    requires "Q1" in d.rows && d.rows["Q1"].indexedRevision == 5
    ensures var plan := LifecyclePlan(w, d, TWICE, false);
      var end := ApplyAll(d, plan.writes);
      && !plan.ending.Stopped?
      && EntityGraph("Q1") in end.graphs
      && "Q1" in end.rows && end.rows["Q1"].indexedRevision == 7
  {
    var drop, tomb := DeleteGraph(EntityGraph("Q1")), SaveEntity("Q1", d.rows["Q1"].(status := Deleted));
    var first := Apply(Apply(d, drop), tomb);
    var put, register := ReplaceGraph(EntityGraph("Q1"), rdf), RegisterGraph(EntityGraph("Q1"));
    var save := SaveEntity("Q1", IndexedRow(w, first.rows["Q1"], 7, Parts(rdf, None)));
    ThreeWrites(d, drop, tomb, tomb);
    ThreeWrites(first, put, register, save);
    assert GraphWrites("Q1", Parts(rdf, None)) == [put, register];
    assert [put, register] + [save] == [put, register, save];
    assert ResolvedPlan(w, first, TWICE[1], false).writes == [put, register, save];
    assert TWICE[1..] == [TWICE[1]] && TWICE[1..][1..] == [];
    assert LifecyclePlan(w, first, TWICE[1..], false).writes == [put, register, save] + [];
    ApplyAppend(d, [drop, tomb], [put, register, save]);
    assert [put, register, save] + [] == [put, register, save];
    assert LifecyclePlan(w, d, TWICE, false).writes == [drop, tomb] + [put, register, save];
  }

  /** The same change once revision 7 is indexed: the second mention is a duplicate, so only the tombstone remains. */
  lemma TwiceFromSeven(w: World, d: Durable)
    requires "Q1" in d.rows && d.rows["Q1"].indexedRevision == 7
    ensures EntityGraph("Q1") !in ApplyAll(d, LifecyclePlan(w, d, TWICE, false).writes).graphs
  {
    var drop, tomb := DeleteGraph(EntityGraph("Q1")), SaveEntity("Q1", d.rows["Q1"].(status := Deleted));
    var first := Apply(Apply(d, drop), tomb);
    ThreeWrites(d, drop, tomb, tomb);
    assert ResolvedPlan(w, first, TWICE[1], false).writes == [];
    assert TWICE[1..] == [TWICE[1]] && TWICE[1..][1..] == [];
    assert LifecyclePlan(w, first, TWICE[1..], false).writes == [] + [];
    assert LifecyclePlan(w, d, TWICE, false).writes == [drop, tomb] + [];
    assert [drop, tomb] + [] == [drop, tomb];
  }

  /**
    A resolver that names an entity twice breaks restartability: resumed just
    before its commit, the change deletes the graph it had indexed.
   */
  lemma RepeatedEntityDiverges(w: World, event: Event, d: Durable, rdf: string)
    requires event.change == Lifecycle(false, "Q1") && w.resolve(event) == Some(TWICE)
    requires w.parts("Q1", 7) == Some(Parts(rdf, None)) && w.versioned(rdf, "Q1", 7)
    requires "Q1" in d.rows && d.rows["Q1"].indexedRevision == 5 && d.cursor.None?
    ensures !Agree(w, ApplyAll(d, BodyPlan(w, d, event).writes), d, event)
  {
    var body := BodyPlan(w, d, event);
    var half := ApplyAll(d, body.writes);
    assert body == LifecyclePlan(w, d, TWICE, false)
      && BodyPlan(w, half, event) == LifecyclePlan(w, half, TWICE, false);
    TwiceFromFive(w, d, rdf);
    TwiceFromSeven(w, half);
    if Commits(w, half, event) { SameGraphsWhenAgreed(w, d, event, body, half); }
  }

  /** States that agree end with the same graphs. */
  lemma SameGraphsWhenAgreed(w: World, d: Durable, event: Event, body: Plan, half: Durable)
    requires event.change.Lifecycle? && body == BodyPlan(w, d, event) && half == ApplyAll(d, body.writes)
    requires Commits(w, half, event)
    ensures Agree(w, half, d, event) ==> ApplyAll(half, BodyPlan(w, half, event).writes).graphs == half.graphs
  {
    assert body.writes[..|body.writes|] == body.writes;
    CursorKept(w, d, event, |body.writes|);
    CommitAfter(w, half, event);
    if Commits(w, d, event) { CommitAfter(w, d, event); }
  }
}
