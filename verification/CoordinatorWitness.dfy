/**
  Runs that exist: one with two promotions in flight at once, which the schema
  does not forbid, and one that ends with authority to delete a generation.
 */
module CoordinatorWitness {
  import opened Wrappers
  import opened CoordinatorDb
  import opened CoordinatorProtocol
  import opened CoordinatorFrames
  import opened CoordinatorTheorems

  // ----------------------------------------------------------------- runs

  /** No coordinator makes a call of the deletion drivers. */
  predicate Quiet(s: System, actions: seq<Action>)
    decreases |actions|
  {
    actions == [] || (!DriverCall(s, actions[0]) && Quiet(Step(s, actions[0]), actions[1..]))
  }

  ghost predicate Leads(s: System, t: System, actions: seq<Action>) { Run(s, actions) == t && Quiet(s, actions) }

  ghost predicate Reaches(s: System, t: System) { exists actions :: Leads(s, t, actions) }

  lemma OneStep(s: System, a: Action)
    requires !DriverCall(s, a)
    ensures Reaches(s, Step(s, a))
  {
    assert [a][1..] == [];
    assert Leads(s, Step(s, a), [a]);
  }

  /** One step to a state given row by row. */
  lemma Goes(s: System, a: Action, t: System)
    requires !DriverCall(s, a)
    requires var u := Step(s, a);
      && u.locals == t.locals && u.hist == t.hist
      && u.db == t.db.(operations := u.db.operations) && u.db.operations == t.db.operations
    ensures Reaches(s, t)
  {
    OneStep(s, a);
    assert Step(s, a) == t;
  }

  lemma {:induction false} QuietAppend(s: System, first: seq<Action>, second: seq<Action>)
    requires Quiet(s, first) && Quiet(Run(s, first), second)
    ensures Quiet(s, first + second)
    decreases |first|
  {
    if first == [] { assert first + second == second; }
    else {
      assert (first + second)[1..] == first[1..] + second;
      QuietAppend(Step(s, first[0]), first[1..], second);
    }
  }

  lemma Then(s: System, t: System, u: System)
    requires Reaches(s, t) && Reaches(t, u)
    ensures Reaches(s, u)
  {
    var first :| Leads(s, t, first);
    var second :| Leads(t, u, second);
    RunAppend(s, first, second);
    QuietAppend(s, first, second);
    assert Leads(s, u, first + second);
  }

  lemma ReachedIsReachable(g: GenerationId, version: nat, t: System)
    requires Reaches(Initial(g, version), t)
    ensures Reachable(t)
  {
    var actions :| Leads(Initial(g, version), t, actions);
  }

  // -------------------------------------------------------- one reconcile

  const YES := Choice(true, 0, "", 0, 0, map[], None)

  predicate Waiting(s: System, c: OwnerId, id: OperationId) {
    id in s.db.operations && Active(s.db.operations[id].state) && s.db.operations[id].lease.None? && LocalOf(s, c).Idle?
  }

  /** `c` holds operation `id`, in the state it read, and is about to make call `pc`. */
  predicate Holding(s: System, c: OwnerId, id: OperationId, pc: Pc) {
    && id in s.db.operations
    && s.db.operations[id].lease == Some(Lease(c, s.db.now + 1))
    && LocalOf(s, c) == Busy(id, s.db.operations[id].fence, s.db.operations[id].state, pc)
  }

  /** `s` after `c` claimed `id`, about to make call `pc`. */
  function Taken(s: System, c: OwnerId, id: OperationId, pc: Pc): System
    requires id in s.db.operations
  {
    var op := s.db.operations[id];
    s.(db := s.db.(operations := s.db.operations[id := op.(lease := Some(Lease(c, s.db.now + 1)),
                                                           fence := op.fence + 1)]),
       locals := s.locals[c := Busy(id, op.fence + 1, op.state, pc)])
  }

  /** `s` after one successful reconcile of `id` by `c` into `state`. */
  function Moved(s: System, c: OwnerId, id: OperationId, state: OpState): System
    requires id in s.db.operations
  {
    var op := s.db.operations[id];
    s.(db := s.db.(operations := s.db.operations[id := op.(state := state, lease := None, fence := op.fence + 1)]),
       locals := s.locals[c := Idle])
  }

  function WithRow(s: System, g: GenerationId, row: Generation): System {
    s.(db := s.db.(generations := s.db.generations[g := row]))
  }

  lemma Take(s: System, c: OwnerId, id: OperationId)
    requires Waiting(s, c, id)
    ensures Reaches(s, Taken(s, c, id, Start)) && Holding(Taken(s, c, id, Start), c, id, Start)
  {
    OneStep(s, Claimed(c, id, 1));
  }

  /** A read that leads on to `pc`. */
  lemma TakeAndRead(s: System, c: OwnerId, id: OperationId, ch: Choice, pc: Pc)
    requires Waiting(s, c, id)
    requires var t := Taken(s, c, id, Start); StepStart(t, c, LocalOf(t, c), ch) == Jump(t, c, LocalOf(t, c), pc)
    ensures Reaches(s, Taken(s, c, id, pc)) && Holding(Taken(s, c, id, pc), c, id, pc)
  {
    Take(s, c, id);
    Goes(Taken(s, c, id, Start), Proceed(c, ch), Taken(s, c, id, pc));
    Then(s, Taken(s, c, id, Start), Taken(s, c, id, pc));
  }

  lemma FinishTaken(s: System, c: OwnerId, id: OperationId, to: OpState)
    requires id in s.db.operations
    ensures Reaches(Taken(s, c, id, Finish(to)), Moved(s, c, id, to))
  {
    Goes(Taken(s, c, id, Finish(to)), Proceed(c, YES), Moved(s, c, id, to));
  }

  lemma ReadThenFinish(s: System, c: OwnerId, id: OperationId, to: OpState)
    requires Waiting(s, c, id)
    requires var t := Taken(s, c, id, Start);
      StepStart(t, c, LocalOf(t, c), YES) == Jump(t, c, LocalOf(t, c), Finish(to))
    ensures Reaches(s, Moved(s, c, id, to))
  {
    TakeAndRead(s, c, id, YES, Finish(to));
    FinishTaken(s, c, id, to);
    Then(s, Taken(s, c, id, Finish(to)), Moved(s, c, id, to));
  }

  // -------------------------------------------------- building a generation

  predicate At(s: System, c: OwnerId, id: OperationId, g: GenerationId, state: OpState) {
    && Waiting(s, c, id) && s.db.operations[id].kind == PromotionOp && s.db.operations[id].candidate == g
    && s.db.operations[id].state == state
  }

  const NEW := Generation(Creating, Unprotected, 1, false, false)

  lemma Create(s: System, c: OwnerId, id: OperationId, g: GenerationId)
    requires At(s, c, id, g, RebuildRequested) && g !in s.db.generations
    ensures Reaches(s, Moved(WithRow(s, g, NEW), c, id, CreatingGeneration))
  {
    var t := WithRow(s, g, NEW);
    Take(s, c, id);
    Goes(Taken(s, c, id, Start), Proceed(c, YES), Taken(t, c, id, Finish(CreatingGeneration)));
    Then(s, Taken(s, c, id, Start), Taken(t, c, id, Finish(CreatingGeneration)));
    FinishTaken(t, c, id, CreatingGeneration);
    Then(s, Taken(t, c, id, Finish(CreatingGeneration)), Moved(t, c, id, CreatingGeneration));
  }

  /** `s` after operation `id` moved its generation out of CREATING. */
  function LoadingState(s: System, g: GenerationId, id: OperationId): System
    requires g in s.db.generations
  {
    WithRow(s, g, s.db.generations[g].(state := Loading, version := s.db.generations[g].version + 1))
      .(hist := s.hist.(creator := s.hist.creator[g := id]))
  }

  const ADVANCE := Advance(Creating, Loading, LoadingSnapshot)

  lemma AdvanceStep(s: System, c: OwnerId, id: OperationId, g: GenerationId)
    requires id in s.db.operations && s.db.operations[id].candidate == g
    requires g in s.db.generations && s.db.generations[g].state == Creating
    ensures Reaches(Taken(s, c, id, ADVANCE), Taken(LoadingState(s, g, id), c, id, Finish(LoadingSnapshot)))
  {
    Goes(Taken(s, c, id, ADVANCE), Proceed(c, YES), Taken(LoadingState(s, g, id), c, id, Finish(LoadingSnapshot)));
  }

  lemma Load(s: System, c: OwnerId, id: OperationId, g: GenerationId)
    requires At(s, c, id, g, CreatingGeneration) && g in s.db.generations && s.db.generations[g].state == Creating
    ensures Reaches(s, Moved(LoadingState(s, g, id), c, id, LoadingSnapshot))
  {
    var t := LoadingState(s, g, id);
    TakeAndRead(s, c, id, YES, ADVANCE);
    AdvanceStep(s, c, id, g);
    Then(s, Taken(s, c, id, ADVANCE), Taken(t, c, id, Finish(LoadingSnapshot)));
    FinishTaken(t, c, id, LoadingSnapshot);
    Then(s, Taken(t, c, id, Finish(LoadingSnapshot)), Moved(t, c, id, LoadingSnapshot));
  }

  /** The worker reports that the load ended in `state`. */
  lemma Report(s: System, g: GenerationId, state: GenState)
    requires g in s.db.generations && s.db.generations[g].state == Loading && state in {Ready, Failed}
    ensures Reaches(s, WithRow(s, g,
                               s.db.generations[g].(state := state, valid := state == Ready, syncActive := false)))
  {
    OneStep(s, Evidence(g, state, state == Ready, false));
  }

  /** What building a new generation leaves as it was. */
  predicate Loaded(s: System, t: System, c: OwnerId, id: OperationId, g: GenerationId, op: OpState, state: GenState) {
    && At(t, c, id, g, op) && t.db.pointer == s.db.pointer && t.db.journals == s.db.journals
    && t.db.retirements == s.db.retirements
    && t.db.attempts == s.db.attempts && t.db.operations == s.db.operations[id := t.db.operations[id]]
    && g in t.db.generations && t.db.generations == s.db.generations[g := t.db.generations[g]]
    && t.db.generations[g].valid == (state == Ready) && t.db.generations[g].state == state
    && t.db.generations[g].protection == Unprotected && !t.db.generations[g].syncActive
  }

  lemma Request(s: System, c: OwnerId, id: OperationId, g: GenerationId) returns (t: System)
    requires id !in s.db.operations && g !in s.db.generations && LocalOf(s, c).Idle?
    ensures Reaches(s, t) && Loaded(s, t, c, id, g, CreatingGeneration, Creating)
  {
    var a := s.(db := s.db.(operations := s.db.operations[id := Operation(PromotionOp, g, RebuildRequested, None, 0)]));
    OneStep(s, Requested(id, g));
    Create(a, c, id, g);
    t := Moved(WithRow(a, g, NEW), c, id, CreatingGeneration);
    Then(s, a, t);
  }

  /** Request a generation and let its worker report how the load ended. */
  lemma Begin(s: System, c: OwnerId, id: OperationId, g: GenerationId, state: GenState) returns (t: System)
    requires id !in s.db.operations && g !in s.db.generations && LocalOf(s, c).Idle? && state in {Ready, Failed}
    ensures Reaches(s, t) && Loaded(s, t, c, id, g, LoadingSnapshot, state)
  {
    var a := Request(s, c, id, g);
    var b := StartLoading(s, a, c, id, g);
    Report(b, g, state);
    t := WithRow(b, g, b.db.generations[g].(state := state, valid := state == Ready, syncActive := false));
    Then(s, b, t);
  }

  /** The candidate is there, as it was created, and its load is under way. */
  predicate LoadingRow(s: System, t: System, c: OwnerId, id: OperationId, g: GenerationId) {
    && At(t, c, id, g, LoadingSnapshot) && t.db.pointer == s.db.pointer && t.db.journals == s.db.journals
    && t.db.retirements == s.db.retirements
    && t.db.attempts == s.db.attempts && t.db.operations == s.db.operations[id := t.db.operations[id]]
    && g in t.db.generations && t.db.generations == s.db.generations[g := t.db.generations[g]]
    && t.db.generations[g].state == Loading && t.db.generations[g].protection == Unprotected
  }

  lemma StartLoading(s: System, a: System, c: OwnerId, id: OperationId, g: GenerationId) returns (b: System)
    requires Reaches(s, a) && Loaded(s, a, c, id, g, CreatingGeneration, Creating)
    ensures Reaches(s, b) && LoadingRow(s, b, c, id, g)
  {
    Load(a, c, id, g);
    b := Moved(LoadingState(a, g, id), c, id, LoadingSnapshot);
    Then(s, a, b);
  }

  // ------------------------------------------------ two promotions in flight

  lemma Observe(s: System, t: System, c: OwnerId, id: OperationId, g: GenerationId, now: OpState, next: OpState)
    returns (u: System)
    requires Reaches(s, t) && Loaded(s, t, c, id, g, now, Ready)
    requires (now == LoadingSnapshot && next == WaitingForCatchup) || (now == WaitingForCatchup && next == ValidatingOp)
      || (now == ValidatingOp && next == ReadyToPromote)
    ensures Reaches(s, u) && Loaded(s, u, c, id, g, next, Ready)
  {
    ReadThenFinish(t, c, id, next);
    u := Moved(t, c, id, next);
    Then(s, t, u);
  }

  lemma Validate(s: System, c: OwnerId, id: OperationId, g: GenerationId) returns (t: System)
    requires id !in s.db.operations && g !in s.db.generations && LocalOf(s, c).Idle?
    ensures Reaches(s, t) && Loaded(s, t, c, id, g, ReadyToPromote, Ready)
  {
    t := Begin(s, c, id, g, Ready);
    t := Observe(s, t, c, id, g, LoadingSnapshot, WaitingForCatchup);
    t := Observe(s, t, c, id, g, WaitingForCatchup, ValidatingOp);
    t := Observe(s, t, c, id, g, ValidatingOp, ReadyToPromote);
  }

  function NewJournal(s: System, id: OperationId, g: GenerationId): Journal {
    Journal(id, s.db.pointer.generation, g, Preparing, s.db.pointer.version, None)
  }

  lemma PrepareJournal(s: System, c: OwnerId, id: OperationId, g: GenerationId)
    requires At(s, c, id, g, ReadyToPromote) && g in s.db.generations
    requires s.db.pointer.generation != g && s.db.pointer.generation in s.db.generations
    requires forall k :: 0 <= k < |s.db.journals| ==> s.db.journals[k].op != id
    ensures Reaches(s, Moved(s.(db := s.db.(journals := s.db.journals + [NewJournal(s, id, g)])), c, id, Promoting))
  {
    var t := s.(db := s.db.(journals := s.db.journals + [NewJournal(s, id, g)]));
    var saw, prepare := SawPointer(s.db.pointer.generation, s.db.pointer.version),
      Prepare(s.db.pointer.generation, s.db.pointer.version);
    TakeAndRead(s, c, id, YES, saw);
    Goes(Taken(s, c, id, saw), Proceed(c, YES), Taken(s, c, id, prepare));
    Then(s, Taken(s, c, id, saw), Taken(s, c, id, prepare));
    InsertJournal(s, c, id, g);
    Then(s, Taken(s, c, id, prepare), Taken(t, c, id, Finish(Promoting)));
    FinishTaken(t, c, id, Promoting);
    Then(s, Taken(t, c, id, Finish(Promoting)), Moved(t, c, id, Promoting));
  }

  lemma InsertJournal(s: System, c: OwnerId, id: OperationId, g: GenerationId)
    requires At(s, c, id, g, ReadyToPromote) && g in s.db.generations && s.db.pointer.generation in s.db.generations
    ensures Reaches(Taken(s, c, id, Prepare(s.db.pointer.generation, s.db.pointer.version)),
                    Taken(s.(db := s.db.(journals := s.db.journals + [NewJournal(s, id, g)])), c, id,
                          Finish(Promoting)))
  {
    Goes(Taken(s, c, id, Prepare(s.db.pointer.generation, s.db.pointer.version)), Proceed(c, YES),
         Taken(s.(db := s.db.(journals := s.db.journals + [NewJournal(s, id, g)])), c, id, Finish(Promoting)));
  }

  /** What moving the pointer to a new generation leaves as it was. */
  predicate Installed(s: System, t: System, c: OwnerId, id: OperationId, g: GenerationId) {
    && LocalOf(t, c).Idle? && t.db.pointer.generation == g
    && t.db.generations.Keys == s.db.generations.Keys + {g} && t.db.operations.Keys == s.db.operations.Keys + {id}
    && |t.db.journals| == |s.db.journals| + 1 && t.db.journals[..|s.db.journals|] == s.db.journals
    && t.db.journals[|s.db.journals|].phase == PointerUpdated && t.db.journals[|s.db.journals|].op == id
  }

  lemma CasStep(s: System, c: OwnerId, id: OperationId, g: GenerationId, k: nat) returns (t: System)
    requires Holding(s, c, id, Cas(k)) && k == |s.db.journals| - 1 && s.db.journals[k] == NewJournal(s, id, g)
    ensures Reaches(s, t)
    ensures t.db.generations == s.db.generations && t.db.operations == s.db.operations && t.db.pointer.generation == g
    ensures t.db.journals == s.db.journals[..k]
      + [NewJournal(s, id, g).(phase := PointerUpdated, resulting := Some(s.db.pointer.version + 1))]
  {
    OneStep(s, Proceed(c, YES));
    t := StepCas(s, c, LocalOf(s, c));
  }

  /** The coordinator moves the pointer with the last journal and crashes. */
  lemma MovePointer(s: System, c: OwnerId, id: OperationId, g: GenerationId) returns (t: System)
    requires At(s, c, id, g, Promoting) && |s.db.journals| > 0
    requires s.db.journals[|s.db.journals| - 1] == NewJournal(s, id, g)
    ensures Reaches(s, t) && LocalOf(t, c).Idle?
    ensures t.db.generations == s.db.generations && t.db.operations.Keys == s.db.operations.Keys
    ensures t.db.pointer.generation == g
    ensures t.db.journals == s.db.journals[..|s.db.journals| - 1]
                             + [NewJournal(s, id, g).(phase := PointerUpdated,
                                                      resulting := Some(s.db.pointer.version + 1))]
  {
    var k := |s.db.journals| - 1;
    TakeAndRead(s, c, id, YES.(journal := k), Cas(k));
    var a := CasStep(Taken(s, c, id, Cas(k)), c, id, g, k);
    Then(s, Taken(s, c, id, Cas(k)), a);
    OneStep(a, Crashed(c));
    t := Fail(a, c);
    Then(s, a, t);
  }

  /** Build, validate and install a new generation up to the pointer CAS. */
  lemma Promote(s: System, c: OwnerId, id: OperationId, g: GenerationId) returns (t: System)
    requires id !in s.db.operations && g !in s.db.generations && LocalOf(s, c).Idle?
    requires s.db.pointer.generation in s.db.generations
    requires forall k :: 0 <= k < |s.db.journals| ==> s.db.journals[k].op != id
    ensures Reaches(s, t) && Installed(s, t, c, id, g)
  {
    var b := Validate(s, c, id, g);
    PrepareJournal(b, c, id, g);
    var d := Moved(b.(db := b.db.(journals := b.db.journals + [NewJournal(b, id, g)])), c, id, Promoting);
    Then(s, b, d);
    t := MovePointer(d, c, id, g);
    Then(s, d, t);
  }

  /** From a bootstrapped source, two journals can stand between their CAS and their finalisation. */
  lemma TwoInFlight() returns (s: System)
    ensures Reachable(s) && InFlight(s.db, 0) && InFlight(s.db, 1)
    ensures !(s.db.pointer.generation == s.db.journals[0].to && IsServing(s.db, s.db.journals[0].from))
  {
    var start := Initial("gen-a", 1);
    var s1 := Promote(start, 7, 1, "gen-b");
    s := Promote(s1, 7, 2, "gen-c");
    Then(start, s1, s);
    ReachedIsReachable("gen-a", 1, s);
    assert s.db.journals[0] == s.db.journals[..1][0] == s1.db.journals[0];
    assert InFlight(s.db, 0) && InFlight(s.db, 1);
    assert !(forall m :: InFlight(s.db, m) ==> m == 0);
    InFlightAgreement(s, 0);
  }

  // ------------------------------------------------------ deletion authority

  /** `g` failed to load and its operation is over. */
  lemma FailedBuild(s: System, c: OwnerId, id: OperationId, g: GenerationId) returns (t: System)
    requires id !in s.db.operations && g !in s.db.generations && LocalOf(s, c).Idle?
    ensures Reaches(s, t) && LocalOf(t, c).Idle? && id in t.db.operations && t.db.operations[id].state == FailedOp
    ensures t.db.operations == s.db.operations[id := t.db.operations[id]]
    ensures g in t.db.generations && t.db.generations[g].state == Failed
    ensures t.db.generations[g].protection == Unprotected && !t.db.generations[g].syncActive
    ensures t.db.retirements == s.db.retirements && t.db.attempts == s.db.attempts && t.db.pointer == s.db.pointer
    ensures t.db.journals == s.db.journals
  {
    var a := Begin(s, c, id, g, Failed);
    ReadThenFinish(a, c, id, FailedOp);
    t := Moved(a, c, id, FailedOp);
    Then(s, a, t);
  }

  /** Nothing but its own cleanup concerns `g`. */
  predicate Abandoned(s: System, g: GenerationId, id: OperationId) {
    && g in s.db.generations && s.db.generations[g].state in {Retiring, Retired, Failed}
    && !s.db.generations[g].syncActive
    && s.db.pointer.generation != g && s.db.pointer.previous != Some(g) && s.db.journals == []
    && forall other :: other in s.db.operations && Active(s.db.operations[other].state) ==> other == id
  }

  /** The cleanup of `g` by operation `id` has come to `state`. */
  predicate Cleaning(s: System, g: GenerationId, id: OperationId, op: OpState, row: Retirement,
                     protection: Protection) {
    && Abandoned(s, g, id) && s.db.generations[g].protection == protection
    && id in s.db.operations && s.db.operations[id].kind == RetirementOp && s.db.operations[id].candidate == g
    && s.db.operations[id].state == op
    && s.db.retirements == map[g := row] && row.op == id && s.db.attempts == map[]
  }

  lemma Schedule(s: System, g: GenerationId, id: OperationId, c: OwnerId) returns (t: System, row: Retirement)
    requires id !in s.db.operations && Abandoned(s, g, id) && s.db.generations[g].protection == Unprotected
    requires s.db.retirements == map[] && s.db.attempts == map[]
    requires LocalOf(s, c).Idle?
    ensures Reaches(s, t) && Waiting(t, c, id) && row.state == WaitingEligibility
    ensures Cleaning(t, g, id, RetirementWaiting, row, Unprotected)
  {
    OneStep(s, Scheduled(id, g));
    t := Step(s, Scheduled(id, g));
    row := t.db.retirements[g];
  }

  lemma Qualify(s: System, g: GenerationId, id: OperationId, c: OwnerId, row: Retirement)
    returns (t: System, row': Retirement)
    requires Waiting(s, c, id) && row.state == WaitingEligibility
    requires Cleaning(s, g, id, RetirementWaiting, row, Unprotected)
    ensures Reaches(s, t) && Waiting(t, c, id) && Cleaning(t, g, id, CleaningUp, row', RetirementInProgress)
    ensures row'.state == RetiringRow && row'.pointerVersion == Some(t.db.pointer.version)
    ensures row'.generationVersion == Some(t.db.generations[g].version) && t.db.generations[g].state == Retiring
  {
    var a := Taken(s, c, id, Start);
    Take(s, c, id);
    var r := Reevaluate(a.db, id, c, a.db.operations[id].fence);
    assert Eligible(a.db, g, id);
    OneStep(a, Proceed(c, YES));
    t := Done(a, c, r);
    assert Step(a, Proceed(c, YES)) == t;
    Then(s, a, t);
    row' := t.db.retirements[g];
  }

  lemma Resume(s: System, g: GenerationId, id: OperationId, c: OwnerId, row: Retirement) returns (t: System)
    requires Waiting(s, c, id) && Cleaning(s, g, id, CleaningUp, row, RetirementInProgress) && row.state == RetiringRow
    ensures Reaches(s, t) && Holding(t, c, id, MarkRetired(g))
    ensures Cleaning(t, g, id, CleaningUp, row, RetirementInProgress)
    ensures t.db.pointer == s.db.pointer && t.db.generations == s.db.generations
  {
    assert OnlyRetirementOf(s.db, id, g);
    TakeAndRead(s, c, id, YES.(retirement := g), MarkRetired(g));
    t := Taken(s, c, id, MarkRetired(g));
  }

  lemma Retire(s: System, g: GenerationId, id: OperationId, c: OwnerId, row: Retirement)
    returns (t: System, row': Retirement)
    requires Holding(s, c, id, MarkRetired(g)) && Cleaning(s, g, id, CleaningUp, row, RetirementInProgress)
    requires row.state == RetiringRow && row.pointerVersion == Some(s.db.pointer.version)
    requires row.generationVersion == Some(s.db.generations[g].version) && s.db.generations[g].state == Retiring
    ensures Reaches(s, t) && Holding(t, c, id, Authorize(g))
    ensures Cleaning(t, g, id, CleaningUp, row', RetirementInProgress)
    ensures row'.state == LogicallyRetired && row'.pointerVersion == Some(t.db.pointer.version)
    ensures row'.generationVersion == Some(t.db.generations[g].version)
  {
    OneStep(s, Proceed(c, YES));
    t := Await(s, c, MarkGenerationRetired(s.db, id, g, c, s.db.operations[id].fence), Authorize(g));
    row' := t.db.retirements[g];
  }

  lemma Empower(s: System, g: GenerationId, id: OperationId, c: OwnerId, row: Retirement) returns (t: System)
    requires Holding(s, c, id, Authorize(g)) && Cleaning(s, g, id, CleaningUp, row, RetirementInProgress)
    requires row.state == LogicallyRetired && row.pointerVersion == Some(s.db.pointer.version)
    requires row.generationVersion == Some(s.db.generations[g].version)
    ensures Reaches(s, t) && LocalOf(t, c) == Busy(id, s.db.operations[id].fence, CleaningUp, RecordPlan(g, 0))
    ensures Authorized(t.db, id, g, c, s.db.operations[id].fence, 0) && t.db.attempts == map[]
    ensures t.db.generations == s.db.generations
  {
    var fence := s.db.operations[id].fence;
    var r := AuthorizePhysicalDeletion(s.db, id, g, c, fence, 0, 0);
    assert Eligible(s.db, g, id);
    OneStep(s, Proceed(c, YES));
    t := Await(s, c, r, RecordPlan(g, 0));
    assert CoordinatorStep(s, c, YES) == StepAuthorize(s, c, LocalOf(s, c), YES) == t;
  }

  /** A run whose last coordinator holds the authority to delete a failed generation. */
  lemma AuthorityArises() returns (s: System)
    ensures Reaches(Initial("gen-a", 1), s) && Reachable(s)
    ensures LocalOf(s, 7).Busy? && LocalOf(s, 7).op == 2 && LocalOf(s, 7).pc == RecordPlan("gen-b", 0)
    ensures Authorized(s.db, 2, "gen-b", 7, LocalOf(s, 7).fence, 0) && s.db.attempts == map[]
    ensures "gen-b" in s.db.generations && s.db.generations["gen-b"].protection == RetirementInProgress
  {
    var start := Initial("gen-a", 1);
    var a := FailedBuild(start, 7, 1, "gen-b");
    var b, waiting := Schedule(a, "gen-b", 2, 7);
    Then(start, a, b);
    var d, retiring := Qualify(b, "gen-b", 2, 7, waiting);
    Then(start, b, d);
    var m := d;
    d := Resume(d, "gen-b", 2, 7, retiring);
    Then(start, m, d);
    var e, retired := Retire(d, "gen-b", 2, 7, retiring);
    Then(start, d, e);
    s := Empower(e, "gen-b", 2, 7, retired);
    Then(start, e, s);
    ReachedIsReachable("gen-a", 1, s);
  }
}
