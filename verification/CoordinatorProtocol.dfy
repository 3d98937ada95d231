/**
  Any number of generation coordinators over one database. Each coordinator
  holds what it last read and a program counter; every awaited call of
  `reconcile` is one step, so a stale coordinator can act arbitrarily late.
  A raised error or a crash returns the coordinator to `Idle`.
 */
module CoordinatorProtocol {
  import opened Wrappers
  import opened CoordinatorDb

  /** The next awaited call of one `reconcile`. */
  datatype Pc =
    | Start
    | Finish(to: OpState)
    | Advance(from: GenState, next: GenState, to: OpState)
    | SawPointer(generation: GenerationId, version: nat)
    | Prepare(generation: GenerationId, version: nat)
    | Cas(k: nat)
    | Verify(k: nat)
    | FinalizeJournal(k: nat)
    | BeginRet(previous: GenerationId)
    | MarkRetired(g: GenerationId)
    | Authorize(g: GenerationId)
    | RecordPlan(g: GenerationId, token: Token)
    | MarkFence(g: GenerationId, token: Token)
    | Deleting(g: GenerationId, token: Token)
    | FinalizeRet(g: GenerationId)

  datatype Local = Idle | Busy(op: OperationId, fence: nat, seen: OpState, pc: Pc)

  /** What the outside world supplies to one coordinator call. */
  datatype Choice = Choice(
    observed: bool, journal: nat, retirement: GenerationId, token: Token, leaseMs: nat,
    plan: map<Role, Attempt>, record: Option<AttemptRecord>)

  datatype AttemptRecord = AttemptRecord(role: Role, uid: nat, to: AttemptState)

  datatype Action =
    | Tick(delta: nat)
    | Requested(id: OperationId, g: GenerationId)
    | Scheduled(id: OperationId, g: GenerationId)
    | Released(serving: GenerationId, g: GenerationId, version: nat)
    | Evidence(g: GenerationId, state: GenState, valid: bool, syncActive: bool)
    | Claimed(c: OwnerId, id: OperationId, leaseMs: nat)
    | Crashed(c: OwnerId)
    | Proceed(c: OwnerId, choice: Choice)

  /**
    History variables: the generations the pointer has named in order with the
    journal that installed each, how many journals were finalised, and which
    operation moved a generation out of CREATING.
   */
  datatype History = History(
    installs: seq<GenerationId>, installer: seq<nat>, finalized: nat,
    slot: map<nat, nat>, creator: map<GenerationId, OperationId>)

  datatype System = System(db: Db, locals: map<OwnerId, Local>, hist: History)

  function LocalOf(s: System, c: OwnerId): Local {
    if c in s.locals then s.locals[c] else Idle
  }

  function SetLocal(s: System, c: OwnerId, l: Local): System {
    s.(locals := s.locals[c := l])
  }

  function Fail(s: System, c: OwnerId): System { SetLocal(s, c, Idle) }

  /** Commit the outcome and continue at `pc`, or raise. */
  function Await(s: System, c: OwnerId, r: Outcome<Db>, pc: Pc): System {
    match r
    case Aborted(_) => Fail(s, c)
    case Committed(db) =>
      var l := LocalOf(s, c);
      if l.Busy? then SetLocal(s.(db := db), c, l.(pc := pc)) else s
  }

  /** Commit the outcome and end this reconcile. */
  function Done(s: System, c: OwnerId, r: Outcome<Db>): System {
    match r
    case Aborted(_) => Fail(s, c)
    case Committed(db) => Fail(s.(db := db), c)
  }

  function Jump(s: System, c: OwnerId, l: Local, pc: Pc): System
    requires l.Busy?
  {
    SetLocal(s, c, l.(pc := pc))
  }

  // ------------------------------------------------------- coordinator calls

  function AfterPhase(k: nat, phase: Phase): Pc {
    match phase
    case Preparing => Cas(k)
    case PointerUpdated => Verify(k)
    case RouterVerified => FinalizeJournal(k)
    case GenerationFinalized => Finish(Promoted)
  }

  function StepStart(s: System, c: OwnerId, l: Local, ch: Choice): System
    requires l.Busy?
  {
    if l.op !in s.db.operations then Fail(s, c)
    else
      var g := s.db.operations[l.op].candidate;
      match l.seen
      case RebuildRequested => Await(s, c, EnsureGeneration(s.db, g), Finish(CreatingGeneration))
      case CreatingGeneration => Jump(s, c, l, Advance(Creating, Loading, LoadingSnapshot))
      case LoadingSnapshot =>
        if g !in s.db.generations then Fail(s, c)
        else if s.db.generations[g].state == Failed then Jump(s, c, l, Finish(FailedOp))
        else if !ch.observed then Jump(s, c, l, Finish(LoadingSnapshot))
        else if s.db.generations[g].state == Loading then Jump(s, c, l, Advance(Loading, CatchingUp, WaitingForCatchup))
        else Jump(s, c, l, Finish(WaitingForCatchup))
      case WaitingForCatchup =>
        if g !in s.db.generations || !ch.observed then Jump(s, c, l, Finish(WaitingForCatchup))
        else if s.db.generations[g].state == CatchingUp then
          Jump(s, c, l, Advance(CatchingUp, Validating, ValidatingOp))
        else Jump(s, c, l, Finish(ValidatingOp))
      case ValidatingOp =>
        if g in s.db.generations && s.db.generations[g].state == Ready && s.db.generations[g].valid
        then Jump(s, c, l, Finish(ReadyToPromote))
        else Jump(s, c, l, Finish(ValidatingOp))
      case ReadyToPromote =>
        if s.db.pointer.generation == g then Jump(s, c, l, Finish(Promoting))
        else Jump(s, c, l, SawPointer(s.db.pointer.generation, s.db.pointer.version))
      case Promoting =>
        if ch.journal < |s.db.journals| && s.db.journals[ch.journal].op == l.op
        then Jump(s, c, l, AfterPhase(ch.journal, s.db.journals[ch.journal].phase))
        else Fail(s, c)
      case Promoted =>
        if s.db.pointer.generation != g then Fail(s, c)
        else if s.db.pointer.previous.Some? then Jump(s, c, l, BeginRet(s.db.pointer.previous.value))
        else Jump(s, c, l, Finish(RollbackProtected))
      case RetirementWaiting => Done(s, c, Reevaluate(s.db, l.op, c, l.fence))
      case CleaningUp =>
        var r := ch.retirement;
        if !OnlyRetirementOf(s.db, l.op, r) then Fail(s, c)
        else
          (match s.db.retirements[r].state
           case WaitingEligibility => Fail(s, c)
           case RetiringRow => Jump(s, c, l, MarkRetired(r))
           case LogicallyRetired => Jump(s, c, l, Authorize(r))
           case PhysicalDeletePending => Jump(s, c, l, Authorize(r))
           case PhysicallyDeleted => Jump(s, c, l, FinalizeRet(r))
           case MetadataFinalized => Jump(s, c, l, Finish(Completed)))
      case RollbackProtected => Fail(s, c)
      case Completed => Fail(s, c)
      case FailedOp => Fail(s, c)
  }

  function StepAdvance(s: System, c: OwnerId, l: Local): System
    requires l.Busy? && l.pc.Advance?
  {
    if l.op !in s.db.operations then Fail(s, c)
    else
      var g := s.db.operations[l.op].candidate;
      var r := SetGenerationState(s.db, g, l.pc.from, l.pc.next);
      var s' := Await(s, c, r, Finish(l.pc.to));
      if r.Committed? && l.pc.from == Creating then s'.(hist := s.hist.(creator := s.hist.creator[g := l.op])) else s'
  }

  function StepCas(s: System, c: OwnerId, l: Local): System
    requires l.Busy? && l.pc.Cas?
  {
    var k := l.pc.k;
    var r := CasPointer(s.db, k);
    if r.Aborted? then Fail(s, c)
    else
      var s' := Await(s, c, r, AfterPhase(k, r.state.journals[k].phase));
      if s.db.journals[k].phase != Preparing then s'
      else s'.(hist := s.hist.(
        installs := s.hist.installs + [s.db.journals[k].to],
        installer := s.hist.installer + [k],
        slot := s.hist.slot[k := |s.hist.installs|]))
  }

  function StepFinalize(s: System, c: OwnerId, l: Local): System
    requires l.Busy? && l.pc.FinalizeJournal?
  {
    var k := l.pc.k;
    var r := FinalizePromotion(s.db, k);
    var s' := Await(s, c, r, Finish(Promoted));
    if r.Aborted? || s.db.journals[k].phase == GenerationFinalized then s'
    else s'.(hist := s.hist.(finalized := s.hist.finalized + 1))
  }

  function StepAuthorize(s: System, c: OwnerId, l: Local, ch: Choice): System
    requires l.Busy? && l.pc.Authorize?
  {
    var r := AuthorizePhysicalDeletion(s.db, l.op, l.pc.g, c, l.fence, ch.token, ch.leaseMs);
    if r.Aborted? then Fail(s, c)
    else Await(s, c, r, RecordPlan(l.pc.g, r.state.retirements[l.pc.g].token.value))
  }

  function StepDeleting(s: System, c: OwnerId, l: Local, ch: Choice): System
    requires l.Busy? && l.pc.Deleting?
  {
    match ch.record
    case None => Await(s, c, ConfirmPhysicalDeletion(s.db, l.op, l.pc.g, c, l.fence, l.pc.token), FinalizeRet(l.pc.g))
    case Some(AttemptRecord(role, uid, to)) =>
      var from := match to
        case DeleteIntent => {FenceMarked, DeleteIntent}
        case DeleteAccepted => {DeleteIntent, DeleteAccepted}
        case AbsentConfirmed => {DeleteAccepted, AbsentConfirmed}
        case _ => {};
      Await(s, c, SetAttemptState(s.db, l.op, c, l.fence, l.pc.token, Some(role), Some(uid), from, to), l.pc)
  }

  function CoordinatorStep(s: System, c: OwnerId, ch: Choice): System {
    var l := LocalOf(s, c);
    if l.Idle? then s
    else
      match l.pc
      case Start => StepStart(s, c, l, ch)
      case Finish(to) => Done(s, c, Transition(s.db, l.op, c, l.fence, l.seen, to))
      case Advance(_, _, _) => StepAdvance(s, c, l)
      case SawPointer(generation, version) =>
        if exists k :: 0 <= k < |s.db.journals| && s.db.journals[k].op == l.op then Jump(s, c, l, Finish(Promoting))
        else Jump(s, c, l, Prepare(generation, version))
      case Prepare(generation, version) =>
        if l.op !in s.db.operations then Fail(s, c)
        else
          Await(s, c, PreparePromotion(s.db, l.op, generation, s.db.operations[l.op].candidate, version),
                Finish(Promoting))
      case Cas(_) => StepCas(s, c, l)
      case Verify(k) => if ch.observed then Await(s, c, MarkRouterVerified(s.db, k), FinalizeJournal(k)) else Fail(s, c)
      case FinalizeJournal(_) => StepFinalize(s, c, l)
      case BeginRet(previous) => Await(s, c, BeginRetirement(s.db, l.op, previous), Finish(RollbackProtected))
      case MarkRetired(g) => Await(s, c, MarkGenerationRetired(s.db, l.op, g, c, l.fence), Authorize(g))
      case Authorize(_) => StepAuthorize(s, c, l, ch)
      case RecordPlan(g, token) =>
        Await(s, c, RecordDeletionPlan(s.db, l.op, g, c, l.fence, token, ch.plan), MarkFence(g, token))
      case MarkFence(g, token) =>
        Await(s, c, SetAttemptState(s.db, l.op, c, l.fence, token, None, None, {Planned, FenceMarked}, FenceMarked),
              Deleting(g, token))
      case Deleting(_, _) => StepDeleting(s, c, l, ch)
      case FinalizeRet(g) => Await(s, c, FinalizeRetirement(s.db, l.op, g, c, l.fence), Finish(Completed))
  }

  // --------------------------------------------------------- all other steps

  function Commit(s: System, r: Outcome<Db>): System {
    match r
    case Aborted(_) => s
    case Committed(db) => s.(db := db)
  }

  /** Workers and validators move a generation while it is being built; never a READY one. */
  predicate MayReport(row: Generation, state: GenState) {
    || state == row.state
    || (row.state in {Creating, Loading, CatchingUp, Validating}
        && state in {Loading, CatchingUp, Validating, Ready, Failed}
        && (row.state == Creating ==> state == Failed))
  }

  function StepEvidence(s: System, g: GenerationId, state: GenState, valid: bool, syncActive: bool): System {
    if g in s.db.generations && MayReport(s.db.generations[g], state) then
      var row := s.db.generations[g].(state := state, valid := valid, syncActive := syncActive);
      s.(db := s.db.(generations := s.db.generations[g := row]))
    else s
  }

  function StepClaim(s: System, c: OwnerId, id: OperationId, leaseMs: nat): System {
    var r := Claim(s.db, id, c, leaseMs);
    if LocalOf(s, c).Idle? && r.Committed? then
      SetLocal(s.(db := r.state), c, Busy(id, r.state.operations[id].fence, r.state.operations[id].state, Start))
    else s
  }

  function Step(s: System, a: Action): System {
    match a
    case Tick(delta) => s.(db := s.db.(now := s.db.now + delta))
    case Requested(id, g) => Commit(s, Request(s.db, id, g))
    case Scheduled(id, g) => Commit(s, ScheduleCleanup(s.db, id, g))
    case Released(serving, g, version) => Commit(s, ReleaseRollback(s.db, serving, g, version))
    case Evidence(g, state, valid, syncActive) => StepEvidence(s, g, state, valid, syncActive)
    case Claimed(c, id, leaseMs) => StepClaim(s, c, id, leaseMs)
    case Crashed(c) => Fail(s, c)
    case Proceed(c, choice) => CoordinatorStep(s, c, choice)
  }

  function Run(s: System, actions: seq<Action>): System
    decreases |actions|
  {
    if actions == [] then s else Run(Step(s, actions[0]), actions[1..])
  }

  /** A bootstrapped source: one serving generation, named by the pointer, nothing pending. */
  function Initial(g: GenerationId, version: nat): System {
    System(
      Db(0, map[], Pointer(g, None, version), map[g := Generation(Serving, ServingProtected, 1, true, false)], [],
         map[], map[]),
      map[],
      History([g], [0], 0, map[], map[]))
  }
}
