/**
  Safety of the coordinator protocol over every run: whatever coordinators
  crash, stall and resume, the pointer and the registry agree, no generation is
  installed twice, and nothing that may be deleted is ever served again.
 */
module CoordinatorSafety {
  import opened Wrappers
  import opened CoordinatorDb
  import opened CoordinatorProtocol
  import opened CoordinatorFrames
  import opened CoordinatorInvariants
  import opened CoordinatorPreservation
  import opened CoordinatorRetirementSteps
  import opened CoordinatorPromotionSteps

  // ------------------------------------------------------------ one step

  lemma KeepsJump(s: System, c: OwnerId, l: Local, pc: Pc)
    requires Inv(s) && l.Busy? && LocalOk(s.db, s.hist, l.(pc := pc))
    ensures Inv(Jump(s, c, l, pc))
  {
    WithLocal(s, Jump(s, c, l, pc), c, l.(pc := pc));
  }

  /** A committed call that keeps the database invariant leaves its coordinator at `pc`. */
  lemma KeepsAwait(s: System, c: OwnerId, l: Local, r: Outcome<Db>, pc: Pc, hist: History)
    requires Inv(s) && LocalOf(s, c) == l && l.Busy?
    requires r.Committed? ==> Kept(s, r.state, hist) && LocalOk(r.state, hist, l.(pc := pc))
    requires r.Aborted? ==> hist == s.hist
    ensures Inv(Await(s, c, r, pc).(hist := hist))
  {
    if r.Aborted? {
      KeepsFail(s, c);
      assert Await(s, c, r, pc).(hist := hist) == Fail(s, c);
    } else {
      WithLocal(s, Await(s, c, r, pc).(hist := hist), c, l.(pc := pc));
    }
  }

  lemma KeepsDone(s: System, c: OwnerId, r: Outcome<Db>)
    requires Inv(s)
    requires r.Committed? ==> Kept(s, r.state, s.hist)
    ensures Inv(Done(s, c, r))
  {
    if r.Aborted? { KeepsFail(s, c); } else { WithLocal(s, Done(s, c, r), c, Idle); }
  }

  lemma BusyOk(s: System, c: OwnerId, l: Local)
    requires Inv(s) && LocalOf(s, c) == l && l.Busy?
    ensures LocalOk(s.db, s.hist, l)
  {
    assert c in s.locals;
  }

  lemma EnsureKept(s: System, g: GenerationId)
    requires Inv(s)
    ensures var r := EnsureGeneration(s.db, g); r.Committed? && Kept(s, r.state, s.hist)
  {
    if g !in s.db.generations {
      BuildingRow(s, g, Generation(Creating, Unprotected, 1, false, false), s.hist);
    }
  }

  lemma KeepsRequestedStart(s: System, c: OwnerId, l: Local, ch: Choice)
    requires Inv(s) && LocalOf(s, c) == l && l.Busy? && l.pc == Start && l.seen == RebuildRequested
    ensures Inv(StepStart(s, c, l, ch))
  {
    BusyOk(s, c, l);
    var g := s.db.operations[l.op].candidate;
    EnsureKept(s, g);
    var r := EnsureGeneration(s.db, g);
    LocalStays(s.db, s.hist, r.state, s.hist, l.(pc := Finish(CreatingGeneration)));
    KeepsAwait(s, c, l, r, Finish(CreatingGeneration), s.hist);
  }

  lemma KeepsReadyStart(s: System, c: OwnerId, l: Local, ch: Choice)
    requires Inv(s) && LocalOf(s, c) == l && l.Busy? && l.pc == Start && l.seen == ReadyToPromote
    ensures Inv(StepStart(s, c, l, ch))
  {
    BusyOk(s, c, l);
    assert InstalledRow(s.db.generations[s.db.pointer.generation], |s.hist.installs| - 1, s.hist.finalized);
    if s.db.pointer.generation == s.db.operations[l.op].candidate { KeepsJump(s, c, l, Finish(Promoting)); }
    else { KeepsJump(s, c, l, SawPointer(s.db.pointer.generation, s.db.pointer.version)); }
  }

  lemma KeepsPromotingStart(s: System, c: OwnerId, l: Local, ch: Choice)
    requires Inv(s) && LocalOf(s, c) == l && l.Busy? && l.pc == Start && l.seen == Promoting
    ensures Inv(StepStart(s, c, l, ch))
  {
    BusyOk(s, c, l);
    if ch.journal < |s.db.journals| && s.db.journals[ch.journal].op == l.op {
      KeepsJump(s, c, l, AfterPhase(ch.journal, s.db.journals[ch.journal].phase));
    } else { KeepsFail(s, c); }
  }

  lemma KeepsWaitingStart(s: System, c: OwnerId, l: Local, ch: Choice)
    requires Inv(s) && LocalOf(s, c) == l && l.Busy? && l.pc == Start && l.seen == RetirementWaiting
    ensures Inv(StepStart(s, c, l, ch))
  {
    BusyOk(s, c, l);
    ReevaluateKept(s, l.op, c, l.fence);
    KeepsDone(s, c, Reevaluate(s.db, l.op, c, l.fence));
  }

  lemma KeepsStart(s: System, c: OwnerId, l: Local, ch: Choice)
    requires Inv(s) && LocalOf(s, c) == l && l.Busy? && l.pc == Start
    ensures Inv(StepStart(s, c, l, ch))
  {
    match l.seen {
      case RebuildRequested => KeepsRequestedStart(s, c, l, ch);
      case ReadyToPromote => KeepsReadyStart(s, c, l, ch);
      case Promoting => KeepsPromotingStart(s, c, l, ch);
      case RetirementWaiting => KeepsWaitingStart(s, c, l, ch);
      case CleaningUp => KeepsCleanupStart(s, c, l, ch);
      case _ => KeepsObservation(s, c, l, ch);
    }
  }

  /** Where a cleanup resumes, by the state of its retirement row. */
  function CleanupEntry(r: GenerationId, state: RetState): Pc {
    match state
    case RetiringRow => MarkRetired(r)
    case PhysicallyDeleted => FinalizeRet(r)
    case MetadataFinalized => Finish(Completed)
    case _ => Authorize(r)
  }

  lemma CleanupEntered(s: System, c: OwnerId, l: Local, ch: Choice)
    requires l.Busy? && l.pc == Start && l.seen == CleaningUp && l.op in s.db.operations
    ensures var r := ch.retirement;
      StepStart(s, c, l, ch)
      == if !OnlyRetirementOf(s.db, l.op, r) || s.db.retirements[r].state == WaitingEligibility then Fail(s, c)
         else Jump(s, c, l, CleanupEntry(r, s.db.retirements[r].state))
  {}

  lemma KeepsEntry(s: System, c: OwnerId, l: Local, r: GenerationId)
    requires Inv(s) && l.Busy? && l.seen == CleaningUp && LocalOk(s.db, s.hist, l) && OnlyRetirementOf(s.db, l.op, r)
    requires s.db.retirements[r].state != WaitingEligibility
    ensures Inv(Jump(s, c, l, CleanupEntry(r, s.db.retirements[r].state)))
  {
    KeepsJump(s, c, l, CleanupEntry(r, s.db.retirements[r].state));
  }

  lemma KeepsCleanupStart(s: System, c: OwnerId, l: Local, ch: Choice)
    requires Inv(s) && LocalOf(s, c) == l && l.Busy? && l.pc == Start && l.seen == CleaningUp
    ensures Inv(StepStart(s, c, l, ch))
  {
    BusyOk(s, c, l);
    var r := ch.retirement;
    CleanupEntered(s, c, l, ch);
    if !OnlyRetirementOf(s.db, l.op, r) || s.db.retirements[r].state == WaitingEligibility { KeepsFail(s, c); }
    else { KeepsEntry(s, c, l, r); }
  }

  lemma KeepsObservation(s: System, c: OwnerId, l: Local, ch: Choice)
    requires Inv(s) && LocalOf(s, c) == l && l.Busy? && l.pc == Start
    requires l.seen in {CreatingGeneration, LoadingSnapshot, WaitingForCatchup, ValidatingOp, Promoted,
                        RollbackProtected, Completed, FailedOp}
    ensures Inv(StepStart(s, c, l, ch))
  {
    BusyOk(s, c, l);
    var t := StepStart(s, c, l, ch);
    if t == Fail(s, c) { KeepsFail(s, c); }
    else {
      var pc := ObservationPc(s, c, l, ch);
      KeepsJump(s, c, l, pc);
    }
  }

  /** `pc` is where an observation that does not raise leads, and it is a good place to be. */
  ghost predicate Leads(s: System, c: OwnerId, l: Local, ch: Choice, pc: Pc)
    requires l.Busy?
  {
    StepStart(s, c, l, ch) == Jump(s, c, l, pc) && LocalOk(s.db, s.hist, l.(pc := pc))
  }

  lemma BuildPc(s: System, c: OwnerId, l: Local, ch: Choice) returns (pc: Pc)
    requires l.Busy? && l.pc == Start && LocalOk(s.db, s.hist, l) && l.seen in {CreatingGeneration, LoadingSnapshot}
    requires StepStart(s, c, l, ch) != Fail(s, c)
    ensures Leads(s, c, l, ch, pc)
  {
    pc := StepStart(s, c, l, ch).locals[c].pc;
  }

  lemma ObservePc(s: System, c: OwnerId, l: Local, ch: Choice) returns (pc: Pc)
    requires l.Busy? && l.pc == Start && LocalOk(s.db, s.hist, l) && l.seen in {WaitingForCatchup, ValidatingOp}
    requires StepStart(s, c, l, ch) != Fail(s, c)
    ensures Leads(s, c, l, ch, pc)
  {
    pc := StepStart(s, c, l, ch).locals[c].pc;
  }

  lemma SettlePc(s: System, c: OwnerId, l: Local, ch: Choice) returns (pc: Pc)
    requires l.Busy? && l.pc == Start && LocalOk(s.db, s.hist, l)
    requires l.seen in {Promoted, RollbackProtected, Completed, FailedOp}
    requires StepStart(s, c, l, ch) != Fail(s, c)
    ensures Leads(s, c, l, ch, pc)
  {
    pc := StepStart(s, c, l, ch).locals[c].pc;
  }

  lemma ObservationPc(s: System, c: OwnerId, l: Local, ch: Choice) returns (pc: Pc)
    requires l.Busy? && l.pc == Start && LocalOk(s.db, s.hist, l)
    requires l.seen in {CreatingGeneration, LoadingSnapshot, WaitingForCatchup, ValidatingOp, Promoted}
          || l.seen in {RollbackProtected, Completed, FailedOp}
    requires StepStart(s, c, l, ch) != Fail(s, c)
    ensures Leads(s, c, l, ch, pc)
  {
    if l.seen in {CreatingGeneration, LoadingSnapshot} { pc := BuildPc(s, c, l, ch); }
    else if l.seen in {WaitingForCatchup, ValidatingOp} { pc := ObservePc(s, c, l, ch); }
    else { pc := SettlePc(s, c, l, ch); }
  }

  lemma KeepsFinish(s: System, c: OwnerId, l: Local)
    requires Inv(s) && LocalOf(s, c) == l && l.Busy? && l.pc.Finish?
    ensures Inv(Done(s, c, Transition(s.db, l.op, c, l.fence, l.seen, l.pc.to)))
  {
    BusyOk(s, c, l);
    var r := Transition(s.db, l.op, c, l.fence, l.seen, l.pc.to);
    if r.Committed? {
      assert OperationOk(s.db.operations[l.op], l.op, s.db.operations, s.db.generations, s.db.retirements, s.hist);
      OperationRow(s, r.state, l.op);
    }
    KeepsDone(s, c, r);
  }

  /** The history after a generation left `from`. */
  function AdvancedHistory(s: System, l: Local, r: Outcome<Db>): History
    requires l.Busy? && l.pc.Advance? && l.op in s.db.operations
  {
    if r.Committed? && l.pc.from == Creating then
      s.hist.(creator := s.hist.creator[s.db.operations[l.op].candidate := l.op]) else s.hist
  }

  lemma BuildingIsUnprotected(s: System, g: GenerationId)
    requires DbInv(s.db, s.hist) && g in s.db.generations && Building(s.db.generations[g].state)
    ensures s.db.generations[g].protection == Unprotected && s.hist.installs[0] != g
  {
    assert ProtectionOk(s.db.generations[g], g, s.hist.installs, s.hist.finalized);
    NotInstalled(s.db.generations, s.hist.installs, s.hist.finalized, g);
  }

  lemma AdvanceKept(s: System, l: Local, r: Outcome<Db>)
    requires DbInv(s.db, s.hist) && l.Busy? && l.pc.Advance? && LocalOk(s.db, s.hist, l)
    requires r == SetGenerationState(s.db, s.db.operations[l.op].candidate, l.pc.from, l.pc.next) && r.Committed?
    ensures Kept(s, r.state, AdvancedHistory(s, l, r))
  {
    var g := s.db.operations[l.op].candidate;
    BuildingIsUnprotected(s, g);
    assert l.pc.from == Creating ==> g !in s.hist.creator;
    BuildingRow(s, g, r.state.generations[g], AdvancedHistory(s, l, r));
  }

  /** Having advanced the candidate, the coordinator may move its operation on. */
  lemma AdvanceLocal(s: System, l: Local, r: Outcome<Db>)
    requires l.Busy? && l.pc.Advance? && LocalOk(s.db, s.hist, l)
    requires r == SetGenerationState(s.db, s.db.operations[l.op].candidate, l.pc.from, l.pc.next) && r.Committed?
    requires Grows(s.db, s.hist, r.state, AdvancedHistory(s, l, r))
    ensures LocalOk(r.state, AdvancedHistory(s, l, r), l.(pc := Finish(l.pc.to)))
  {
    LocalStays(s.db, s.hist, r.state, AdvancedHistory(s, l, r), l);
  }

  lemma AdvanceShape(s: System, c: OwnerId, l: Local, r: Outcome<Db>)
    requires LocalOf(s, c) == l && l.Busy? && l.pc.Advance? && l.op in s.db.operations
    requires r == SetGenerationState(s.db, s.db.operations[l.op].candidate, l.pc.from, l.pc.next)
    ensures StepAdvance(s, c, l) == Await(s, c, r, Finish(l.pc.to)).(hist := AdvancedHistory(s, l, r))
  {}

  lemma KeepsAdvance(s: System, c: OwnerId, l: Local)
    requires Inv(s) && LocalOf(s, c) == l && l.Busy? && l.pc.Advance?
    ensures Inv(StepAdvance(s, c, l))
  {
    BusyOk(s, c, l);
    var r := SetGenerationState(s.db, s.db.operations[l.op].candidate, l.pc.from, l.pc.next);
    if r.Committed? {
      AdvanceKept(s, l, r);
      AdvanceLocal(s, l, r);
    }
    AdvanceShape(s, c, l, r);
    KeepsAwait(s, c, l, r, Finish(l.pc.to), AdvancedHistory(s, l, r));
  }

  /** Whatever an operation's candidate was installed by is a journal of that operation. */
  lemma InstallingJournal(db: Db, hist: History, g: GenerationId) returns (k: nat)
    requires DbInv(db, hist) && g in hist.installs && g in hist.creator
    ensures k < |db.journals| && db.journals[k].to == g && db.journals[k].op == hist.creator[g]
    ensures k in hist.slot && hist.installs[hist.slot[k]] == g
  {
    var i :| 0 <= i < |hist.installs| && hist.installs[i] == g;
    k := hist.installer[i];
    assert JournalSlot(db.pointer.version, hist, db.journals[k], k);
    assert JournalOwned(db.operations, db.generations, hist, db.journals[k]);
  }

  lemma KeepsSawPointer(s: System, c: OwnerId, l: Local)
    requires Inv(s) && LocalOf(s, c) == l && l.Busy? && l.pc.SawPointer?
    requires forall k :: 0 <= k < |s.db.journals| ==> s.db.journals[k].op != l.op
    ensures Inv(Jump(s, c, l, Prepare(l.pc.generation, l.pc.version)))
  {
    BusyOk(s, c, l);
    var g := s.db.operations[l.op].candidate;
    if g in s.hist.installs { var k := InstallingJournal(s.db, s.hist, g); }
    KeepsJump(s, c, l, Prepare(l.pc.generation, l.pc.version));
  }

  lemma KeepsPrepare(s: System, c: OwnerId, l: Local)
    requires Inv(s) && LocalOf(s, c) == l && l.Busy? && l.pc.Prepare?
    ensures Inv(CoordinatorStep(s, c, AnyChoice()))
  {
    BusyOk(s, c, l);
    var r := PreparePromotion(s.db, l.op, l.pc.generation, s.db.operations[l.op].candidate, l.pc.version);
    PrepareKept(s, l.op, l.pc.generation, l.pc.version);
    if r.Committed? { LocalStays(s.db, s.hist, r.state, s.hist, l.(pc := Finish(Promoting))); }
    KeepsAwait(s, c, l, r, Finish(Promoting), s.hist);
  }

  function AnyChoice(): Choice { Choice(false, 0, "", 0, 0, map[], None) }

  function CasHistory(s: System, k: nat): History
    requires k < |s.db.journals|
  {
    if s.db.journals[k].phase == Preparing then Installed(s.hist, s.db.journals, k) else s.hist
  }

  lemma CasShape(s: System, c: OwnerId, l: Local, r: Outcome<Db>)
    requires LocalOf(s, c) == l && l.Busy? && l.pc.Cas? && r == CasPointer(s.db, l.pc.k)
    ensures r.Aborted? ==> StepCas(s, c, l) == Fail(s, c)
    ensures r.Committed? ==> l.pc.k < |s.db.journals| == |r.state.journals|
    ensures r.Committed? ==>
      StepCas(s, c, l) == Await(s, c, r,
                                AfterPhase(l.pc.k, r.state.journals[l.pc.k].phase)).(hist := CasHistory(s, l.pc.k))
  {}

  lemma CasLocal(s: System, l: Local, db': Db, hist': History)
    requires l.Busy? && l.pc.Cas? && LocalOk(s.db, s.hist, l) && Grows(s.db, s.hist, db', hist')
    requires l.pc.k < |db'.journals|
    ensures LocalOk(db', hist', l.(pc := AfterPhase(l.pc.k, db'.journals[l.pc.k].phase)))
  {
    LocalStays(s.db, s.hist, db', hist', l);
  }

  lemma KeepsCas(s: System, c: OwnerId, l: Local)
    requires Inv(s) && LocalOf(s, c) == l && l.Busy? && l.pc.Cas?
    ensures Inv(StepCas(s, c, l))
  {
    BusyOk(s, c, l);
    var k := l.pc.k;
    var r := CasPointer(s.db, k);
    CasShape(s, c, l, r);
    if r.Aborted? { KeepsFail(s, c); }
    else {
      CasKept(s, k);
      CasLocal(s, l, r.state, CasHistory(s, k));
      KeepsAwait(s, c, l, r, AfterPhase(k, r.state.journals[k].phase), CasHistory(s, k));
    }
  }

  lemma KeepsVerify(s: System, c: OwnerId, l: Local)
    requires Inv(s) && LocalOf(s, c) == l && l.Busy? && l.pc.Verify?
    ensures Inv(Await(s, c, MarkRouterVerified(s.db, l.pc.k), FinalizeJournal(l.pc.k)))
  {
    BusyOk(s, c, l);
    var r := MarkRouterVerified(s.db, l.pc.k);
    MarkKept(s, l.pc.k);
    if r.Committed? { LocalStays(s.db, s.hist, r.state, s.hist, l); }
    KeepsAwait(s, c, l, r, FinalizeJournal(l.pc.k), s.hist);
  }

  function FinalHistory(s: System, k: nat, r: Outcome<Db>): History
    requires r.Committed? ==> k < |s.db.journals|
  {
    if r.Aborted? || s.db.journals[k].phase == GenerationFinalized then
      s.hist else s.hist.(finalized := s.hist.finalized + 1)
  }

  lemma FinalShape(s: System, c: OwnerId, l: Local, r: Outcome<Db>)
    requires LocalOf(s, c) == l && l.Busy? && l.pc.FinalizeJournal? && r == FinalizePromotion(s.db, l.pc.k)
    ensures r.Committed? ==> l.pc.k < |s.db.journals|
    ensures StepFinalize(s, c, l) == Await(s, c, r, Finish(Promoted)).(hist := FinalHistory(s, l.pc.k, r))
  {}

  lemma FinalLocal(s: System, l: Local, db': Db, hist': History)
    requires l.Busy? && l.pc.FinalizeJournal? && LocalOk(s.db, s.hist, l) && Grows(s.db, s.hist, db', hist')
    ensures LocalOk(db', hist', l.(pc := Finish(Promoted)))
  {
    LocalStays(s.db, s.hist, db', hist', l);
  }

  lemma KeepsFinalize(s: System, c: OwnerId, l: Local)
    requires Inv(s) && LocalOf(s, c) == l && l.Busy? && l.pc.FinalizeJournal?
    ensures Inv(StepFinalize(s, c, l))
  {
    BusyOk(s, c, l);
    var r := FinalizePromotion(s.db, l.pc.k);
    FinalShape(s, c, l, r);
    if r.Committed? {
      FinalizeKept(s, l.pc.k);
      FinalLocal(s, l, r.state, FinalHistory(s, l.pc.k, r));
    }
    KeepsAwait(s, c, l, r, Finish(Promoted), FinalHistory(s, l.pc.k, r));
  }

  lemma KeepsBegin(s: System, c: OwnerId, l: Local)
    requires Inv(s) && LocalOf(s, c) == l && l.Busy? && l.pc.BeginRet?
    ensures Inv(Await(s, c, BeginRetirement(s.db, l.op, l.pc.previous), Finish(RollbackProtected)))
  {
    BusyOk(s, c, l);
    var r := BeginRetirement(s.db, l.op, l.pc.previous);
    BeginKept(s, l.op, l.pc.previous);
    if r.Committed? { LocalStays(s.db, s.hist, r.state, s.hist, l); }
    KeepsAwait(s, c, l, r, Finish(RollbackProtected), s.hist);
  }

  lemma KeepsMarkRetired(s: System, c: OwnerId, l: Local, ch: Choice)
    requires Inv(s) && LocalOf(s, c) == l && l.Busy? && l.pc.MarkRetired?
    ensures Inv(CoordinatorStep(s, c, ch))
  {
    BusyOk(s, c, l);
    MarkRetiredKept(s, l.op, l.pc.g, c, l.fence);
    CleanupAwait(s, c, l, MarkGenerationRetired(s.db, l.op, l.pc.g, c, l.fence), Authorize(l.pc.g));
  }

  lemma AuthorizeShape(s: System, c: OwnerId, l: Local, ch: Choice, r: Outcome<Db>)
    requires LocalOf(s, c) == l && l.Busy? && l.pc.Authorize?
    requires r == AuthorizePhysicalDeletion(s.db, l.op, l.pc.g, c, l.fence, ch.token, ch.leaseMs)
    ensures r.Aborted? ==> CoordinatorStep(s, c, ch) == Fail(s, c)
    ensures r.Committed? ==> l.pc.g in r.state.retirements && r.state.retirements[l.pc.g].token.Some?
    ensures r.Committed? ==>
      CoordinatorStep(s, c, ch) == Await(s, c, r, RecordPlan(l.pc.g, r.state.retirements[l.pc.g].token.value))
  {}

  lemma KeepsAuthorize(s: System, c: OwnerId, l: Local, ch: Choice)
    requires Inv(s) && LocalOf(s, c) == l && l.Busy? && l.pc.Authorize?
    ensures Inv(CoordinatorStep(s, c, ch))
  {
    BusyOk(s, c, l);
    var r := AuthorizePhysicalDeletion(s.db, l.op, l.pc.g, c, l.fence, ch.token, ch.leaseMs);
    AuthorizeShape(s, c, l, ch, r);
    if r.Aborted? { KeepsFail(s, c); } else { KeepsAuthorized(s, c, l, ch, r); }
  }

  lemma KeepsAuthorized(s: System, c: OwnerId, l: Local, ch: Choice, r: Outcome<Db>)
    requires Inv(s) && LocalOf(s, c) == l && l.Busy? && l.pc.Authorize? && LocalOk(s.db, s.hist, l)
    requires r == AuthorizePhysicalDeletion(s.db, l.op, l.pc.g, c, l.fence, ch.token, ch.leaseMs) && r.Committed?
    requires l.pc.g in r.state.retirements && r.state.retirements[l.pc.g].token.Some?
    ensures Inv(Await(s, c, r, RecordPlan(l.pc.g, r.state.retirements[l.pc.g].token.value)))
  {
    AuthorizeKept(s, l.op, l.pc.g, c, l.fence, ch.token, ch.leaseMs);
    CleanupAwait(s, c, l, r, RecordPlan(l.pc.g, r.state.retirements[l.pc.g].token.value));
  }

  lemma KeepsAttempts(s: System, c: OwnerId, l: Local, r: Outcome<Db>, pc: Pc)
    requires Inv(s) && LocalOf(s, c) == l && l.Busy? && LocalOk(s.db, s.hist, l.(pc := pc))
    requires r.Committed? ==> r.state == s.db.(attempts := r.state.attempts)
    ensures Inv(Await(s, c, r, pc))
  {
    if r.Committed? { AttemptsKept(s, r.state.attempts); }
    CleanupAwait(s, c, l, r, pc);
  }

  lemma KeepsFinalizeRet(s: System, c: OwnerId, l: Local, ch: Choice)
    requires Inv(s) && LocalOf(s, c) == l && l.Busy? && l.pc.FinalizeRet?
    ensures Inv(CoordinatorStep(s, c, ch))
  {
    BusyOk(s, c, l);
    FinalizeRetirementKept(s, l.op, l.pc.g, c, l.fence);
    CleanupAwait(s, c, l, FinalizeRetirement(s.db, l.op, l.pc.g, c, l.fence), Finish(Completed));
  }

  /** Recording one resource's progress touches the attempts only. */
  lemma RecordShape(s: System, c: OwnerId, l: Local, ch: Choice) returns (r: Outcome<Db>)
    requires LocalOf(s, c) == l && l.Busy? && l.pc.Deleting? && ch.record.Some?
    ensures CoordinatorStep(s, c, ch) == Await(s, c, r, l.pc)
    ensures (r.Committed? ==> r.state == s.db.(attempts := r.state.attempts))
  {
    var record := ch.record.value;
    var from := match record.to
      case DeleteIntent => {FenceMarked, DeleteIntent}
      case DeleteAccepted => {DeleteIntent, DeleteAccepted}
      case AbsentConfirmed => {DeleteAccepted, AbsentConfirmed}
      case _ => {};
    r := SetAttemptState(s.db, l.op, c, l.fence, l.pc.token, Some(record.role), Some(record.uid), from, record.to);
  }

  lemma KeepsRecord(s: System, c: OwnerId, l: Local, ch: Choice)
    requires Inv(s) && LocalOf(s, c) == l && l.Busy? && l.pc.Deleting? && ch.record.Some?
    ensures Inv(CoordinatorStep(s, c, ch))
  {
    BusyOk(s, c, l);
    var r := RecordShape(s, c, l, ch);
    KeepsAttempts(s, c, l, r, l.pc);
  }

  lemma KeepsConfirm(s: System, c: OwnerId, l: Local, ch: Choice)
    requires Inv(s) && LocalOf(s, c) == l && l.Busy? && l.pc.Deleting? && ch.record.None?
    ensures Inv(CoordinatorStep(s, c, ch))
  {
    BusyOk(s, c, l);
    ConfirmKept(s, l.op, l.pc.g, c, l.fence, l.pc.token);
    CleanupAwait(s, c, l, ConfirmPhysicalDeletion(s.db, l.op, l.pc.g, c, l.fence, l.pc.token), FinalizeRet(l.pc.g));
  }

  lemma CleanupAwait(s: System, c: OwnerId, l: Local, r: Outcome<Db>, pc: Pc)
    requires Inv(s) && LocalOf(s, c) == l && l.Busy?
    requires LocalOk(s.db, s.hist, l.(pc := pc))
    requires r.Committed? ==> Kept(s, r.state, s.hist)
    ensures Inv(Await(s, c, r, pc))
  {
    if r.Committed? { LocalStays(s.db, s.hist, r.state, s.hist, l.(pc := pc)); }
    KeepsAwait(s, c, l, r, pc, s.hist);
  }

  lemma KeepsPlan(s: System, c: OwnerId, l: Local, ch: Choice)
    requires Inv(s) && LocalOf(s, c) == l && l.Busy? && l.pc.RecordPlan?
    ensures Inv(CoordinatorStep(s, c, ch))
  {
    BusyOk(s, c, l);
    KeepsAttempts(s, c, l, RecordDeletionPlan(s.db, l.op, l.pc.g, c, l.fence, l.pc.token, ch.plan),
                  MarkFence(l.pc.g, l.pc.token));
  }

  lemma KeepsFence(s: System, c: OwnerId, l: Local, ch: Choice)
    requires Inv(s) && LocalOf(s, c) == l && l.Busy? && l.pc.MarkFence?
    ensures Inv(CoordinatorStep(s, c, ch))
  {
    BusyOk(s, c, l);
    KeepsAttempts(s, c, l, SetAttemptState(s.db, l.op, c, l.fence, l.pc.token, None, None, {Planned, FenceMarked},
                                           FenceMarked), Deleting(l.pc.g, l.pc.token));
  }

  lemma KeepsCleanup(s: System, c: OwnerId, l: Local, ch: Choice)
    requires Inv(s) && LocalOf(s, c) == l && l.Busy? && CleanupPc(l.pc)
    ensures Inv(CoordinatorStep(s, c, ch))
  {
    match l.pc {
      case MarkRetired(_) => KeepsMarkRetired(s, c, l, ch);
      case Authorize(_) => KeepsAuthorize(s, c, l, ch);
      case RecordPlan(_, _) => KeepsPlan(s, c, l, ch);
      case MarkFence(_, _) => KeepsFence(s, c, l, ch);
      case Deleting(_, _) => if ch.record.None? { KeepsConfirm(s, c, l, ch); } else { KeepsRecord(s, c, l, ch); }
      case FinalizeRet(_) => KeepsFinalizeRet(s, c, l, ch);
    }
  }

  lemma KeepsRead(s: System, c: OwnerId, l: Local, ch: Choice)
    requires Inv(s) && LocalOf(s, c) == l && l.Busy? && l.pc.SawPointer?
    ensures Inv(CoordinatorStep(s, c, ch))
  {
    BusyOk(s, c, l);
    if exists k :: 0 <= k < |s.db.journals| && s.db.journals[k].op == l.op { KeepsJump(s, c, l, Finish(Promoting)); }
    else { KeepsSawPointer(s, c, l); }
  }

  lemma KeepsCoordinator(s: System, c: OwnerId, ch: Choice)
    requires Inv(s)
    ensures Inv(CoordinatorStep(s, c, ch))
  {
    var l := LocalOf(s, c);
    if l.Busy? {
      match l.pc {
        case Start => KeepsStart(s, c, l, ch);
        case Finish(_) => KeepsFinish(s, c, l);
        case Advance(_, _, _) => KeepsAdvance(s, c, l);
        case SawPointer(_, _) => KeepsRead(s, c, l, ch);
        case Prepare(_, _) => KeepsPrepare(s, c, l);
        case Cas(_) => KeepsCas(s, c, l);
        case Verify(_) => KeepsVerify(s, c, l); KeepsFail(s, c);
        case FinalizeJournal(_) => KeepsFinalize(s, c, l);
        case BeginRet(_) => KeepsBegin(s, c, l);
        case _ => KeepsCleanup(s, c, l, ch);
      }
    }
  }

  lemma KeepsClaim(s: System, c: OwnerId, id: OperationId, leaseMs: nat)
    requires Inv(s)
    ensures Inv(StepClaim(s, c, id, leaseMs))
  {
    var r := Claim(s.db, id, c, leaseMs);
    if LocalOf(s, c).Idle? && r.Committed? {
      assert OperationOk(s.db.operations[id], id, s.db.operations, s.db.generations, s.db.retirements, s.hist);
      OperationRow(s, r.state, id);
      WithLocal(s, StepClaim(s, c, id, leaseMs), c,
                Busy(id, r.state.operations[id].fence, r.state.operations[id].state, Start));
    }
  }

  lemma KeepsEvidence(s: System, g: GenerationId, state: GenState, valid: bool, syncActive: bool)
    requires Inv(s)
    ensures Inv(StepEvidence(s, g, state, valid, syncActive))
  {
    if g in s.db.generations && MayReport(s.db.generations[g], state) {
      var row := s.db.generations[g].(state := state, valid := valid, syncActive := syncActive);
      var t := StepEvidence(s, g, state, valid, syncActive);
      assert ProtectionOk(s.db.generations[g], g, s.hist.installs, s.hist.finalized);
      if Building(s.db.generations[g].state) || s.db.generations[g].state == Failed {
        NotInstalled(s.db.generations, s.hist.installs, s.hist.finalized, g);
        BuildingRow(s, g, row, s.hist);
      } else {
        SameStanding(s, g, row);
      }
      SameLocals(s, t);
    }
  }

  /** Evidence about a settled generation changes neither its state nor its protection. */
  lemma SameStanding(s: System, g: GenerationId, row: Generation)
    requires DbInv(s.db, s.hist) && g in s.db.generations
    requires row.state == s.db.generations[g].state && row.protection == s.db.generations[g].protection
    ensures Kept(s, s.db.(generations := s.db.generations[g := row]), s.hist)
  {
    var gens' := s.db.generations[g := row];
    assert ProtectionOk(s.db.generations[g], g, s.hist.installs, s.hist.finalized);
    RowsAt(s.db.generations, s.hist.installs, s.hist.finalized, g, row);
    ProtectionsAt(s.db.generations, s.db.pointer, s.hist.installs, s.hist.finalized, g, row);
    StandingRegistry(s.db.operations, s.db.generations, s.db.retirements, s.hist, g, row);
    OwnedStays(s.db.operations, s.db.generations, s.db.journals, s.hist, s.db.operations, gens', s.hist);
    OperationsStay(s, gens', s.hist);
  }

  lemma StandingRegistry(ops: Ops, gens: Gens, rets: Rets, hist: History, g: GenerationId, row: Generation)
    requires Creators(ops, gens, hist.creator) && RetirementRows(gens, rets)
    requires g in gens && row.state == gens[g].state && row.protection == gens[g].protection
    ensures Creators(ops, gens[g := row], hist.creator) && RetirementRows(gens[g := row], rets)
    ensures GensGrow(gens, hist.installs, gens[g := row], hist.installs)
  {}

  lemma KeepsRequest(s: System, id: OperationId, g: GenerationId)
    requires Inv(s)
    ensures Inv(Step(s, Requested(id, g)))
  {
    var t := Step(s, Requested(id, g));
    if id !in s.db.operations { OperationRow(s, t.db, id); }
    SameLocals(s, t);
  }

  lemma KeepsStep(s: System, a: Action)
    requires Inv(s)
    ensures Inv(Step(s, a))
  {
    var t := Step(s, a);
    match a {
      case Tick(_) => SameLocals(s, t);
      case Requested(id, g) => KeepsRequest(s, id, g);
      case Scheduled(id, g) => ScheduleKept(s, id, g); SameLocals(s, t);
      case Released(serving, g, version) => ReleaseKept(s, serving, g, version); SameLocals(s, t);
      case Evidence(g, state, valid, syncActive) => KeepsEvidence(s, g, state, valid, syncActive);
      case Claimed(c, id, leaseMs) => KeepsClaim(s, c, id, leaseMs);
      case Crashed(c) => KeepsFail(s, c);
      case Proceed(c, choice) => KeepsCoordinator(s, c, choice);
    }
  }

  lemma {:induction false} KeepsRun(s: System, actions: seq<Action>)
    requires Inv(s)
    ensures Inv(Run(s, actions))
    decreases |actions|
  {
    if actions != [] {
      KeepsStep(s, actions[0]);
      KeepsRun(Step(s, actions[0]), actions[1..]);
    }
  }
}
