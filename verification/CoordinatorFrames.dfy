/** What each coordinator call leaves alone, program counter by program counter. */
module CoordinatorFrames {
  import opened Wrappers
  import opened CoordinatorDb
  import opened CoordinatorProtocol

  /** No operation disappears, changes its identity or loses fence. */
  ghost predicate OpsCarry(o: map<OperationId, Operation>, o': map<OperationId, Operation>) {
    forall id :: id in o ==>
      id in o' && o'[id].kind == o[id].kind && o'[id].candidate == o[id].candidate && o[id].fence <= o'[id].fence
  }

  predicate PromotionPc(pc: Pc) {
    pc.Advance? || pc.SawPointer? || pc.Prepare? || pc.Cas? || pc.Verify? || pc.FinalizeJournal? || pc.BeginRet?
  }

  predicate CleanupPc(pc: Pc) {
    pc.MarkRetired? || pc.Authorize? || pc.RecordPlan? || pc.MarkFence? || pc.Deleting? || pc.FinalizeRet?
  }

  predicate WritesAttempts(pc: Pc) { pc.RecordPlan? || pc.MarkFence? || pc.Deleting? }

  /** The calls between authorisation and the confirmed deletion, which a deletion driver makes. */
  predicate DriverCall(s: System, a: Action) {
    a.Proceed? && LocalOf(s, a.c).Busy? && WritesAttempts(LocalOf(s, a.c).pc)
  }

  predicate TouchesRetirement(pc: Pc) {
    pc.Deleting? || pc.BeginRet? || pc.MarkRetired? || pc.Authorize? || pc.FinalizeRet?
  }

  /** The coordinator ends idle, or goes on with the same operation under the same fence. */
  predicate SameClaim(l: Local, l': Local) { l'.Idle? || (l.Busy? && l'.op == l.op && l'.fence == l.fence) }

  ghost predicate OnlyMine(s: System, t: System, c: OwnerId, l: Local) {
    t.locals == s.locals[c := LocalOf(t, c)] && SameClaim(l, LocalOf(t, c))
  }

  // ------------------------------------------------- by kind of ending

  lemma AwaitFrame(s: System, c: OwnerId, l: Local, r: Outcome<Db>, pc: Pc)
    requires LocalOf(s, c) == l && l.Busy?
    ensures var t := Await(s, c, r, pc);
      && t.hist == s.hist && t.db == (if r.Committed? then r.state else s.db)
      && OnlyMine(s, t, c, l) && (LocalOf(t, c).Idle? || LocalOf(t, c).pc == pc)
  {}

  lemma DoneFrame(s: System, c: OwnerId, l: Local, r: Outcome<Db>)
    requires l.Busy?
    ensures var t := Done(s, c, r);
      && t.hist == s.hist && t.db == (if r.Committed? then r.state else s.db)
      && OnlyMine(s, t, c, l) && LocalOf(t, c).Idle?
  {}

  // ------------------------------------------------------ by program counter

  lemma StartFrame(s: System, c: OwnerId, l: Local, ch: Choice)
    requires LocalOf(s, c) == l && l.Busy?
    ensures var t := StepStart(s, c, l, ch);
      && t.hist == s.hist && t.db.pointer == s.db.pointer && t.db.journals == s.db.journals
      && t.db.attempts == s.db.attempts
  {}

  lemma StartLocals(s: System, c: OwnerId, l: Local, ch: Choice)
    requires LocalOf(s, c) == l && l.Busy?
    ensures OnlyMine(s, StepStart(s, c, l, ch), c, l)
  {}

  /** Only the eligibility check writes operations or retirement rows. */
  lemma StartReads(s: System, c: OwnerId, l: Local, ch: Choice)
    requires LocalOf(s, c) == l && l.Busy? && l.seen != RetirementWaiting
    ensures StepStart(s, c, l, ch).db.operations == s.db.operations
    ensures StepStart(s, c, l, ch).db.retirements == s.db.retirements
  {}

  lemma StartReevaluates(s: System, c: OwnerId, l: Local, ch: Choice)
    requires l.Busy? && l.seen == RetirementWaiting
    ensures StepStart(s, c, l, ch) in {Done(s, c, Reevaluate(s.db, l.op, c, l.fence)), Fail(s, c)}
  {}

  lemma ReevaluateOperations(db: Db, id: OperationId, owner: OwnerId, fence: nat)
    ensures var r := Reevaluate(db, id, owner, fence); r.Committed? ==> OpsCarry(db.operations, r.state.operations)
  {}

  lemma StartOperations(s: System, c: OwnerId, l: Local, ch: Choice)
    requires LocalOf(s, c) == l && l.Busy?
    ensures OpsCarry(s.db.operations, StepStart(s, c, l, ch).db.operations)
  {
    if l.seen != RetirementWaiting {
      StartReads(s, c, l, ch);
    } else {
      StartReevaluates(s, c, l, ch);
      ReevaluateOperations(s.db, l.op, c, l.fence);
    }
  }

  lemma FinishFrame(s: System, c: OwnerId, l: Local, ch: Choice)
    requires LocalOf(s, c) == l && l.Busy? && l.pc.Finish?
    ensures var t := CoordinatorStep(s, c, ch);
      && t.hist == s.hist && t.db == s.db.(operations := t.db.operations) && OpsCarry(s.db.operations, t.db.operations)
      && OnlyMine(s, t, c, l) && LocalOf(t, c).Idle?
  {
    DoneFrame(s, c, l, Transition(s.db, l.op, c, l.fence, l.seen, l.pc.to));
  }

  /**
    A promotion call leaves operations and attempts alone; only one moves the
    pointer, only one adds a retirement row.
   */
  ghost predicate PromotionEffect(s: System, t: System, c: OwnerId, l: Local)
    requires l.Busy?
  {
    && t.db.operations == s.db.operations && t.db.attempts == s.db.attempts
    && (!l.pc.BeginRet? ==> t.db.retirements == s.db.retirements)
    && (!l.pc.Cas? ==> t.db.pointer == s.db.pointer && t.hist.installs == s.hist.installs)
    && OnlyMine(s, t, c, l)
    && (LocalOf(t, c).Idle? || !CleanupPc(LocalOf(t, c).pc))
  }

  lemma AdvanceFrame(s: System, c: OwnerId, l: Local)
    requires LocalOf(s, c) == l && l.Busy? && l.pc.Advance?
    ensures PromotionEffect(s, StepAdvance(s, c, l), c, l)
  {}

  lemma CasFrame(s: System, c: OwnerId, l: Local)
    requires LocalOf(s, c) == l && l.Busy? && l.pc.Cas?
    ensures PromotionEffect(s, StepCas(s, c, l), c, l)
  {}

  lemma FinalizeFrame(s: System, c: OwnerId, l: Local)
    requires LocalOf(s, c) == l && l.Busy? && l.pc.FinalizeJournal?
    ensures PromotionEffect(s, StepFinalize(s, c, l), c, l)
  {}

  lemma ReadFrame(s: System, c: OwnerId, l: Local, ch: Choice)
    requires LocalOf(s, c) == l && l.Busy? && (l.pc.SawPointer? || l.pc.Prepare? || l.pc.Verify? || l.pc.BeginRet?)
    ensures PromotionEffect(s, CoordinatorStep(s, c, ch), c, l)
  {}

  lemma PromotionFrame(s: System, c: OwnerId, l: Local, ch: Choice)
    requires LocalOf(s, c) == l && l.Busy? && PromotionPc(l.pc)
    ensures PromotionEffect(s, CoordinatorStep(s, c, ch), c, l)
  {
    if l.pc.Advance? { AdvanceFrame(s, c, l); }
    else if l.pc.Cas? { CasFrame(s, c, l); }
    else if l.pc.FinalizeJournal? { FinalizeFrame(s, c, l); }
    else { ReadFrame(s, c, l, ch); }
  }

  /** A cleanup call leaves the pointer, the journals and every fence alone. */
  ghost predicate CleanupEffect(s: System, t: System, c: OwnerId, l: Local)
    requires l.Busy?
  {
    && t.hist == s.hist && t.db.pointer == s.db.pointer && t.db.journals == s.db.journals
    && (!l.pc.Authorize? ==> t.db.operations == s.db.operations) && OpsCarry(s.db.operations, t.db.operations)
    && (!WritesAttempts(l.pc) ==> t.db.attempts == s.db.attempts)
    && (l.pc.RecordPlan? || l.pc.MarkFence? ==> t.db.retirements == s.db.retirements)
    && OnlyMine(s, t, c, l)
  }

  lemma RetiringFrame(s: System, c: OwnerId, l: Local, ch: Choice)
    requires LocalOf(s, c) == l && l.Busy? && (l.pc.MarkRetired? || l.pc.FinalizeRet?)
    ensures CleanupEffect(s, CoordinatorStep(s, c, ch), c, l)
  {}

  lemma AuthorizeFrame(s: System, c: OwnerId, l: Local, ch: Choice)
    requires LocalOf(s, c) == l && l.Busy? && l.pc.Authorize?
    ensures CleanupEffect(s, StepAuthorize(s, c, l, ch), c, l)
  {}

  lemma AttemptFrame(s: System, c: OwnerId, l: Local, ch: Choice)
    requires LocalOf(s, c) == l && l.Busy? && (l.pc.RecordPlan? || l.pc.MarkFence?)
    ensures CleanupEffect(s, CoordinatorStep(s, c, ch), c, l)
  {}

  lemma DeletingFrame(s: System, c: OwnerId, l: Local, ch: Choice)
    requires LocalOf(s, c) == l && l.Busy? && l.pc.Deleting?
    ensures CleanupEffect(s, StepDeleting(s, c, l, ch), c, l)
    ensures ch.record.Some? ==> StepDeleting(s, c, l, ch).db.retirements == s.db.retirements
    ensures ch.record.None? ==> StepDeleting(s, c, l, ch).db.attempts == s.db.attempts
  {}

  lemma CleanupFrame(s: System, c: OwnerId, l: Local, ch: Choice)
    requires LocalOf(s, c) == l && l.Busy? && CleanupPc(l.pc)
    ensures CleanupEffect(s, CoordinatorStep(s, c, ch), c, l)
  {
    if l.pc.Authorize? { AuthorizeFrame(s, c, l, ch); }
    else if l.pc.Deleting? { DeletingFrame(s, c, l, ch); }
    else if WritesAttempts(l.pc) { AttemptFrame(s, c, l, ch); }
    else { RetiringFrame(s, c, l, ch); }
  }

  // ----------------------------------------------------------- every call

  lemma CallFrame(s: System, c: OwnerId, l: Local, ch: Choice)
    requires LocalOf(s, c) == l && l.Busy?
    ensures var t := CoordinatorStep(s, c, ch);
      && OpsCarry(s.db.operations, t.db.operations) && OnlyMine(s, t, c, l)
      && (!WritesAttempts(l.pc) ==> t.db.attempts == s.db.attempts)
      && (!l.pc.Start? && !TouchesRetirement(l.pc) ==> t.db.retirements == s.db.retirements)
      && (!l.pc.Cas? ==> t.db.pointer == s.db.pointer && t.hist.installs == s.hist.installs)
  {
    if l.pc.Start? {
      StartFrame(s, c, l, ch);
      StartLocals(s, c, l, ch);
      StartOperations(s, c, l, ch);
    } else if l.pc.Finish? {
      FinishFrame(s, c, l, ch);
    } else if PromotionPc(l.pc) {
      PromotionFrame(s, c, l, ch);
    } else {
      CleanupFrame(s, c, l, ch);
    }
  }
}
