/** A promotion that is left alone is carried to its end, from whatever phase a crash left it in. */
module CoordinatorProgress {
  import opened Wrappers
  import opened CoordinatorDb
  import opened CoordinatorProtocol
  import opened CoordinatorWitness

  /** The journal's source still serves and its target is still READY. */
  predicate Swappable(db: Db, j: Journal) {
    && j.from in db.generations && db.generations[j.from].state == Serving
    && j.to in db.generations && db.generations[j.to].state == Ready
  }

  /** Nothing stands in the way of the rest of journal `k`. */
  predicate Clear(db: Db, k: nat) {
    && k < |db.journals|
    && (db.journals[k].phase != GenerationFinalized ==> Swappable(db, db.journals[k]))
    && (db.journals[k].phase == Preparing ==>
          db.pointer.generation == db.journals[k].from && db.pointer.version == db.journals[k].expected)
  }

  // ------------------------------------------ the states of one reconcile

  function AfterCas(s: System, k: nat): System
    requires k < |s.db.journals|
  {
    var j, p := s.db.journals[k], s.db.pointer;
    s.(db := s.db.(pointer := Pointer(j.to, Some(p.generation), p.version + 1),
                   journals := s.db.journals[k := j.(phase := PointerUpdated, resulting := Some(p.version + 1))]),
       hist := s.hist.(installs := s.hist.installs + [j.to], installer := s.hist.installer + [k],
                       slot := s.hist.slot[k := |s.hist.installs|]))
  }

  function AfterVerify(s: System, k: nat): System
    requires k < |s.db.journals|
  {
    s.(db := s.db.(journals := s.db.journals[k := s.db.journals[k].(phase := RouterVerified)]))
  }

  function AfterFinalize(s: System, k: nat): System
    requires FinalizePromotion(s.db, k).Committed?
  {
    s.(db := FinalizePromotion(s.db, k).state, hist := s.hist.(finalized := s.hist.finalized + 1))
  }

  lemma CasGoes(s: System, c: OwnerId, id: OperationId, k: nat)
    requires id in s.db.operations && Clear(s.db, k) && s.db.journals[k].phase == Preparing
    ensures Reaches(Taken(s, c, id, Cas(k)), Taken(AfterCas(s, k), c, id, Verify(k)))
  {
    var t := Taken(s, c, id, Cas(k));
    assert CoordinatorStep(t, c, YES) == StepCas(t, c, LocalOf(t, c));
    Goes(t, Proceed(c, YES), Taken(AfterCas(s, k), c, id, Verify(k)));
  }

  lemma VerifyGoes(s: System, c: OwnerId, id: OperationId, k: nat)
    requires id in s.db.operations && k < |s.db.journals| && s.db.journals[k].phase == PointerUpdated
    ensures Reaches(Taken(s, c, id, Verify(k)), Taken(AfterVerify(s, k), c, id, FinalizeJournal(k)))
  {
    Goes(Taken(s, c, id, Verify(k)), Proceed(c, YES), Taken(AfterVerify(s, k), c, id, FinalizeJournal(k)));
  }

  /** A finalisation looks at generations and journals only. */
  lemma FinalizeFrame(db: Db, k: nat, ops: map<OperationId, Operation>)
    ensures FinalizePromotion(db, k).Committed? ==>
      FinalizePromotion(db.(operations := ops), k)
      == Committed(FinalizePromotion(db, k).state.(operations := ops))
  {}

  lemma FinalizeGoes(s: System, c: OwnerId, id: OperationId, k: nat)
    requires id in s.db.operations && k < |s.db.journals| && s.db.journals[k].phase == RouterVerified
    requires FinalizePromotion(s.db, k).Committed?
    ensures Reaches(Taken(s, c, id, FinalizeJournal(k)), Taken(AfterFinalize(s, k), c, id, Finish(Promoted)))
  {
    var t := Taken(s, c, id, FinalizeJournal(k));
    FinalizeFrame(s.db, k, t.db.operations);
    assert CoordinatorStep(t, c, YES) == StepFinalize(t, c, LocalOf(t, c));
    Goes(t, Proceed(c, YES), Taken(AfterFinalize(s, k), c, id, Finish(Promoted)));
  }

  // ---------------------------------------------------------- to PROMOTED

  /** The operation is PROMOTED over a finalised journal whose target serves in place of its source. */
  predicate PromotedBy(s: System, t: System, c: OwnerId, id: OperationId, k: nat)
    requires k < |s.db.journals|
  {
    var j := s.db.journals[k];
    && Waiting(t, c, id) && t.db.operations[id].state == Promoted
    && k < |t.db.journals| && t.db.journals[k].phase == GenerationFinalized
    && t.db.pointer == (if j.phase == Preparing then Pointer(j.to, Some(j.from), j.expected + 1) else s.db.pointer)
    && (if j.phase == GenerationFinalized then t.db.generations == s.db.generations
        else j.to in t.db.generations && t.db.generations[j.to].state == Serving
             && j.from in t.db.generations && t.db.generations[j.from].state == Retiring
             && t.db.generations[j.from].protection == RollbackProtection)
  }

  lemma Concludes(s: System, c: OwnerId, id: OperationId)
    requires id in s.db.operations && LocalOf(s, c).Idle?
    ensures Reaches(Taken(s, c, id, Finish(Promoted)), Moved(s, c, id, Promoted))
    ensures Waiting(Moved(s, c, id, Promoted), c, id)
  {
    FinishTaken(s, c, id, Promoted);
  }

  lemma FromVerified(s: System, c: OwnerId, id: OperationId, k: nat) returns (t: System)
    requires id in s.db.operations && LocalOf(s, c).Idle? && Clear(s.db, k) && s.db.journals[k].phase == RouterVerified
    requires s.db.journals[k].from != s.db.journals[k].to
    ensures Reaches(Taken(s, c, id, FinalizeJournal(k)), t) && PromotedBy(s, t, c, id, k)
  {
    assert FinalizePromotion(s.db, k).Committed?;
    var next := AfterFinalize(s, k);
    FinalizeGoes(s, c, id, k);
    Concludes(next, c, id);
    t := Moved(next, c, id, Promoted);
    Then(Taken(s, c, id, FinalizeJournal(k)), Taken(next, c, id, Finish(Promoted)), t);
  }

  lemma FromMoved(s: System, c: OwnerId, id: OperationId, k: nat) returns (t: System)
    requires id in s.db.operations && LocalOf(s, c).Idle? && Clear(s.db, k) && s.db.journals[k].phase == PointerUpdated
    requires s.db.journals[k].from != s.db.journals[k].to
    ensures Reaches(Taken(s, c, id, Verify(k)), t) && PromotedBy(s, t, c, id, k)
  {
    VerifyGoes(s, c, id, k);
    t := FromVerified(AfterVerify(s, k), c, id, k);
    Then(Taken(s, c, id, Verify(k)), Taken(AfterVerify(s, k), c, id, FinalizeJournal(k)), t);
  }

  lemma FromPrepared(s: System, c: OwnerId, id: OperationId, k: nat) returns (t: System)
    requires id in s.db.operations && LocalOf(s, c).Idle? && Clear(s.db, k) && s.db.journals[k].phase == Preparing
    requires s.db.journals[k].from != s.db.journals[k].to
    ensures Reaches(Taken(s, c, id, Cas(k)), t) && PromotedBy(s, t, c, id, k)
  {
    CasGoes(s, c, id, k);
    t := FromMoved(AfterCas(s, k), c, id, k);
    Then(Taken(s, c, id, Cas(k)), Taken(AfterCas(s, k), c, id, Verify(k)), t);
  }

  /**
    Whatever phase the journal of a PROMOTING operation was left in, one
    undisturbed reconcile takes it to PROMOTED: the target serves and the source
    is kept for rollback.
   */
  lemma RecoveryCompletes(s: System, c: OwnerId, id: OperationId, k: nat) returns (t: System)
    requires Waiting(s, c, id) && s.db.operations[id].state == Promoting
    requires Clear(s.db, k) && s.db.journals[k].op == id
    ensures Reaches(s, t) && PromotedBy(s, t, c, id, k)
  {
    var phase := s.db.journals[k].phase;
    var pc := if phase == Preparing then Cas(k) else if phase == PointerUpdated then Verify(k)
      else if phase == RouterVerified then FinalizeJournal(k) else Finish(Promoted);
    TakeAndRead(s, c, id, YES.(journal := k), pc);
    if phase == Preparing { t := FromPrepared(s, c, id, k); }
    else if phase == PointerUpdated { t := FromMoved(s, c, id, k); }
    else if phase == RouterVerified { t := FromVerified(s, c, id, k); }
    else {
      Concludes(s, c, id);
      t := Moved(s, c, id, Promoted);
    }
    Then(s, Taken(s, c, id, pc), t);
  }

  // ------------------------------------------------- to ROLLBACK_PROTECTED

  /** `s` with a retirement row for `g`, begun by operation `id` unless it was there. */
  function WithRetirement(s: System, id: OperationId, g: GenerationId): System {
    if g in s.db.retirements then s
    else s.(db := s.db.(retirements := s.db.retirements[g := Retirement(id, WaitingEligibility, None, None, 0, None)]))
  }

  lemma BeginGoes(s: System, c: OwnerId, id: OperationId, g: GenerationId)
    requires id in s.db.operations && g in s.db.generations
    ensures Reaches(Taken(s, c, id, BeginRet(g)), Taken(WithRetirement(s, id, g), c, id, Finish(RollbackProtected)))
  {
    Goes(Taken(s, c, id, BeginRet(g)), Proceed(c, YES),
         Taken(WithRetirement(s, id, g), c, id, Finish(RollbackProtected)));
  }

  /** A PROMOTED operation whose candidate is the pointer's generation ends with the one before it up for retirement. */
  lemma ProtectionCompletes(s: System, c: OwnerId, id: OperationId) returns (t: System)
    requires Waiting(s, c, id) && s.db.operations[id].state == Promoted
    requires s.db.pointer.generation == s.db.operations[id].candidate
    requires s.db.pointer.previous.Some? ==> s.db.pointer.previous.value in s.db.generations
    ensures Reaches(s, t) && id in t.db.operations && t.db.operations[id].state == RollbackProtected
    ensures s.db.pointer.previous.Some? ==> s.db.pointer.previous.value in t.db.retirements
    ensures t.db.pointer == s.db.pointer && t.db.generations == s.db.generations
  {
    match s.db.pointer.previous
    case None =>
      TakeAndRead(s, c, id, YES, Finish(RollbackProtected));
      FinishTaken(s, c, id, RollbackProtected);
      t := Moved(s, c, id, RollbackProtected);
      Then(s, Taken(s, c, id, Finish(RollbackProtected)), t);
    case Some(previous) =>
      var next := WithRetirement(s, id, previous);
      TakeAndRead(s, c, id, YES, BeginRet(previous));
      BeginGoes(s, c, id, previous);
      Then(s, Taken(s, c, id, BeginRet(previous)), Taken(next, c, id, Finish(RollbackProtected)));
      FinishTaken(next, c, id, RollbackProtected);
      t := Moved(next, c, id, RollbackProtected);
      Then(s, Taken(next, c, id, Finish(RollbackProtected)), t);
  }


  // -------------------------------------------------------------- takeover

  /** Whoever holds an operation that is not over can lose it to a free coordinator once the lease has run out. */
  lemma TakeoverHappens(s: System, c: OwnerId, id: OperationId, leaseMs: nat) returns (t: System)
    requires id in s.db.operations && LocalOf(s, c).Idle?
    requires s.db.operations[id].state !in {RollbackProtected, Completed, FailedOp}
    ensures Reaches(s, t) && id in t.db.operations
    ensures t.db.operations[id] == s.db.operations[id].(lease := Some(Lease(c, t.db.now + leaseMs)),
                                                        fence := s.db.operations[id].fence + 1)
    ensures LocalOf(t, c) == Busy(id, s.db.operations[id].fence + 1, s.db.operations[id].state, Start)
  {
    var lease := s.db.operations[id].lease;
    var wait := if lease.Some? then lease.value.expires + 1 else 0;
    var later := Step(s, Tick(wait));
    OneStep(s, Tick(wait));
    OneStep(later, Claimed(c, id, leaseMs));
    t := Step(later, Claimed(c, id, leaseMs));
    Then(s, later, t);
  }

  /** The observation that the operation waits for has not been made. */
  predicate NothingYet(s: System, id: OperationId, ch: Choice)
    requires id in s.db.operations
  {
    var op := s.db.operations[id];
    var g := op.candidate;
    match op.state
    case LoadingSnapshot => g in s.db.generations && s.db.generations[g].state != Failed && !ch.observed
    case WaitingForCatchup => g !in s.db.generations || !ch.observed
    case ValidatingOp =>
      g !in s.db.generations || s.db.generations[g].state != Ready || !s.db.generations[g].valid
    case _ => false
  }

  /** A coordinator that finds nothing new gives the operation back as it was, for anyone to claim. */
  lemma WaitingGivesBack(s: System, c: OwnerId, id: OperationId, ch: Choice)
    requires Waiting(s, c, id) && NothingYet(s, id, ch)
    ensures Reaches(s, Moved(s, c, id, s.db.operations[id].state))
  {
    TakeAndRead(s, c, id, ch, Finish(s.db.operations[id].state));
    FinishTaken(s, c, id, s.db.operations[id].state);
    Then(s, Taken(s, c, id, Finish(s.db.operations[id].state)), Moved(s, c, id, s.db.operations[id].state));
  }

  /** An operation whose candidate is the pointer's generation already goes on without a journal. */
  lemma NamedGoesOn(s: System, c: OwnerId, id: OperationId)
    requires Waiting(s, c, id) && s.db.operations[id].state == ReadyToPromote
    requires s.db.pointer.generation == s.db.operations[id].candidate
    ensures Reaches(s, Moved(s, c, id, Promoting))
  {
    ReadThenFinish(s, c, id, Promoting);
  }
}
