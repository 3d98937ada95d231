/** Retirement transactions keep the database invariant. */
module CoordinatorRetirementSteps {
  import opened Wrappers
  import opened CoordinatorDb
  import opened CoordinatorProtocol
  import opened CoordinatorInvariants
  import opened CoordinatorPreservation

  /** A waiting retirement row for a generation that had none, with the operation that schedules it. */
  lemma NewRetirement(s: System, ops': Ops, g: GenerationId, r: Retirement)
    requires DbInv(s.db, s.hist)
    requires g in s.db.generations && g !in s.db.retirements && r.state == WaitingEligibility
    requires r.op in ops' && OpsGrow(s.db.operations, ops')
    requires ops'[r.op].kind == RetirementOp ==> ops'[r.op] == Operation(RetirementOp, g, RetirementWaiting, None, 0)
    requires ops' == s.db.operations
      || (r.op !in s.db.operations && ops' == s.db.operations[r.op := ops'[r.op]] && ops'[r.op].kind == RetirementOp)
    ensures Kept(s, s.db.(operations := ops', retirements := s.db.retirements[g := r]), s.hist)
  {
    var rets' := s.db.retirements[g := r];
    OwnedStays(s.db.operations, s.db.generations, s.db.journals, s.hist, ops', s.db.generations, s.hist);
    forall id | id in ops' ensures OperationOk(ops'[id], id, ops', s.db.generations, rets', s.hist) {
      if id in s.db.operations {
        OperationStays(s.db.operations[id], id, s.db.operations, s.db.generations, s.db.retirements, s.hist,
                       ops', s.db.generations, rets', s.hist);
      }
    }
    forall x | x in rets' ensures RetirementOwned(rets'[x], x, ops') {
      if x != g { assert RetirementOwned(s.db.retirements[x], x, s.db.operations); }
    }
  }

  /** A retirable generation is no longer live in the chain, so its row may move with its retirement row. */
  lemma RetireGenerations(gens: Gens, p: Pointer, h: seq<GenerationId>, f: nat, rets: Rets, g: GenerationId,
                          row: Generation, r: Retirement)
    requires f < |h| && Rows(gens, h, f) && Protections(gens, p, h, f) && RetirementRows(gens, rets)
    requires g in gens && gens[g].state in {Retiring, Retired, Failed}
    requires gens[g].protection in {Unprotected, RetirementInProgress}
    requires row.state in {Retiring, Retired} && row.protection in {Unprotected, RetirementInProgress}
    requires g in rets && r.state != WaitingEligibility && RetirementRow(r, row)
    ensures Rows(gens[g := row], h, f) && Protections(gens[g := row], p, h, f)
    ensures GensGrow(gens, h, gens[g := row], h)
    ensures RetirementRows(gens[g := row], rets[g := r])
  {
    RowsAt(gens, h, f, g, row);
    ProtectionsAt(gens, p, h, f, g, row);
  }

  lemma RetireOperations(ops: Ops, gens: Gens, rets: Rets, hist: History, gens': Gens, id: OperationId, op: Operation,
                         g: GenerationId, r: Retirement)
    requires Operations(ops, gens, rets, hist) && RetirementsOwned(ops, rets)
    requires GensGrow(gens, hist.installs, gens', hist.installs)
    requires id in ops && ops[id].kind == RetirementOp && op.kind == RetirementOp
    requires op.candidate == ops[id].candidate == g
    requires op.state in {CleaningUp, Completed}
    requires g in rets && rets[g].op == id && r.op == id && r.state != WaitingEligibility
    ensures Operations(ops[id := op], gens', rets[g := r], hist)
    ensures RetirementsOwned(ops[id := op], rets[g := r])
    ensures OpsGrow(ops, ops[id := op]) && RetsGrow(rets, rets[g := r])
  {
    var ops', rets' := ops[id := op], rets[g := r];
    assert OpsGrow(ops, ops');
    forall x | x in ops' ensures OperationOk(ops'[x], x, ops', gens', rets', hist) {
      if x != id { OperationStays(ops[x], x, ops, gens, rets, hist, ops', gens', rets', hist); }
    }
    forall x | x in rets' ensures RetirementOwned(rets'[x], x, ops') {
      if x != g { assert RetirementOwned(rets[x], x, ops); }
    }
  }

  /** A retirement row moves past eligibility, or further, with its generation and operation. */
  lemma RetireRow(s: System, db': Db, id: OperationId, g: GenerationId)
    requires DbInv(s.db, s.hist)
    requires id in s.db.operations && id in db'.operations && g in s.db.generations && g in db'.generations
    requires g in s.db.retirements && g in db'.retirements
    requires db' == s.db.(operations := s.db.operations[id := db'.operations[id]],
                          generations := s.db.generations[g := db'.generations[g]],
                          retirements := s.db.retirements[g := db'.retirements[g]])
    requires s.db.operations[id].kind == RetirementOp && db'.operations[id].kind == RetirementOp
    requires db'.operations[id].candidate == s.db.operations[id].candidate == g
    requires db'.operations[id].state in {CleaningUp, Completed}
    requires s.db.generations[g].state in {Retiring, Retired, Failed} && db'.generations[g].state in {Retiring, Retired}
    requires s.db.generations[g].protection in {Unprotected, RetirementInProgress}
    requires db'.generations[g].protection in {Unprotected, RetirementInProgress}
    requires s.db.retirements[g].op == id && db'.retirements[g].op == id
    requires db'.retirements[g].state != WaitingEligibility && RetirementRow(db'.retirements[g], db'.generations[g])
    ensures Kept(s, db', s.hist)
  {
    RetireGenerations(s.db.generations, s.db.pointer, s.hist.installs, s.hist.finalized, s.db.retirements, g,
                      db'.generations[g], db'.retirements[g]);
    RetireOperations(s.db.operations, s.db.generations, s.db.retirements, s.hist, db'.generations, id,
                     db'.operations[id], g, db'.retirements[g]);
    OwnedStays(s.db.operations, s.db.generations, s.db.journals, s.hist, db'.operations, db'.generations, s.hist);
    CreatorsStay(s.db.operations, s.db.generations, s.hist.creator, db'.operations, g, db'.generations[g]);
  }

  lemma SameRows(db: Db, id: OperationId, g: GenerationId)
    requires id in db.operations && g in db.generations
    ensures db.operations[id := db.operations[id]] == db.operations
    ensures db.generations[g := db.generations[g]] == db.generations
  {}

  lemma CreatorsStay(ops: Ops, gens: Gens, creator: Creator, ops': Ops, g: GenerationId, row: Generation)
    requires Creators(ops, gens, creator) && OpsGrow(ops, ops') && row.state != Creating
    ensures Creators(ops', gens[g := row], creator)
  {}

  /** A retirement operation's rows are exactly the row of its candidate. */
  lemma OwnRow(s: System, id: OperationId)
    requires DbInv(s.db, s.hist)
    requires id in s.db.operations && s.db.operations[id].kind == RetirementOp
    ensures OnlyRetirementOf(s.db, id, s.db.operations[id].candidate)
  {
    assert OperationOk(s.db.operations[id], id, s.db.operations, s.db.generations, s.db.retirements, s.hist);
    forall x | x in s.db.retirements && s.db.retirements[x].op == id ensures x == s.db.operations[id].candidate {
      assert RetirementOwned(s.db.retirements[x], x, s.db.operations);
    }
  }

  lemma ScheduleKept(s: System, id: OperationId, g: GenerationId)
    requires DbInv(s.db, s.hist)
    ensures var r := ScheduleCleanup(s.db, id, g); r.Committed? ==> Kept(s, r.state, s.hist)
  {
    if id !in s.db.operations && g in s.db.generations && g !in s.db.retirements {
      var row := Retirement(id, WaitingEligibility, Some(s.db.pointer.version), Some(s.db.generations[g].version), 0,
                            None);
      NewRetirement(s, s.db.operations[id := Operation(RetirementOp, g, RetirementWaiting, None, 0)], g, row);
    }
  }

  lemma BeginKept(s: System, id: OperationId, g: GenerationId)
    requires DbInv(s.db, s.hist) && id in s.db.operations && s.db.operations[id].kind == PromotionOp
    ensures var r := BeginRetirement(s.db, id, g); r.Committed? ==> Kept(s, r.state, s.hist)
  {
    if g in s.db.generations && g !in s.db.retirements {
      NewRetirement(s, s.db.operations, g, Retirement(id, WaitingEligibility, None, None, 0, None));
    }
  }

  lemma ReevaluateKept(s: System, id: OperationId, owner: OwnerId, fence: nat)
    requires DbInv(s.db, s.hist)
    ensures var r := Reevaluate(s.db, id, owner, fence); r.Committed? ==> Kept(s, r.state, s.hist)
  {
    var r := Reevaluate(s.db, id, owner, fence);
    if r.Committed? {
      assert OperationOk(s.db.operations[id], id, s.db.operations, s.db.generations, s.db.retirements, s.hist);
      OwnRow(s, id);
      if Eligible(s.db, s.db.operations[id].candidate, id) {
        EligibleKept(s, r.state, id, fence);
      } else {
        assert r.state.retirements == s.db.retirements;
        OperationRow(s, r.state, id);
      }
    }
  }

  lemma EligibleKept(s: System, db': Db, id: OperationId, fence: nat)
    requires DbInv(s.db, s.hist)
    requires id in s.db.operations && s.db.operations[id].kind == RetirementOp
    requires s.db.operations[id].state == RetirementWaiting
    requires OnlyRetirementOf(s.db, id, s.db.operations[id].candidate)
    requires Eligible(s.db, s.db.operations[id].candidate, id)
    requires s.db.generations[s.db.operations[id].candidate].protection == Unprotected
    requires var g := s.db.operations[id].candidate; var row := s.db.generations[g];
      db' == s.db.(
        generations := s.db.generations[g := row.(state := Retiring, protection := RetirementInProgress,
                                                  version := row.version + 1)],
        retirements := IntoRetiring(s.db.retirements, id, s.db.pointer.version, row.version + 1, fence),
        operations := s.db.operations[id := s.db.operations[id].(state := CleaningUp, lease := None)])
    ensures Kept(s, db', s.hist)
  {
    var g := s.db.operations[id].candidate;
    assert db'.retirements == s.db.retirements[g := db'.retirements[g]];
    RetireRow(s, db', id, g);
  }

  /** The row a cleanup coordinator names is its operation's own, and its generation is retired for good. */
  lemma CleanupFacts(s: System, id: OperationId, g: GenerationId)
    requires DbInv(s.db, s.hist) && CleanupTarget(s.db.retirements, id, g)
    ensures id in s.db.operations && s.db.operations[id].kind == RetirementOp && s.db.operations[id].candidate == g
    ensures s.db.operations[id].state in {CleaningUp, Completed}
    ensures g in s.db.generations && RetirementRow(s.db.retirements[g], s.db.generations[g])
  {
    assert RetirementOwned(s.db.retirements[g], g, s.db.operations);
    assert OperationOk(s.db.operations[id], id, s.db.operations, s.db.generations, s.db.retirements, s.hist);
  }

  lemma MarkRetiredKept(s: System, id: OperationId, g: GenerationId, owner: OwnerId, fence: nat)
    requires DbInv(s.db, s.hist) && CleanupTarget(s.db.retirements, id, g)
    ensures var r := MarkGenerationRetired(s.db, id, g, owner, fence); r.Committed? ==> Kept(s, r.state, s.hist)
  {
    CleanupFacts(s, id, g);
    var r := MarkGenerationRetired(s.db, id, g, owner, fence);
    if r.Committed? && s.db.retirements[g].state == RetiringRow {
      SameRows(s.db, id, g);
      RetireRow(s, r.state, id, g);
    }
  }

  lemma AuthorizeKept(s: System, id: OperationId, g: GenerationId, owner: OwnerId, fence: nat, token: Token,
                      leaseMs: nat)
    requires DbInv(s.db, s.hist) && CleanupTarget(s.db.retirements, id, g)
    ensures var r := AuthorizePhysicalDeletion(s.db, id, g, owner, fence, token, leaseMs);
      r.Committed? ==> Kept(s, r.state, s.hist) && CleanupTarget(r.state.retirements, id, g)
  {
    CleanupFacts(s, id, g);
    var r := AuthorizePhysicalDeletion(s.db, id, g, owner, fence, token, leaseMs);
    if r.Committed? {
      SameRows(s.db, id, g);
      RetireRow(s, r.state, id, g);
    }
  }

  lemma ConfirmKept(s: System, id: OperationId, g: GenerationId, owner: OwnerId, fence: nat, token: Token)
    requires DbInv(s.db, s.hist) && CleanupTarget(s.db.retirements, id, g)
    ensures var r := ConfirmPhysicalDeletion(s.db, id, g, owner, fence, token);
      r.Committed? ==> Kept(s, r.state, s.hist)
  {
    CleanupFacts(s, id, g);
    var r := ConfirmPhysicalDeletion(s.db, id, g, owner, fence, token);
    if r.Committed? {
      SameRows(s.db, id, g);
      RetireRow(s, r.state, id, g);
    }
  }

  lemma FinalizeRetirementKept(s: System, id: OperationId, g: GenerationId, owner: OwnerId, fence: nat)
    requires DbInv(s.db, s.hist) && CleanupTarget(s.db.retirements, id, g)
    ensures var r := FinalizeRetirement(s.db, id, g, owner, fence); r.Committed? ==> Kept(s, r.state, s.hist)
  {
    CleanupFacts(s, id, g);
    var r := FinalizeRetirement(s.db, id, g, owner, fence);
    if r.Committed? {
      SameRows(s.db, id, g);
      RetireRow(s, r.state, id, g);
    }
  }

  /** Delete-attempt rows are no part of the promotion invariant. */
  lemma AttemptsKept(s: System, attempts: map<AttemptKey, Attempt>)
    requires DbInv(s.db, s.hist)
    ensures Kept(s, s.db.(attempts := attempts), s.hist)
  {}
}
