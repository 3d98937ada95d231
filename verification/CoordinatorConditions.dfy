/**
  When each repository transaction commits and what it writes, said column by
  column over the rows, apart from the transaction functions.
 */
module CoordinatorConditions {
  import opened Wrappers
  import opened CoordinatorDb
  import opened CoordinatorProtocol
  import opened CoordinatorInvariants

  // ------------------------------------------------ operations and leases

  /** The operation is claimed by `owner` under `fence` and the lease has not run out. */
  predicate LiveLease(db: Db, id: OperationId, owner: OwnerId, fence: nat) {
    && id in db.operations && db.operations[id].fence == fence
    && match db.operations[id].lease
       case None => false
       case Some(Lease(holder, expires)) => holder == owner && db.now < expires
  }

  predicate Over(state: OpState) {
    state == RollbackProtected || state == Completed || state == FailedOp
  }

  predicate Leased(db: Db, id: OperationId)
    requires id in db.operations
  {
    match db.operations[id].lease
    case None => false
    case Some(Lease(_, expires)) => db.now <= expires
  }

  predicate MayClaim(db: Db, id: OperationId) {
    id in db.operations && !Over(db.operations[id].state) && !Leased(db, id)
  }

  lemma ClaimExact(db: Db, id: OperationId, owner: OwnerId, leaseMs: nat)
    ensures var r := Claim(db, id, owner, leaseMs);
      && (r.Committed? <==> MayClaim(db, id))
      && (r.Committed? ==> OperationSet(db, r.state, id, db.operations[id].state, Some(Lease(owner, db.now + leaseMs)),
                                        db.operations[id].fence + 1))
  {}

  /** Only these columns of operation `id` are new. */
  predicate OperationSet(db: Db, t: Db, id: OperationId, state: OpState, lease: Option<Lease>, fence: nat) {
    && id in db.operations && t == db.(operations := t.operations)
    && t.operations.Keys == db.operations.Keys
    && (forall other :: other in db.operations && other != id ==> t.operations[other] == db.operations[other])
    && t.operations[id] == Operation(db.operations[id].kind, db.operations[id].candidate, state, lease, fence)
  }

  lemma TransitionExact(db: Db, id: OperationId, owner: OwnerId, fence: nat, from: OpState, to: OpState)
    ensures var r := Transition(db, id, owner, fence, from, to);
      && (r.Committed? <==> LiveLease(db, id, owner, fence) && db.operations[id].state == from)
      && (r.Committed? ==> OperationSet(db, r.state, id, to, None, fence))
  {}

  // ------------------------------------------- requests and generation rows

  /** A request key that is known changes nothing; a new one opens a promotion operation. */
  lemma RequestExact(db: Db, id: OperationId, g: GenerationId)
    ensures var r := Request(db, id, g);
      r.Committed? && r.state.operations.Keys == db.operations.Keys + {id}
      && r.state == db.(operations := r.state.operations)
      && (forall other :: other in db.operations ==> r.state.operations[other] == db.operations[other])
      && (id !in db.operations ==>
            r.state.operations[id] == Operation(PromotionOp, g, RebuildRequested, None, 0))
  {}

  /** A generation that is known stays as it is; a new one is being created, unprotected and not validated. */
  lemma EnsureExact(db: Db, g: GenerationId)
    ensures var r := EnsureGeneration(db, g);
      r.Committed? && r.state.generations.Keys == db.generations.Keys + {g}
      && r.state == db.(generations := r.state.generations)
      && (forall other :: other in db.generations ==> r.state.generations[other] == db.generations[other])
      && (g !in db.generations ==> r.state.generations[g] == Generation(Creating, Unprotected, 1, false, false))
  {}

  lemma SetStateExact(db: Db, g: GenerationId, from: GenState, to: GenState)
    ensures var r := SetGenerationState(db, g, from, to);
      && (r.Committed? <==> StateIs(db.generations, g, from))
      && (r.Committed? ==>
            && r.state == db.(generations := r.state.generations)
            && GenerationSet(db.generations, r.state.generations, g, to, db.generations[g].protection))
  {}

  /** What a worker may report of a generation: nothing of one that left the build, and of a new one only failure. */
  lemma ReportsExact(row: Generation, state: GenState)
    ensures MayReport(row, state) <==>
      || state == row.state
      || (row.state, state) == (Creating, Failed)
      || (row.state in {Loading, CatchingUp, Validating} && state in {Loading, CatchingUp, Validating, Ready, Failed})
  {}

  // ------------------------------------------------------------ promotion

  /** The journal row a preparation adds. */
  predicate JournalAdded(db: Db, t: Db, op: OperationId, from: GenerationId, to: GenerationId, expected: nat) {
    && t == db.(journals := t.journals)
    && t.journals == db.journals + [Journal(op, from, to, Preparing, expected, None)]
  }

  lemma PrepareExact(db: Db, op: OperationId, from: GenerationId, to: GenerationId, expected: nat)
    ensures var r := PreparePromotion(db, op, from, to, expected);
      && (r.Committed? <==> {from, to} <= db.generations.Keys && op in db.operations)
      && (r.Committed? ==> JournalAdded(db, r.state, op, from, to, expected))
  {}

  /** The pointer row still reads what the journal expects. */
  predicate Unmoved(p: Pointer, j: Journal) {
    p.generation == j.from && p.version == j.expected
  }

  /** The journal has moved the pointer already, or still can. */
  predicate MayCas(db: Db, k: nat) {
    k < |db.journals| && (db.journals[k].phase == Preparing ==> Unmoved(db.pointer, db.journals[k]))
  }

  /** What a move writes: the pointer and the journal. */
  predicate Moved(db: Db, t: Db, k: nat) {
    && t == db.(pointer := t.pointer, journals := t.journals) && k < |db.journals|
    && t.pointer == Pointer(db.journals[k].to, Some(db.pointer.generation), db.pointer.version + 1)
    && JournalSet(db.journals, t.journals, k, PointerUpdated, Some(db.pointer.version + 1))
  }

  lemma CasExact(db: Db, k: nat)
    ensures var r := CasPointer(db, k);
      && (r.Committed? <==> MayCas(db, k))
      && (r.Committed? ==> if db.journals[k].phase == Preparing then Moved(db, r.state, k) else r.state == db)
  {}

  /** Only these columns of journal `k` are new. */
  predicate JournalSet(before: seq<Journal>, after: seq<Journal>, k: nat, phase: Phase, resulting: Option<nat>) {
    && k < |before| && |after| == |before|
    && (forall m :: 0 <= m < |before| && m != k ==> after[m] == before[m])
    && after[k] == Journal(before[k].op, before[k].from, before[k].to, phase, before[k].expected, resulting)
  }

  lemma VerifyExact(db: Db, k: nat)
    ensures var r := MarkRouterVerified(db, k);
      && (r.Committed? <==>
            k < |db.journals|
            && (db.journals[k].phase == PointerUpdated || db.journals[k].phase == RouterVerified))
      && (r.Committed? ==>
            && r.state == db.(journals := r.state.journals)
            && JournalSet(db.journals, r.state.journals, k, RouterVerified, db.journals[k].resulting))
  {}

  predicate StateIs(gens: Gens, g: GenerationId, state: GenState) { g in gens && gens[g].state == state }

  /** The promotion has finished, or its two rows are ready to be swapped. */
  predicate MayFinalize(db: Db, k: nat) {
    && k < |db.journals|
    && (db.journals[k].phase == GenerationFinalized
        || (&& db.journals[k].phase == RouterVerified
            && StateIs(db.generations, db.journals[k].from, Serving)
            && StateIs(db.generations, db.journals[k].to, Ready)))
  }

  predicate RowSet(before: Generation, after: Generation, state: GenState, protection: Protection) {
    after == Generation(state, protection, after.version, before.valid, before.syncActive)
    && after.version > before.version
  }

  /**
    Service is handed over: the source is kept for rollback, the target
    serves, whoever was protected before is not any more, and no other row is
    written.
   */
  predicate HandedOver(before: Gens, after: Gens, from: GenerationId, to: GenerationId) {
    && after.Keys == before.Keys && from in before && to in before && from != to
    && RowSet(before[from], after[from], Retiring, RollbackProtection)
    && RowSet(before[to], after[to], Serving, ServingProtected)
    && (forall g :: g in before && g != from && g != to ==>
          if before[g].protection == ServingProtected || before[g].protection == RollbackProtection
          then RowSet(before[g], after[g], before[g].state, Unprotected)
          else after[g] == before[g])
  }

  /** What a finalisation writes: the generation rows and the journal. */
  predicate Finalized(db: Db, t: Db, k: nat) {
    && t == db.(generations := t.generations, journals := t.journals) && k < |db.journals|
    && HandedOver(db.generations, t.generations, db.journals[k].from, db.journals[k].to)
    && JournalSet(db.journals, t.journals, k, GenerationFinalized, db.journals[k].resulting)
  }

  lemma FinalizeExact(db: Db, k: nat)
    ensures var r := FinalizePromotion(db, k);
      && (r.Committed? <==> MayFinalize(db, k))
      && (r.Committed? ==> if db.journals[k].phase == RouterVerified then Finalized(db, r.state, k)
                           else r.state == db)
  {
    if k < |db.journals| && db.journals[k].phase == RouterVerified { Swapped(db, k); }
  }

  lemma Swapped(db: Db, k: nat)
    requires k < |db.journals| && db.journals[k].phase == RouterVerified
    ensures FinalizePromotion(db, k).Committed? <==> MayFinalize(db, k)
    ensures FinalizePromotion(db, k).Committed? ==>
      HandedOver(db.generations, FinalizePromotion(db, k).state.generations, db.journals[k].from, db.journals[k].to)
  {}

  /** No promotion from or to the generation is unfinished. */
  ghost predicate NoneInFlight(db: Db, g: GenerationId) {
    forall j :: j in db.journals && (j.from == g || j.to == g) ==> j.phase == GenerationFinalized
  }

  lemma NoneInFlightExact(db: Db, g: GenerationId)
    ensures PromotionIncomplete(db, g) <==> !NoneInFlight(db, g)
  {
    if !NoneInFlight(db, g) {
      var j :| j in db.journals && (j.from == g || j.to == g) && j.phase != GenerationFinalized;
      var k :| 0 <= k < |db.journals| && db.journals[k] == j;
    }
  }

  /** The caller saw the pointer as it is, and the rollback generation is kept for nothing but a rollback. */
  ghost predicate MayRelease(db: Db, serving: GenerationId, g: GenerationId, version: nat) {
    && db.pointer == Pointer(serving, Some(g), version)
    && g in db.generations && db.generations[g].protection == RollbackProtection
    && db.generations[g].state != Serving
    && NoneInFlight(db, g)
    && (g in db.retirements ==> db.retirements[g].state == WaitingEligibility)
  }

  /** Only this generation row is new. */
  predicate GenerationSet(before: Gens, after: Gens, g: GenerationId, state: GenState, protection: Protection) {
    && g in before && after.Keys == before.Keys
    && (forall other :: other in before && other != g ==> after[other] == before[other])
    && RowSet(before[g], after[g], state, protection)
  }

  predicate ReleasedRows(db: Db, t: Db, g: GenerationId) {
    && t == db.(pointer := t.pointer, generations := t.generations) && g in db.generations
    && t.pointer == Pointer(db.pointer.generation, None, db.pointer.version + 1)
    && GenerationSet(db.generations, t.generations, g, db.generations[g].state, Unprotected)
  }

  lemma ReleaseExact(db: Db, serving: GenerationId, g: GenerationId, version: nat)
    ensures var r := ReleaseRollback(db, serving, g, version);
      && (r.Committed? <==> MayRelease(db, serving, g, version))
      && (r.Committed? ==> ReleasedRows(db, r.state, g))
  {
    NoneInFlightExact(db, g);
  }

  // ----------------------------------------------------------- retirement

  /** The rows of a new retirement, waiting at the versions it was scheduled at. */
  predicate ScheduledRows(db: Db, t: Db, id: OperationId, g: GenerationId) {
    && t == db.(operations := t.operations, retirements := t.retirements) && g in db.generations
    && t.operations == db.operations[id := Operation(RetirementOp, g, RetirementWaiting, None, 0)]
    && t.retirements == db.retirements[g := Retirement(id, WaitingEligibility, Some(db.pointer.version),
                                                       Some(db.generations[g].version), 0, None)]
  }

  lemma ScheduleExact(db: Db, id: OperationId, g: GenerationId)
    ensures var r := ScheduleCleanup(db, id, g);
      && (r.Committed? <==> id in db.operations || (g in db.generations && g !in db.retirements))
      && (r.Committed? ==> if id in db.operations then r.state == db else ScheduledRows(db, r.state, id, g))
  {}

  lemma BeginExact(db: Db, id: OperationId, g: GenerationId)
    ensures var r := BeginRetirement(db, id, g);
      && (r.Committed? <==> g in db.retirements || g in db.generations)
      && (r.Committed? ==>
            r.state == if g in db.retirements then db
                       else db.(retirements := db.retirements[g := Retirement(id, WaitingEligibility, None, None, 0,
                                                                              None)]))
  {}

  /**
    Nothing uses the generation: it is out of service and unprotected, its sync
    is at rest, the pointer does not name it, no promotion of it is unfinished
    and no operation other than `id` is working on it.
   */
  ghost predicate FreeToRetire(db: Db, g: GenerationId, id: OperationId) {
    && g in db.generations
    && var row := db.generations[g];
    && (row.state == Retiring || row.state == Retired || row.state == Failed)
    && (row.protection == Unprotected || row.protection == RetirementInProgress)
    && !row.syncActive
    && db.pointer.generation != g && db.pointer.previous != Some(g)
    && NoneInFlight(db, g)
    && (forall other :: other in db.operations && other != id && db.operations[other].candidate == g ==>
          Over(db.operations[other].state))
  }

  lemma FreeExact(db: Db, g: GenerationId, id: OperationId)
    ensures Eligible(db, g, id) <==> FreeToRetire(db, g, id)
  {
    NoneInFlightExact(db, g);
  }

  /** The lease is live and the operation waits for its generation to become free. */
  predicate Waiting(db: Db, id: OperationId, owner: OwnerId, fence: nat) {
    LiveLease(db, id, owner, fence) && db.operations[id].state == RetirementWaiting
  }

  predicate Cleaning(db: Db, id: OperationId, owner: OwnerId, fence: nat) {
    LiveLease(db, id, owner, fence) && db.operations[id].state == CleaningUp
  }

  lemma WaitingUnprotected(db: Db, hist: History, id: OperationId)
    requires DbInv(db, hist) && id in db.operations && db.operations[id].state == RetirementWaiting
    requires FreeToRetire(db, db.operations[id].candidate, id)
    ensures db.generations[db.operations[id].candidate].protection == Unprotected
  {
    assert OperationOk(db.operations[id], id, db.operations, db.generations, db.retirements, hist);
  }

  /**
    In a database that satisfies the invariant the check commits for the live
    lease alone, and it reserves the generation exactly when nothing uses it.
   */
  lemma ReevaluateExact(db: Db, hist: History, id: OperationId, owner: OwnerId, fence: nat)
    requires DbInv(db, hist)
    ensures var r := Reevaluate(db, id, owner, fence);
      && (r.Committed? <==> Waiting(db, id, owner, fence))
      && (r.Committed? ==> id in r.state.operations
                           && r.state.operations[id].state ==
                              if FreeToRetire(db, db.operations[id].candidate, id) then CleaningUp
                              else RetirementWaiting)
  {
    if Waiting(db, id, owner, fence) {
      FreeExact(db, db.operations[id].candidate, id);
      if FreeToRetire(db, db.operations[id].candidate, id) { WaitingUnprotected(db, hist, id); }
    }
  }

  /** Only these columns of the retirement row of `g` are new. */
  predicate RetirementSet(before: Rets, after: Rets, g: GenerationId, row: Retirement) {
    && g in before && after.Keys == before.Keys && after[g] == row
    && forall other :: other in before && other != g ==> after[other] == before[other]
  }

  /** What a reservation writes: the generation, its one retirement row and the operation that now cleans up. */
  predicate ReservedFor(db: Db, t: Db, id: OperationId, fence: nat)
    requires id in db.operations
  {
    var g := db.operations[id].candidate;
    && t == db.(operations := t.operations, generations := t.generations, retirements := t.retirements)
    && OperationSet(t.(operations := db.operations), t, id, CleaningUp, None, fence)
    && GenerationSet(db.generations, t.generations, g, Retiring, RetirementInProgress)
    && g in db.retirements
    && RetirementSet(db.retirements, t.retirements, g,
                     Retirement(id, RetiringRow, Some(db.pointer.version), Some(t.generations[g].version), fence,
                                db.retirements[g].token))
  }

  lemma WaitingRow(db: Db, hist: History, id: OperationId)
    requires DbInv(db, hist) && id in db.operations && db.operations[id].state == RetirementWaiting
    ensures OnlyRetirementOf(db, id, db.operations[id].candidate)
    ensures db.retirements[db.operations[id].candidate].state == WaitingEligibility
  {
    assert OperationOk(db.operations[id], id, db.operations, db.generations, db.retirements, hist);
    forall x | x in db.retirements && db.retirements[x].op == id ensures x == db.operations[id].candidate {
      assert RetirementOwned(db.retirements[x], x, db.operations);
    }
  }

  /** What a check writes: the reservation, or nothing but giving up the claim. */
  predicate Checked(db: Db, t: Db, id: OperationId, fence: nat) {
    && id in db.operations && id in t.operations
    && (t.operations[id].state == CleaningUp ==> ReservedFor(db, t, id, fence))
    && (t.operations[id].state != CleaningUp ==> OperationSet(db, t, id, RetirementWaiting, None, fence))
  }

  lemma CheckedWrites(db: Db, id: OperationId, owner: OwnerId, fence: nat)
    requires Reevaluate(db, id, owner, fence).Committed?
    requires OnlyRetirementOf(db, id, db.operations[id].candidate)
    requires db.retirements[db.operations[id].candidate].state == WaitingEligibility
    ensures Checked(db, Reevaluate(db, id, owner, fence).state, id, fence)
  {
    if !Eligible(db, db.operations[id].candidate, id) {
      assert BackToWaiting(db.retirements, id) == db.retirements;
    }
  }

  lemma ReevaluateWrites(db: Db, hist: History, id: OperationId, owner: OwnerId, fence: nat)
    requires DbInv(db, hist) && Reevaluate(db, id, owner, fence).Committed?
    ensures Checked(db, Reevaluate(db, id, owner, fence).state, id, fence)
  {
    WaitingRow(db, hist, id);
    CheckedWrites(db, id, owner, fence);
  }

  /** One retirement row belongs to the operation, that of `g`. */
  ghost predicate OneRow(db: Db, id: OperationId, g: GenerationId) {
    (set x | x in db.retirements && db.retirements[x].op == id) == {g}
  }

  lemma OneRowExact(db: Db, id: OperationId, g: GenerationId)
    ensures OnlyRetirementOf(db, id, g) <==> OneRow(db, id, g)
  {
    var rows := set x | x in db.retirements && db.retirements[x].op == id;
    if OneRow(db, id, g) {
      assert g in rows;
      forall other | other in db.retirements && db.retirements[other].op == id ensures other == g {
        assert other in rows;
      }
    }
  }

  /** The generation can be retired under the versions the reservation was bound to. */
  predicate MayMarkRetired(db: Db, g: GenerationId) {
    g in db.retirements &&
    var row := db.retirements[g];
    || row.state == LogicallyRetired || row.state == PhysicalDeletePending
    || (&& row.state == RetiringRow && StateIs(db.generations, g, Retiring)
        && db.generations[g].protection == RetirementInProgress
        && row.generationVersion == Some(db.generations[g].version))
  }

  predicate LogicallyRetiredRows(db: Db, t: Db, id: OperationId, g: GenerationId) {
    && t == db.(generations := t.generations, retirements := t.retirements)
    && GenerationSet(db.generations, t.generations, g, Retired, RetirementInProgress)
    && g in db.retirements
    && RetirementSet(db.retirements, t.retirements, g,
                     Retirement(id, LogicallyRetired, db.retirements[g].pointerVersion,
                                Some(t.generations[g].version), db.retirements[g].fence, db.retirements[g].token))
  }

  lemma MarkRetiredExact(db: Db, id: OperationId, g: GenerationId, owner: OwnerId, fence: nat)
    ensures var r := MarkGenerationRetired(db, id, g, owner, fence);
      && (r.Committed? <==> Cleaning(db, id, owner, fence) && OneRow(db, id, g) && MayMarkRetired(db, g))
      && (r.Committed? ==> if db.retirements[g].state == RetiringRow then LogicallyRetiredRows(db, r.state, id, g)
                           else r.state == db)
  {
    OneRowExact(db, id, g);
  }

  /**
    Deletion authority may be granted: the live lease on a cleanup whose one
    retirement row is past logical retirement, over a generation that nothing
    uses and that is at the versions the row was bound to.
   */
  ghost predicate MayAuthorize(db: Db, id: OperationId, g: GenerationId, owner: OwnerId, fence: nat) {
    && Cleaning(db, id, owner, fence) && OneRow(db, id, g) && g in db.retirements
    && FreeToRetire(db, g, id)
    && var row := db.retirements[g];
    && row.pointerVersion == Some(db.pointer.version)
    && row.generationVersion == Some(db.generations[g].version)
    && (row.state == LogicallyRetired || row.state == PhysicalDeletePending)
  }

  lemma AuthorizeExact(db: Db, id: OperationId, g: GenerationId, owner: OwnerId, fence: nat, token: Token,
                       leaseMs: nat)
    ensures AuthorizePhysicalDeletion(db, id, g, owner, fence, token, leaseMs).Committed? <==>
            MayAuthorize(db, id, g, owner, fence)
  {
    OneRowExact(db, id, g);
    FreeExact(db, g, id);
  }

  /** The later of the lease there is and a whole lease from now. */
  predicate Extended(before: Option<Lease>, after: Option<Lease>, owner: OwnerId, until: nat) {
    && before.Some? && after.Some? && after.value.owner == owner
    && after.value.expires >= before.value.expires && after.value.expires >= until
    && after.value.expires in {before.value.expires, until}
  }

  /** A pending deletion asked for again under its own fence keeps its token; every other one gets the new token. */
  predicate TokenFor(row: Retirement, fence: nat, token: Token, granted: Option<Token>) {
    if row.state == PhysicalDeletePending && row.fence == fence && row.token != None
    then granted == row.token else granted == Some(token)
  }

  /** What a grant writes: the lease of the operation and the retirement row. */
  predicate Granted(db: Db, t: Db, id: OperationId, g: GenerationId, owner: OwnerId, fence: nat, token: Token,
                    leaseMs: nat)
  {
    && t == db.(operations := t.operations, retirements := t.retirements)
    && id in db.operations && id in t.operations
    && OperationSet(t.(operations := db.operations), t, id, CleaningUp, t.operations[id].lease, fence)
    && Extended(db.operations[id].lease, t.operations[id].lease, owner, db.now + leaseMs)
    && g in db.retirements && g in t.retirements
    && TokenFor(db.retirements[g], fence, token, t.retirements[g].token)
    && RetirementSet(db.retirements, t.retirements, g,
                     Retirement(id, PhysicalDeletePending, db.retirements[g].pointerVersion,
                                db.retirements[g].generationVersion, fence, t.retirements[g].token))
  }

  lemma AuthorizeWrites(db: Db, id: OperationId, g: GenerationId, owner: OwnerId, fence: nat, token: Token,
                        leaseMs: nat)
    requires AuthorizePhysicalDeletion(db, id, g, owner, fence, token, leaseMs).Committed?
    ensures Granted(db, AuthorizePhysicalDeletion(db, id, g, owner, fence, token, leaseMs).state, id, g, owner, fence,
                    token, leaseMs)
  {}

  /** The live lease on an operation whose one retirement row says the index is gone. */
  ghost predicate MayFinish(db: Db, id: OperationId, g: GenerationId, owner: OwnerId, fence: nat) {
    && LiveLease(db, id, owner, fence) && OneRow(db, id, g)
    && g in db.retirements && db.retirements[g].state == PhysicallyDeleted
  }

  lemma FinishExact(db: Db, id: OperationId, g: GenerationId, owner: OwnerId, fence: nat)
    ensures FinalizeRetirement(db, id, g, owner, fence).Committed? <==> MayFinish(db, id, g, owner, fence)
  {
    OneRowExact(db, id, g);
  }

  /** What a finish writes: the reservation is lifted and the retirement row closed. */
  predicate FinishedRows(db: Db, t: Db, id: OperationId, g: GenerationId) {
    && t == db.(generations := t.generations, retirements := t.retirements)
    && g in db.generations && GenerationSet(db.generations, t.generations, g, db.generations[g].state, Unprotected)
    && g in db.retirements
    && RetirementSet(db.retirements, t.retirements, g,
                     Retirement(id, MetadataFinalized, db.retirements[g].pointerVersion,
                                db.retirements[g].generationVersion, db.retirements[g].fence,
                                db.retirements[g].token))
  }

  lemma FinishWrites(db: Db, id: OperationId, g: GenerationId, owner: OwnerId, fence: nat)
    requires FinalizeRetirement(db, id, g, owner, fence).Committed?
    requires g in db.generations && db.generations[g].protection == RetirementInProgress
    ensures FinishedRows(db, FinalizeRetirement(db, id, g, owner, fence).state, id, g)
  {}

  // ------------------------------------------------------ delete attempts

  /** The live lease on an operation whose retirement row of `g` grants deletion under this token. */
  predicate MayDelete(db: Db, id: OperationId, g: GenerationId, owner: OwnerId, fence: nat, token: Token) {
    && LiveLease(db, id, owner, fence) && g in db.retirements
    && db.retirements[g] == Retirement(id, PhysicalDeletePending, db.retirements[g].pointerVersion,
                                       db.retirements[g].generationVersion, fence, Some(token))
  }

  lemma MayDeleteExact(db: Db, id: OperationId, g: GenerationId, owner: OwnerId, fence: nat, token: Token)
    ensures Authorized(db, id, g, owner, fence, token) <==> MayDelete(db, id, g, owner, fence, token)
  {}

  /** A row for every planned resource that has none yet; the rows there are stay as they are. */
  predicate PlanRecorded(before: map<AttemptKey, Attempt>, after: map<AttemptKey, Attempt>, id: OperationId, fence: nat,
                         token: Token, plan: map<Role, Attempt>)
  {
    && (forall key :: key in before ==> key in after && after[key] == before[key])
    && (forall key :: key in after && key !in before ==>
          key == AttemptKey(id, fence, token, key.role) && key.role in plan
          && after[key] == Attempt(plan[key.role].uid, plan[key.role].resourceVersion, Planned))
    && (forall role :: role in plan ==> AttemptKey(id, fence, token, role) in after)
  }

  lemma PlanExact(db: Db, id: OperationId, g: GenerationId, owner: OwnerId, fence: nat, token: Token,
                  plan: map<Role, Attempt>)
    ensures var r := RecordDeletionPlan(db, id, g, owner, fence, token, plan);
      && (r.Committed? <==> MayDelete(db, id, g, owner, fence, token))
      && (r.Committed? ==>
            r.state == db.(attempts := r.state.attempts)
            && PlanRecorded(db.attempts, r.state.attempts, id, fence, token, plan))
  {}

  /** The row of this resource, under this very authority, in one of the states to come from. */
  predicate Due(db: Db, key: AttemptKey, id: OperationId, fence: nat, token: Token, role: Role, uid: nat,
                from: set<AttemptState>)
  {
    key == AttemptKey(id, fence, token, role) && key in db.attempts && db.attempts[key].uid == uid
    && db.attempts[key].state in from
  }

  /** One resource's row is moved under the live lease, exactly if its uid and its state are the expected ones. */
  lemma AttemptExact(db: Db, id: OperationId, owner: OwnerId, fence: nat, token: Token, role: Role, uid: nat,
                     from: set<AttemptState>, to: AttemptState)
    ensures var key := AttemptKey(id, fence, token, role);
      var r := SetAttemptState(db, id, owner, fence, token, Some(role), Some(uid), from, to);
      && (r.Committed? <==> LiveLease(db, id, owner, fence) && Due(db, key, id, fence, token, role, uid, from))
      && (r.Committed? ==> r.state == db.(attempts := db.attempts[key := db.attempts[key].(state := to)]))
  {
    var key := AttemptKey(id, fence, token, role);
    var r := SetAttemptState(db, id, owner, fence, token, Some(role), Some(uid), from, to);
    assert forall k :: k in db.attempts && Matches(db, k, id, fence, token, Some(role), Some(uid), from) ==> k == key;
    if Due(db, key, id, fence, token, role, uid, from) {
      assert Matches(db, key, id, fence, token, Some(role), Some(uid), from);
      if r.Committed? { assert r.state.attempts == db.attempts[key := db.attempts[key].(state := to)]; }
    }
  }

  /** The epoch's rows that are not past the marker are marked together, if there is one. */
  lemma FenceExact(db: Db, id: OperationId, owner: OwnerId, fence: nat, token: Token)
    ensures var r := SetAttemptState(db, id, owner, fence, token, None, None, {Planned, FenceMarked}, FenceMarked);
      && (r.Committed? <==>
            && LiveLease(db, id, owner, fence)
            && exists role, uid :: Due(db, AttemptKey(id, fence, token, role), id, fence, token, role, uid,
                                       {Planned, FenceMarked}))
      && (r.Committed? ==>
            && r.state == db.(attempts := r.state.attempts) && r.state.attempts.Keys == db.attempts.Keys
            && forall key :: key in db.attempts ==>
                 r.state.attempts[key] ==
                 if Due(db, key, id, fence, token, key.role, db.attempts[key].uid, {Planned, FenceMarked})
                 then db.attempts[key].(state := FenceMarked) else db.attempts[key])
  {
    forall key | key in db.attempts
      ensures Matches(db, key, id, fence, token, None, None, {Planned, FenceMarked})
         <==> Due(db, key, id, fence, token, key.role, db.attempts[key].uid, {Planned, FenceMarked})
    {}
  }

  /** The roles whose absence is on record under the epoch. */
  function AbsentRoles(db: Db, id: OperationId, fence: nat, token: Token): set<Role> {
    set key | key in db.attempts && key.op == id && key.fence == fence && key.token == token
              && db.attempts[key].state == AbsentConfirmed :: key.role
  }

  lemma AbsentRolesExact(db: Db, id: OperationId, fence: nat, token: Token)
    ensures AllAbsent(db.attempts, id, fence, token) <==> AbsentRoles(db, id, fence, token) == {Workload, Pvc, Service}
  {
    var roles := AbsentRoles(db, id, fence, token);
    forall role: Role
      ensures role in roles <==> AttemptKey(id, fence, token, role) in db.attempts
                                 && db.attempts[AttemptKey(id, fence, token, role)].state == AbsentConfirmed
    {
      if role in roles {
        var key :| key in db.attempts && key.op == id && key.fence == fence && key.token == token
                && db.attempts[key].state == AbsentConfirmed && key.role == role;
        assert key == AttemptKey(id, fence, token, role);
      }
    }
    if roles == {Workload, Pvc, Service} {
      forall role: Role ensures role in roles { match role case Workload => case Pvc => case Service => }
    }
    if AllAbsent(db.attempts, id, fence, token) {
      forall role | role in roles ensures role in {Workload, Pvc, Service} {
        match role case Workload => case Pvc => case Service =>
      }
    }
  }

  /** All three absences are on record under the authority that is asked about. */
  lemma ConfirmExact(db: Db, id: OperationId, g: GenerationId, owner: OwnerId, fence: nat, token: Token)
    ensures var r := ConfirmPhysicalDeletion(db, id, g, owner, fence, token);
      && (r.Committed? <==>
            MayDelete(db, id, g, owner, fence, token)
            && AbsentRoles(db, id, fence, token) == {Workload, Pvc, Service})
      && (r.Committed? ==>
            r.state == db.(retirements := db.retirements[g := db.retirements[g].(state := PhysicallyDeleted)]))
  {
    AbsentRolesExact(db, id, fence, token);
  }
}
