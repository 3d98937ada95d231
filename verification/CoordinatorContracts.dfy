/** What each repository transaction means for its caller in a database that satisfies the invariant. */
module CoordinatorContracts {
  import opened Wrappers
  import opened CoordinatorDb
  import opened CoordinatorProtocol
  import opened CoordinatorInvariants
  import opened CoordinatorConditions
  import opened CoordinatorPreservation
  import opened CoordinatorRetirementSteps
  import opened CoordinatorPromotionSteps
  import opened CoordinatorTheorems

  function Stored(db: Db, hist: History): System { System(db, map[], hist) }

  /** The one SERVING generation. */
  ghost function Server(hist: History): GenerationId
    requires hist.finalized < |hist.installs|
  {
    hist.installs[hist.finalized]
  }

  ghost predicate OnlyServer(gens: Gens, g: GenerationId) {
    forall x :: x in gens && gens[x].state == Serving <==> x == g
  }

  lemma ServesOne(db: Db, hist: History)
    requires DbInv(db, hist)
    ensures OnlyServer(db.generations, Server(hist))
  {
    assert InstalledRow(db.generations[Server(hist)], hist.finalized, hist.finalized);
    forall x | x in db.generations && db.generations[x].state == Serving ensures x == Server(hist) {
      ServingIsFinalized(db, hist, x);
    }
  }

  ghost predicate NobodyHolds(db: Db, id: OperationId) {
    forall owner, fence :: !Holds(db, id, owner, fence)
  }

  ghost predicate OnlyHolder(db: Db, id: OperationId, owner: OwnerId, fence: nat) {
    forall o, f :: Holds(db, id, o, f) ==> o == owner && f == fence
  }

  // ------------------------------------------------ operations and leases

  lemma ClaimKept(db: Db, hist: History, id: OperationId, owner: OwnerId, leaseMs: nat)
    requires DbInv(db, hist)
    ensures var r := Claim(db, id, owner, leaseMs); r.Committed? ==> DbInv(r.state, hist)
  {
    var r := Claim(db, id, owner, leaseMs);
    if r.Committed? {
      assert OperationOk(db.operations[id], id, db.operations, db.generations, db.retirements, hist);
      OperationRow(Stored(db, hist), r.state, id);
    }
  }

  /**
    A claim finds the operation held by nobody and leaves it to its new owner
    alone, under a fence never used before.
   */
  ghost predicate TakenBy(db: Db, t: Db, id: OperationId, owner: OwnerId, leaseMs: nat)
    requires id in db.operations
  {
    && NobodyHolds(db, id)
    && OperationSet(db, t, id, db.operations[id].state, Some(Lease(owner, db.now + leaseMs)),
                    db.operations[id].fence + 1)
    && OnlyHolder(t, id, owner, db.operations[id].fence + 1)
    && (leaseMs > 0 ==> LiveLease(t, id, owner, db.operations[id].fence + 1))
  }

  lemma ClaimExcludes(db: Db, id: OperationId, owner: OwnerId, leaseMs: nat)
    ensures var r := Claim(db, id, owner, leaseMs);
      && (r.Committed? <==> MayClaim(db, id))
      && (r.Committed? ==> id in db.operations && TakenBy(db, r.state, id, owner, leaseMs))
  {
    ClaimExact(db, id, owner, leaseMs);
  }

  /** The row an operation moves to fits the state of its generation and retirement. */
  predicate FitsRow(db: Db, hist: History, id: OperationId) {
    id in db.operations && OperationOk(db.operations[id], id, db.operations, db.generations, db.retirements, hist)
  }

  lemma TransitionKeptIff(db: Db, hist: History, id: OperationId, owner: OwnerId, fence: nat, from: OpState,
                          to: OpState)
    requires DbInv(db, hist)
    ensures var r := Transition(db, id, owner, fence, from, to);
      r.Committed? ==> (DbInv(r.state, hist) <==> FitsRow(r.state, hist, id))
  {
    var r := Transition(db, id, owner, fence, from, to);
    if r.Committed? && FitsRow(r.state, hist, id) { OperationRow(Stored(db, hist), r.state, id); }
  }

  // ------------------------------------------------------------ promotion

  /**
    The operation owns the target, the target has been READY, and the expected
    version is not from before an install of it.
   */
  predicate MayPrepare(db: Db, hist: History, op: OperationId, to: GenerationId, expected: nat) {
    && Owns(db.operations, hist.creator, op) && db.operations[op].kind == PromotionOp
    && db.operations[op].candidate == to
    && Promotable(db.generations, hist.installs, to)
    && expected <= db.pointer.version && (to in hist.installs ==> expected < db.pointer.version)
  }

  lemma PrepareKeptIff(db: Db, hist: History, op: OperationId, from: GenerationId, to: GenerationId, expected: nat)
    requires DbInv(db, hist)
    ensures var r := PreparePromotion(db, op, from, to, expected);
      r.Committed? ==> (DbInv(r.state, hist) <==> MayPrepare(db, hist, op, to, expected))
  {
    var r := PreparePromotion(db, op, from, to, expected);
    if r.Committed? {
      if MayPrepare(db, hist, op, to, expected) { PrepareKept(Stored(db, hist), op, from, expected); }
      if DbInv(r.state, hist) { PreparedMay(r.state, hist, |db.journals|); }
    }
  }

  lemma PreparedMay(db: Db, hist: History, k: nat)
    requires DbInv(db, hist) && k < |db.journals| && db.journals[k].phase == Preparing
    ensures MayPrepare(db, hist, db.journals[k].op, db.journals[k].to, db.journals[k].expected)
  {
    assert JournalOwned(db.operations, db.generations, hist, db.journals[k]);
    assert JournalSlot(db.pointer.version, hist, db.journals[k], k);
  }

  /** The journal is about to move the pointer. */
  predicate Moving(db: Db, k: nat) {
    k < |db.journals| && db.journals[k].phase == Preparing && CasPointer(db, k).Committed?
  }

  function CasHistory(db: Db, hist: History, k: nat): History {
    if Moving(db, k) then Installed(hist, db.journals, k) else hist
  }

  lemma CasStays(db: Db, hist: History, k: nat)
    requires DbInv(db, hist)
    ensures var r := CasPointer(db, k); r.Committed? ==> DbInv(r.state, CasHistory(db, hist, k))
  {
    CasKept(Stored(db, hist), k);
  }

  /** Every other journal prepared by pointer version `version` has lost. */
  ghost predicate Beaten(db: Db, k: nat, version: nat) {
    forall m :: 0 <= m < |db.journals| && m != k && db.journals[m].expected <= version ==> !Moving(db, m)
  }

  /** One compare-and-set wins a pointer version: it installs a generation never named before, and every rival fails. */
  lemma CasBeats(db: Db, hist: History, k: nat)
    requires DbInv(db, hist) && Moving(db, k)
    ensures db.journals[k].to !in hist.installs
    ensures Beaten(CasPointer(db, k).state, k, db.pointer.version)
  {
    CasTarget(db, hist, k);
  }

  /** The journal is about to hand service over. */
  predicate Finishing(db: Db, k: nat) {
    k < |db.journals| && db.journals[k].phase == RouterVerified && FinalizePromotion(db, k).Committed?
  }

  function FinalHistory(db: Db, hist: History, k: nat): History {
    if Finishing(db, k) then hist.(finalized := hist.finalized + 1) else hist
  }

  lemma FinalizeStays(db: Db, hist: History, k: nat)
    requires DbInv(db, hist)
    ensures var r := FinalizePromotion(db, k); r.Committed? ==> DbInv(r.state, FinalHistory(db, hist, k))
  {
    FinalizeKept(Stored(db, hist), k);
  }

  lemma NotFinishing(db: Db, k: nat)
    requires !Finishing(db, k) && FinalizePromotion(db, k).Committed?
    ensures FinalizePromotion(db, k).state == db
  {}

  /** Finalisation hands service over from the one serving generation to the journal's target. */
  lemma FinalizeServes(db: Db, hist: History, k: nat)
    requires DbInv(db, hist) && Finishing(db, k)
    ensures Server(hist) == db.journals[k].from
    ensures FinalHistory(db, hist, k).finalized < |hist.installs|
    ensures Server(FinalHistory(db, hist, k)) == db.journals[k].to
    ensures var t := FinalState(db, k);
      k < |t.journals| && t.journals[k].from == db.journals[k].from && t.journals[k].to == db.journals[k].to
  {
    FinalRows(db, k);
    FinalSlot(db, hist, k);
  }

  function FinalState(db: Db, k: nat): Db {
    if Finishing(db, k) then FinalizePromotion(db, k).state else db
  }

  lemma FinalizeMeans(db: Db, hist: History, k: nat)
    requires DbInv(db, hist)
    ensures FinalizePromotion(db, k).Committed? ==> FinalState(db, k) == FinalizePromotion(db, k).state
    ensures DbInv(FinalState(db, k), FinalHistory(db, hist, k)) && FinalState(db, k).pointer == db.pointer
  {
    FinalizeStays(db, hist, k);
    if !Finishing(db, k) && FinalizePromotion(db, k).Committed? { NotFinishing(db, k); }
  }

  lemma ReleaseStays(db: Db, hist: History, serving: GenerationId, g: GenerationId, version: nat)
    requires DbInv(db, hist)
    ensures var r := ReleaseRollback(db, serving, g, version); r.Committed? ==> DbInv(r.state, hist)
  {
    ReleaseKept(Stored(db, hist), serving, g, version);
  }

  /** A release happens only while nothing is in flight, and leaves no way back anywhere. */
  lemma ReleaseClosesWayBack(db: Db, hist: History, serving: GenerationId, g: GenerationId, version: nat)
    requires DbInv(db, hist) && ReleaseRollback(db, serving, g, version).Committed?
    ensures hist.finalized + 1 == |hist.installs| && serving == Server(hist)
    ensures NoRollback(ReleaseRollback(db, serving, g, version).state.generations)
  {
    assert ProtectionOk(db.generations[g], g, hist.installs, hist.finalized);
    ReleaseStays(db, hist, serving, g, version);
  }

  // ----------------------------------------------------------- retirement

  /** Out of service under the retirement protection. */
  predicate Reserved(db: Db, g: GenerationId) {
    g in db.generations && db.generations[g].protection == RetirementInProgress && OutOfService(db, g)
  }

  lemma ReservedByProtection(db: Db, hist: History, g: GenerationId)
    requires DbInv(db, hist) && g in db.generations && db.generations[g].protection == RetirementInProgress
    ensures Reserved(db, g)
  {
    assert ProtectionOk(db.generations[g], g, hist.installs, hist.finalized);
    RetiredOutOfService(db, hist, g);
  }

  lemma ReservedByRow(db: Db, hist: History, g: GenerationId)
    requires DbInv(db, hist) && g in db.retirements
    requires db.retirements[g].state !in {WaitingEligibility, MetadataFinalized}
    ensures Reserved(db, g)
  {
    assert RetirementRow(db.retirements[g], db.generations[g]);
    ReservedByProtection(db, hist, g);
  }

  lemma ReevaluateStays(db: Db, hist: History, id: OperationId, owner: OwnerId, fence: nat)
    requires DbInv(db, hist)
    ensures var r := Reevaluate(db, id, owner, fence); r.Committed? ==> DbInv(r.state, hist)
  {
    ReevaluateKept(Stored(db, hist), id, owner, fence);
  }

  lemma CheckedReserves(db: Db, t: Db, hist: History, id: OperationId, fence: nat)
    requires DbInv(t, hist) && Checked(db, t, id, fence)
    ensures t.operations[id].state == CleaningUp ==> Reserved(t, db.operations[id].candidate)
  {
    if t.operations[id].state == CleaningUp { ReservedByProtection(t, hist, db.operations[id].candidate); }
  }

  lemma ReevaluateReserves(db: Db, hist: History, id: OperationId, owner: OwnerId, fence: nat)
    requires DbInv(db, hist) && Reevaluate(db, id, owner, fence).Committed?
    ensures var t := Reevaluate(db, id, owner, fence).state;
      id in db.operations && id in t.operations && Checked(db, t, id, fence)
      && (t.operations[id].state == CleaningUp ==> Reserved(t, db.operations[id].candidate))
  {
    ReevaluateStays(db, hist, id, owner, fence);
    ReevaluateWrites(db, hist, id, owner, fence);
    CheckedReserves(db, Reevaluate(db, id, owner, fence).state, hist, id, fence);
  }

  lemma MarkRetiredStays(db: Db, hist: History, id: OperationId, g: GenerationId, owner: OwnerId, fence: nat)
    requires DbInv(db, hist)
    ensures var r := MarkGenerationRetired(db, id, g, owner, fence);
      r.Committed? ==> DbInv(r.state, hist) && Reserved(r.state, g)
  {
    var r := MarkGenerationRetired(db, id, g, owner, fence);
    if r.Committed? {
      MarkRetiredKept(Stored(db, hist), id, g, owner, fence);
      ReservedByRow(r.state, hist, g);
    }
  }

  lemma AuthorizeStays(db: Db, hist: History, id: OperationId, g: GenerationId, owner: OwnerId, fence: nat,
                       token: Token, leaseMs: nat)
    requires DbInv(db, hist)
    ensures var r := AuthorizePhysicalDeletion(db, id, g, owner, fence, token, leaseMs);
      r.Committed? ==> DbInv(r.state, hist) && Reserved(r.state, g)
  {
    var r := AuthorizePhysicalDeletion(db, id, g, owner, fence, token, leaseMs);
    if r.Committed? {
      AuthorizeKept(Stored(db, hist), id, g, owner, fence, token, leaseMs);
      ReservedByRow(r.state, hist, g);
    }
  }

  /** What is granted is live authority; asking again under live authority changes no retirement row. */
  lemma AuthorizeGrants(db: Db, id: OperationId, g: GenerationId, owner: OwnerId, fence: nat, token: Token,
                        leaseMs: nat)
    requires AuthorizePhysicalDeletion(db, id, g, owner, fence, token, leaseMs).Committed?
    ensures var t := AuthorizePhysicalDeletion(db, id, g, owner, fence, token, leaseMs).state;
      && g in t.retirements && t.retirements[g].token.Some?
      && Authorized(t, id, g, owner, fence, t.retirements[g].token.value)
      && (Authorized(db, id, g, owner, fence, t.retirements[g].token.value) ==> t.retirements == db.retirements)
  {}

  lemma FinishStays(db: Db, hist: History, id: OperationId, g: GenerationId, owner: OwnerId, fence: nat)
    requires DbInv(db, hist)
    ensures var r := FinalizeRetirement(db, id, g, owner, fence);
      r.Committed? ==> Reserved(db, g) && DbInv(r.state, hist) && OutOfService(r.state, g)
  {
    if FinalizeRetirement(db, id, g, owner, fence).Committed? {
      FinalizeRetirementKept(Stored(db, hist), id, g, owner, fence);
      ReservedByRow(db, hist, g);
    }
  }
}
