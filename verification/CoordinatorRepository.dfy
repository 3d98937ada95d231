/**
  The repositories as the objects they are: rows updated in place, statement by
  statement, inside transactions that a raised error rolls back. `Valid` is the
  invariant that CoordinatorTheorems draws its results from; each method says
  what its transaction means for a caller of a valid database, and that the
  rows it leaves are those of its transaction function.
 */
module CoordinatorRepository {
  import opened Wrappers
  import opened CoordinatorDb
  import opened CoordinatorProtocol
  import opened CoordinatorInvariants
  import opened CoordinatorTheorems
  import opened CoordinatorConditions
  import opened CoordinatorContracts
  import opened ServingPointer

  class Database {
    var now: nat
    var operations: map<OperationId, Operation>
    var pointer: Pointer
    var generations: map<GenerationId, Generation>
    var journals: seq<Journal>
    var retirements: map<GenerationId, Retirement>
    var attempts: map<AttemptKey, Attempt>
    ghost var hist: History

    ghost predicate Valid()
      reads this
    {
      DbInv(Rows(), hist)
    }

    /** The one SERVING generation. */
    ghost function Serves(): (g: GenerationId)
      reads this
      requires Valid()
      ensures OnlyServer(generations, g)
    {
      ServesOne(Rows(), hist);
      Server(hist)
    }

    constructor (g: GenerationId, version: nat)
      ensures Valid() && Serves() == g && pointer == Pointer(g, None, version) && generations.Keys == {g}
    {
      now, operations, pointer := 0, map[], Pointer(g, None, version);
      generations := map[g := Generation(Serving, ServingProtected, 1, true, false)];
      journals, retirements, attempts := [], map[], map[];
      hist := History([g], [0], 0, map[], map[]);
      new;
      InitialInv(g, version);
    }

    function Rows(): Db
      reads this
    {
      Db(now, operations, pointer, generations, journals, retirements, attempts)
    }

    method RollBack(saved: Db)
      modifies this
      ensures Rows() == saved && hist == old(hist)
    {
      now, operations, pointer := saved.now, saved.operations, saved.pointer;
      generations, journals := saved.generations, saved.journals;
      retirements, attempts := saved.retirements, saved.attempts;
    }

    // ----------------------------------- the transactions, statement by statement

    method ExecClaim(id: OperationId, owner: OwnerId, leaseMs: nat) returns (ok: bool)
      modifies this
      ensures ok == Claim(old(Rows()), id, owner, leaseMs).Committed? && hist == old(hist)
      ensures Rows() == After(old(Rows()), Claim(old(Rows()), id, owner, leaseMs))
    {
      ok := id in operations && Claimable(operations[id], now);
      if ok {
        var op := operations[id];
        operations := operations[id := op.(lease := Some(Lease(owner, now + leaseMs)), fence := op.fence + 1)];
      }
    }

    method ExecTransition(id: OperationId, owner: OwnerId, fence: nat, from: OpState, to: OpState) returns (ok: bool)
      modifies this
      ensures ok == Transition(old(Rows()), id, owner, fence, from, to).Committed? && hist == old(hist)
      ensures Rows() == After(old(Rows()), Transition(old(Rows()), id, owner, fence, from, to))
    {
      ok := Holds(Rows(), id, owner, fence) && operations[id].state == from;
      if ok {
        operations := operations[id := operations[id].(state := to, lease := None)];
      }
    }

    method ExecPrepare(op: OperationId, from: GenerationId, to: GenerationId, expected: nat) returns (ok: bool)
      modifies this
      ensures ok == PreparePromotion(old(Rows()), op, from, to, expected).Committed? && hist == old(hist)
      ensures Rows() == After(old(Rows()), PreparePromotion(old(Rows()), op, from, to, expected))
    {
      ok := op in operations && from in generations && to in generations;
      if ok {
        journals := journals + [Journal(op, from, to, Preparing, expected, None)];
      }
    }

    method ExecCas(k: nat) returns (ok: bool)
      modifies this
      ensures ok == CasPointer(old(Rows()), k).Committed? && hist == old(hist)
      ensures Rows() == After(old(Rows()), CasPointer(old(Rows()), k))
    {
      if k >= |journals| { return false; }
      var j := journals[k];
      if j.phase in {PointerUpdated, RouterVerified, GenerationFinalized} { return true; }
      if pointer.generation != j.from || pointer.version != j.expected { return false; }
      pointer := Pointer(j.to, Some(pointer.generation), pointer.version + 1);
      journals := journals[k := j.(phase := PointerUpdated, resulting := Some(pointer.version))];
      return true;
    }

    method ExecFinalize(k: nat) returns (ok: bool)
      modifies this
      ensures ok == FinalizePromotion(old(Rows()), k).Committed? && hist == old(hist)
      ensures Rows() == After(old(Rows()), FinalizePromotion(old(Rows()), k))
    {
      var saved := Rows();
      if k >= |journals| { return false; }
      var j := journals[k];
      if j.phase == GenerationFinalized { return true; }
      if j.phase != RouterVerified { return false; }
      generations := Unprotect(generations);
      var demoted := j.from in generations && generations[j.from].state == Serving;
      if demoted {
        var row := generations[j.from];
        generations := generations[j.from := row.(state := Retiring, protection := RollbackProtection,
                                                  version := row.version + 1)];
      }
      var promoted := j.to in generations && generations[j.to].state == Ready;
      if promoted {
        var row := generations[j.to];
        generations := generations[j.to := row.(state := Serving, protection := ServingProtected,
                                                version := row.version + 1)];
      }
      if !demoted || !promoted {
        RollBack(saved);
        return false;
      }
      journals := journals[k := j.(phase := GenerationFinalized)];
      return true;
    }

    method ExecRelease(serving: GenerationId, g: GenerationId, version: nat) returns (ok: bool)
      modifies this
      ensures ok == ReleaseRollback(old(Rows()), serving, g, version).Committed? && hist == old(hist)
      ensures Rows() == After(old(Rows()), ReleaseRollback(old(Rows()), serving, g, version))
    {
      if pointer.generation != serving || pointer.previous != Some(g) || pointer.version != version { return false; }
      if g !in generations || generations[g].state == Serving || generations[g].protection != RollbackProtection {
        return false;
      }
      if PromotionIncomplete(Rows(), g) { return false; }
      if g in retirements && retirements[g].state != WaitingEligibility { return false; }
      pointer := pointer.(previous := None, version := pointer.version + 1);
      var row := generations[g];
      generations := generations[g := row.(protection := Unprotected, version := row.version + 1)];
      return true;
    }

    method ExecReevaluate(id: OperationId, owner: OwnerId, fence: nat) returns (ok: bool)
      modifies this
      ensures ok == Reevaluate(old(Rows()), id, owner, fence).Committed? && hist == old(hist)
      ensures Rows() == After(old(Rows()), Reevaluate(old(Rows()), id, owner, fence))
    {
      if !Holds(Rows(), id, owner, fence) || operations[id].state != RetirementWaiting { return false; }
      var op := operations[id];
      var g := op.candidate;
      if !Eligible(Rows(), g, id) {
        retirements := BackToWaiting(retirements, id);
        operations := operations[id := op.(lease := None)];
        return true;
      }
      if generations[g].protection != Unprotected { return false; }
      var version := generations[g].version + 1;
      generations := generations[g := generations[g].(state := Retiring, protection := RetirementInProgress,
                                                      version := version)];
      retirements := IntoRetiring(retirements, id, pointer.version, version, fence);
      operations := operations[id := op.(state := CleaningUp, lease := None)];
      return true;
    }

    method ExecMarkRetired(id: OperationId, g: GenerationId, owner: OwnerId, fence: nat) returns (ok: bool)
      modifies this
      ensures ok == MarkGenerationRetired(old(Rows()), id, g, owner, fence).Committed? && hist == old(hist)
      ensures Rows() == After(old(Rows()), MarkGenerationRetired(old(Rows()), id, g, owner, fence))
    {
      if !Holds(Rows(), id, owner, fence) || operations[id].state != CleaningUp { return false; }
      if !OnlyRetirementOf(Rows(), id, g) { return false; }
      var row := retirements[g];
      if row.state in {LogicallyRetired, PhysicalDeletePending} { return true; }
      if row.state != RetiringRow { return false; }
      if g !in generations || generations[g].state != Retiring || generations[g].protection != RetirementInProgress
         || Some(generations[g].version) != row.generationVersion { return false; }
      generations := generations[g := generations[g].(state := Retired, version := generations[g].version + 1)];
      retirements := retirements[g := row.(state := LogicallyRetired,
                                           generationVersion := Some(generations[g].version))];
      return true;
    }

    method ExecAuthorize(id: OperationId, g: GenerationId, owner: OwnerId, fence: nat, freshToken: Token, leaseMs: nat)
      returns (token: Option<Token>)
      modifies this
      ensures token.Some? == AuthorizePhysicalDeletion(old(Rows()), id, g, owner, fence, freshToken, leaseMs).Committed?
      ensures hist == old(hist)
      ensures Rows() == After(old(Rows()),
                              AuthorizePhysicalDeletion(old(Rows()), id, g, owner, fence, freshToken, leaseMs))
      ensures token.Some? ==> g in retirements && retirements[g].token == token
    {
      var saved := Rows();
      if !Holds(saved, id, owner, fence) || operations[id].state != CleaningUp { return None; }
      var op := operations[id];
      var expires := if op.lease.value.expires >= now + leaseMs then op.lease.value.expires else now + leaseMs;
      operations := operations[id := op.(lease := Some(Lease(owner, expires)))];
      if !OnlyRetirementOf(saved, id, g) { RollBack(saved); return None; }
      var row := retirements[g];
      if !Eligible(saved, g, id) || row.pointerVersion != Some(pointer.version)
        || row.generationVersion != Some(generations[g].version) {
        RollBack(saved);
        return None;
      }
      if row.state !in {LogicallyRetired, PhysicalDeletePending} { RollBack(saved); return None; }
      var sameEpoch := row.state == PhysicalDeletePending && row.fence == fence && row.token.Some?;
      token := if sameEpoch then row.token else Some(freshToken);
      retirements := retirements[g := row.(state := PhysicalDeletePending, token := token, fence := fence)];
    }

    method ExecFinish(id: OperationId, g: GenerationId, owner: OwnerId, fence: nat) returns (ok: bool)
      modifies this
      ensures ok == FinalizeRetirement(old(Rows()), id, g, owner, fence).Committed? && hist == old(hist)
      ensures Rows() == After(old(Rows()), FinalizeRetirement(old(Rows()), id, g, owner, fence))
    {
      if !Holds(Rows(), id, owner, fence) || !OnlyRetirementOf(Rows(), id, g)
        || retirements[g].state != PhysicallyDeleted {
        return false;
      }
      if g in generations && generations[g].protection == RetirementInProgress {
        generations := generations[g := generations[g].(protection := Unprotected,
                                                        version := generations[g].version + 1)];
      }
      retirements := retirements[g := retirements[g].(state := MetadataFinalized)];
      return true;
    }

    // ------------------------------------------------ operations and leases

    method ClaimNext(id: OperationId, owner: OwnerId, leaseMs: nat) returns (ok: bool)
      requires Valid()
      modifies this
      ensures Valid() && Serves() == old(Serves())
      ensures ok <==> old(MayClaim(Rows(), id))
      ensures ok ==> TakenBy(old(Rows()), Rows(), id, owner, leaseMs)
      ensures !ok ==> Rows() == old(Rows())
      ensures Rows() == After(old(Rows()), Claim(old(Rows()), id, owner, leaseMs))
    {
      ClaimKept(Rows(), hist, id, owner, leaseMs);
      ClaimExcludes(Rows(), id, owner, leaseMs);
      ok := ExecClaim(id, owner, leaseMs);
    }

    method TransitionTo(id: OperationId, owner: OwnerId, fence: nat, from: OpState, to: OpState) returns (ok: bool)
      requires Valid()
      modifies this
      ensures Valid() <==> (ok ==> FitsRow(Rows(), hist, id))
      ensures ok == (old(LiveLease(Rows(), id, owner, fence)) && old(operations)[id].state == from)
      ensures ok ==> NobodyHolds(Rows(), id) && OperationSet(old(Rows()), Rows(), id, to, None, fence)
      ensures hist == old(hist) && generations == old(generations) && pointer == old(pointer)
      ensures !ok ==> Rows() == old(Rows())
      ensures Rows() == After(old(Rows()), Transition(old(Rows()), id, owner, fence, from, to))
    {
      TransitionKeptIff(Rows(), hist, id, owner, fence, from, to);
      TransitionExact(Rows(), id, owner, fence, from, to);
      ok := ExecTransition(id, owner, fence, from, to);
    }

    // ------------------------------------------------------------ promotion

    method PrepareJournal(op: OperationId, from: GenerationId, to: GenerationId, expected: nat) returns (ok: bool)
      requires Valid()
      modifies this
      ensures Valid() <==> (ok ==> MayPrepare(old(Rows()), old(hist), op, to, expected))
      ensures ok <==> {from, to} <= old(generations).Keys && op in old(operations)
      ensures ok ==> JournalAdded(old(Rows()), Rows(), op, from, to, expected)
      ensures ok && from == pointer.generation && expected == pointer.version ==>
        CasPointer(Rows(), |journals| - 1).Committed?
      ensures hist == old(hist)
      ensures !ok ==> Rows() == old(Rows())
      ensures Rows() == After(old(Rows()), PreparePromotion(old(Rows()), op, from, to, expected))
    {
      PrepareKeptIff(Rows(), hist, op, from, to, expected);
      PrepareExact(Rows(), op, from, to, expected);
      ok := ExecPrepare(op, from, to, expected);
    }

    method CasServingPointer(k: nat) returns (ok: bool)
      requires Valid()
      modifies this
      ensures Valid() && Serves() == old(Serves())
      ensures ok <==> old(MayCas(Rows(), k))
      ensures old(Moving(Rows(), k)) ==> Moved(old(Rows()), Rows(), k)
      ensures old(Moving(Rows(), k)) ==>
        pointer.generation !in old(hist.installs) && hist.installs == old(hist.installs) + [pointer.generation]
      ensures old(Moving(Rows(), k)) ==> Beaten(Rows(), k, old(pointer.version))
      ensures !old(Moving(Rows(), k)) ==> Rows() == old(Rows()) && hist == old(hist)
      ensures Rows() == After(old(Rows()), CasPointer(old(Rows()), k))
    {
      var before := Rows();
      CasStays(before, hist, k);
      CasExact(before, k);
      if Moving(before, k) { CasBeats(before, hist, k); }
      ok := ExecCas(k);
      hist := CasHistory(before, hist, k);
    }

    method FinalizeJournal(k: nat) returns (ok: bool)
      requires Valid()
      modifies this
      ensures Valid() && pointer == old(pointer)
      ensures ok <==> old(MayFinalize(Rows(), k))
      ensures old(Finishing(Rows(), k)) ==>
        && Finalized(old(Rows()), Rows(), k)
        && old(Serves()) == journals[k].from && Serves() == journals[k].to
      ensures !old(Finishing(Rows(), k)) ==> Rows() == old(Rows()) && hist == old(hist)
      ensures Rows() == After(old(Rows()), FinalizePromotion(old(Rows()), k))
    {
      var before := Rows();
      FinalizeMeans(before, hist, k);
      FinalizeExact(before, k);
      if Finishing(before, k) { FinalizeServes(before, hist, k); }
      ok := ExecFinalize(k);
      assert Rows() == FinalState(before, k);
      hist := FinalHistory(before, hist, k);
    }

    method ReleaseRollbackProtection(serving: GenerationId, g: GenerationId, version: nat) returns (ok: bool)
      requires Valid()
      modifies this
      ensures Valid() && Serves() == old(Serves()) && hist == old(hist)
      ensures ok <==> old(MayRelease(Rows(), serving, g, version))
      ensures ok ==> serving == Serves() && ReleasedRows(old(Rows()), Rows(), g) && NoRollback(generations)
      ensures !ok ==> Rows() == old(Rows())
      ensures Rows() == After(old(Rows()), ReleaseRollback(old(Rows()), serving, g, version))
    {
      ReleaseStays(Rows(), hist, serving, g, version);
      ReleaseExact(Rows(), serving, g, version);
      if ReleaseRollback(Rows(), serving, g, version).Committed? {
        ReleaseClosesWayBack(Rows(), hist, serving, g, version);
      }
      ok := ExecRelease(serving, g, version);
    }

    // ----------------------------------------------------------- retirement

    method ReevaluatePendingRetirement(id: OperationId, owner: OwnerId, fence: nat) returns (ok: bool)
      requires Valid()
      modifies this
      ensures Valid() && Serves() == old(Serves()) && hist == old(hist) && pointer == old(pointer)
      ensures ok <==> old(Waiting(Rows(), id, owner, fence))
      ensures ok ==> NobodyHolds(Rows(), id) && Checked(old(Rows()), Rows(), id, fence)
      ensures ok ==>
        (operations[id].state == CleaningUp <==> old(FreeToRetire(Rows(), operations[id].candidate, id)))
      ensures ok && operations[id].state == CleaningUp ==> Reserved(Rows(), operations[id].candidate)
      ensures !ok ==> Rows() == old(Rows())
      ensures Rows() == After(old(Rows()), Reevaluate(old(Rows()), id, owner, fence))
    {
      ReevaluateStays(Rows(), hist, id, owner, fence);
      ReevaluateExact(Rows(), hist, id, owner, fence);
      if Reevaluate(Rows(), id, owner, fence).Committed? {
        ReevaluateReserves(Rows(), hist, id, owner, fence);
      }
      ok := ExecReevaluate(id, owner, fence);
    }

    method MarkRetired(id: OperationId, g: GenerationId, owner: OwnerId, fence: nat) returns (ok: bool)
      requires Valid()
      modifies this
      ensures Valid() && Serves() == old(Serves()) && hist == old(hist) && pointer == old(pointer)
      ensures ok <==> old(Cleaning(Rows(), id, owner, fence) && OneRow(Rows(), id, g) && MayMarkRetired(Rows(), g))
      ensures ok ==> Reserved(Rows(), g)
      ensures ok ==> if old(retirements)[g].state == RetiringRow then LogicallyRetiredRows(old(Rows()), Rows(), id, g)
                     else Rows() == old(Rows())
      ensures !ok ==> Rows() == old(Rows())
      ensures Rows() == After(old(Rows()), MarkGenerationRetired(old(Rows()), id, g, owner, fence))
    {
      MarkRetiredStays(Rows(), hist, id, g, owner, fence);
      MarkRetiredExact(Rows(), id, g, owner, fence);
      ok := ExecMarkRetired(id, g, owner, fence);
    }

    method Authorize(id: OperationId, g: GenerationId, owner: OwnerId, fence: nat, freshToken: Token, leaseMs: nat)
      returns (token: Option<Token>)
      requires Valid()
      modifies this
      ensures Valid() && Serves() == old(Serves()) && hist == old(hist) && pointer == old(pointer)
      ensures token.Some? <==> old(MayAuthorize(Rows(), id, g, owner, fence))
      ensures token.Some? ==> Granted(old(Rows()), Rows(), id, g, owner, fence, freshToken, leaseMs)
      ensures token.Some? ==> Authorized(Rows(), id, g, owner, fence, token.value) && Reserved(Rows(), g)
      ensures token.Some? && old(Authorized(Rows(), id, g, owner, fence, token.value)) ==>
        retirements == old(retirements)
      ensures token.None? ==> Rows() == old(Rows())
      ensures Rows() == After(old(Rows()),
                              AuthorizePhysicalDeletion(old(Rows()), id, g, owner, fence, freshToken, leaseMs))
    {
      AuthorizeStays(Rows(), hist, id, g, owner, fence, freshToken, leaseMs);
      AuthorizeExact(Rows(), id, g, owner, fence, freshToken, leaseMs);
      if AuthorizePhysicalDeletion(Rows(), id, g, owner, fence, freshToken, leaseMs).Committed? {
        AuthorizeGrants(Rows(), id, g, owner, fence, freshToken, leaseMs);
        AuthorizeWrites(Rows(), id, g, owner, fence, freshToken, leaseMs);
      }
      token := ExecAuthorize(id, g, owner, fence, freshToken, leaseMs);
    }

    method FinishRetirement(id: OperationId, g: GenerationId, owner: OwnerId, fence: nat) returns (ok: bool)
      requires Valid()
      modifies this
      ensures Valid() && Serves() == old(Serves()) && hist == old(hist) && pointer == old(pointer)
      ensures ok <==> old(MayFinish(Rows(), id, g, owner, fence))
      ensures ok ==> old(Reserved(Rows(), g)) && OutOfService(Rows(), g) && FinishedRows(old(Rows()), Rows(), id, g)
      ensures !ok ==> Rows() == old(Rows())
      ensures Rows() == After(old(Rows()), FinalizeRetirement(old(Rows()), id, g, owner, fence))
    {
      FinishStays(Rows(), hist, id, g, owner, fence);
      FinishExact(Rows(), id, g, owner, fence);
      if FinalizeRetirement(Rows(), id, g, owner, fence).Committed? { FinishWrites(Rows(), id, g, owner, fence); }
      ok := ExecFinish(id, g, owner, fence);
    }
  }
}
