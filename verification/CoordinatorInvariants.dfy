/** What every reachable state of the coordinator protocol satisfies. */
module CoordinatorInvariants {
  import opened CoordinatorDb
  import opened CoordinatorProtocol

  type Ops = map<OperationId, Operation>
  type Gens = map<GenerationId, Generation>
  type Rets = map<GenerationId, Retirement>
  type Creator = map<GenerationId, OperationId>

  /** The operation got its candidate out of CREATING. */
  predicate InPast(state: OpState) {
    state in {LoadingSnapshot, WaitingForCatchup, ValidatingOp, ReadyToPromote, Promoting, Promoted, RollbackProtected}
  }

  /** The operation has seen its candidate READY and valid. */
  predicate Proven(state: OpState) {
    state in {ReadyToPromote, Promoting, Promoted, RollbackProtected}
  }

  predicate RetirementState(state: OpState) { state in {RetirementWaiting, CleaningUp} }

  predicate Promotable(gens: Gens, installs: seq<GenerationId>, g: GenerationId) {
    g in gens && (gens[g].state == Ready || g in installs)
  }

  predicate Owns(ops: Ops, creator: Creator, id: OperationId) {
    id in ops && ops[id].candidate in creator && creator[ops[id].candidate] == id
  }

  ghost predicate Distinct(h: seq<GenerationId>) {
    forall i, j :: 0 <= i < j < |h| ==> h[i] != h[j]
  }

  /** The serving pointer stands at the last install; its previous generation is the one before. */
  ghost predicate Chain(p: Pointer, hist: History) {
    var h := hist.installs;
    && hist.finalized < |h| && |hist.installer| == |h| && Distinct(h)
    && p.generation == h[|h| - 1]
    && (p.previous.Some? ==> |h| >= 2 && p.previous.value == h[|h| - 2])
    && (hist.finalized + 1 < |h| ==> p.previous.Some?)
  }

  predicate InstalledRow(row: Generation, i: nat, f: nat) {
    && (i < f ==> row.state in {Retiring, Retired})
    && (i == f ==> row.state == Serving && row.protection == ServingProtected)
    && (i > f ==> row.state == Ready && row.protection == Unprotected)
  }

  ghost predicate Rows(gens: Gens, h: seq<GenerationId>, f: nat) {
    forall i :: 0 <= i < |h| ==> h[i] in gens && InstalledRow(gens[h[i]], i, f)
  }

  predicate ProtectionOk(row: Generation, g: GenerationId, h: seq<GenerationId>, f: nat)
    requires f < |h|
  {
    && (g !in h ==> row.state != Serving && row.protection in {Unprotected, RetirementInProgress})
    && (row.protection == ServingProtected ==> g == h[f])
    && (row.protection == RollbackProtection ==> f >= 1 && g == h[f - 1])
    && (row.protection == RetirementInProgress ==> row.state in {Retiring, Retired})
  }

  ghost predicate NoRollback(gens: Gens) {
    forall g :: g in gens ==> gens[g].protection != RollbackProtection
  }

  ghost predicate Protections(gens: Gens, p: Pointer, h: seq<GenerationId>, f: nat)
    requires f < |h|
  {
    && (forall g :: g in gens ==> ProtectionOk(gens[g], g, h, f))
    && (f + 1 == |h| && p.previous.Some? ==>
          p.previous.value in gens && gens[p.previous.value].protection == RollbackProtection)
    && (f + 1 == |h| && p.previous.None? ==> NoRollback(gens))
  }

  /** A journal's operation owns its target and the target has been READY. */
  predicate JournalOwned(ops: Ops, gens: Gens, hist: History, j: Journal) {
    && Owns(ops, hist.creator, j.op) && ops[j.op].kind == PromotionOp
    && ops[j.op].candidate == j.to && Promotable(gens, hist.installs, j.to)
  }

  /** A journal that moved the pointer has its own slot; one that may still move it targets a new generation. */
  predicate JournalSlot(version: nat, hist: History, j: Journal, k: nat) {
    var h := hist.installs;
    && (j.phase == Preparing ==> j.expected <= version && (j.to in h ==> j.expected < version))
    && (j.phase != Preparing <==> k in hist.slot)
    && (k in hist.slot ==>
          var i := hist.slot[k];
          && 1 <= i < |h| && i < |hist.installer| && h[i] == j.to && h[i - 1] == j.from && hist.installer[i] == k
          && (j.phase == GenerationFinalized <==> i <= hist.finalized))
  }

  ghost predicate Owned(ops: Ops, gens: Gens, journals: seq<Journal>, hist: History) {
    forall k :: 0 <= k < |journals| ==> JournalOwned(ops, gens, hist, journals[k])
  }

  ghost predicate Slots(version: nat, journals: seq<Journal>, hist: History)
    requires |hist.installer| == |hist.installs|
  {
    && (forall k :: 0 <= k < |journals| ==> JournalSlot(version, hist, journals[k], k))
    && (forall k :: k in hist.slot ==> k < |journals|)
    && (forall i :: 1 <= i < |hist.installer| ==>
          hist.installer[i] in hist.slot && hist.slot[hist.installer[i]] == i)
  }

  ghost predicate Creators(ops: Ops, gens: Gens, creator: Creator) {
    forall g :: g in creator ==>
      g in gens && gens[g].state != Creating && creator[g] in ops && ops[creator[g]].candidate == g
  }

  predicate OperationOk(op: Operation, id: OperationId, ops: Ops, gens: Gens, rets: Rets, hist: History) {
    match op.kind
    case PromotionOp =>
      && !RetirementState(op.state)
      && (InPast(op.state) ==> Owns(ops, hist.creator, id))
      && (Proven(op.state) ==> Promotable(gens, hist.installs, op.candidate))
    case RetirementOp =>
      && (RetirementState(op.state) || op.state == Completed)
      && op.candidate in rets && rets[op.candidate].op == id
      && (op.state == RetirementWaiting ==> rets[op.candidate].state == WaitingEligibility)
  }

  ghost predicate Operations(ops: Ops, gens: Gens, rets: Rets, hist: History) {
    forall id :: id in ops ==> OperationOk(ops[id], id, ops, gens, rets, hist)
  }

  predicate RetirementOwned(r: Retirement, g: GenerationId, ops: Ops) {
    && r.op in ops
    && (ops[r.op].kind == RetirementOp ==> ops[r.op].candidate == g)
    && (r.state != WaitingEligibility ==> ops[r.op].kind == RetirementOp)
  }

  predicate RetirementRow(r: Retirement, row: Generation) {
    && (r.state != WaitingEligibility ==>
          row.state in {Retiring, Retired} && row.protection in {RetirementInProgress, Unprotected})
    && (r.state !in {WaitingEligibility, MetadataFinalized} ==> row.protection == RetirementInProgress)
  }

  ghost predicate RetirementsOwned(ops: Ops, rets: Rets) {
    forall g :: g in rets ==> RetirementOwned(rets[g], g, ops)
  }

  ghost predicate RetirementRows(gens: Gens, rets: Rets) {
    && (forall g :: g in rets ==> g in gens && RetirementRow(rets[g], gens[g]))
    && (forall g :: g in gens && gens[g].protection == RetirementInProgress ==>
          g in rets && rets[g].state != WaitingEligibility)
  }

  /** A cleanup coordinator works on the row of its own operation, past eligibility. */
  predicate CleanupTarget(rets: Rets, id: OperationId, g: GenerationId) {
    g in rets && rets[g].op == id && rets[g].state != WaitingEligibility
  }

  predicate PcOk(db: Db, hist: History, l: Local)
    requires l.Busy? && l.op in db.operations
  {
    var op := db.operations[l.op];
    var promotion := op.kind == PromotionOp;
    match l.pc
    case Start => true
    case Finish(to) =>
      if promotion then
        && !RetirementState(to) && (InPast(to) ==> Owns(db.operations, hist.creator, l.op))
        && (Proven(to) ==> Promotable(db.generations, hist.installs, op.candidate))
      else l.seen == CleaningUp && to == Completed
    case Advance(from, next, to) =>
      && promotion
      && ((from == Creating && next == Loading && to == LoadingSnapshot)
          || (InPast(l.seen) && from == Loading && next == CatchingUp && to == WaitingForCatchup)
          || (InPast(l.seen) && from == CatchingUp && next == Validating && to == ValidatingOp))
    case SawPointer(g, v) => promotion && Proven(l.seen) && g in db.generations && v <= db.pointer.version
    case Prepare(g, v) =>
      && promotion && Proven(l.seen) && g in db.generations && v <= db.pointer.version
      && (op.candidate in hist.installs ==> v < db.pointer.version)
    case Cas(k) => promotion && Proven(l.seen) && k < |db.journals|
    case Verify(k) => promotion && Proven(l.seen) && k < |db.journals|
    case FinalizeJournal(k) => promotion && Proven(l.seen) && k < |db.journals|
    case BeginRet(p) => promotion && Proven(l.seen)
    case MarkRetired(g) => !promotion && l.seen == CleaningUp && CleanupTarget(db.retirements, l.op, g)
    case Authorize(g) => !promotion && l.seen == CleaningUp && CleanupTarget(db.retirements, l.op, g)
    case RecordPlan(g, _) => !promotion && l.seen == CleaningUp && CleanupTarget(db.retirements, l.op, g)
    case MarkFence(g, _) => !promotion && l.seen == CleaningUp && CleanupTarget(db.retirements, l.op, g)
    case Deleting(g, _) => !promotion && l.seen == CleaningUp && CleanupTarget(db.retirements, l.op, g)
    case FinalizeRet(g) => !promotion && l.seen == CleaningUp && CleanupTarget(db.retirements, l.op, g)
  }

  predicate LocalOk(db: Db, hist: History, l: Local) {
    l.Busy? ==>
      && l.op in db.operations
      && (db.operations[l.op].kind == RetirementOp <==> RetirementState(l.seen))
      && (InPast(l.seen) ==> Owns(db.operations, hist.creator, l.op))
      && (Proven(l.seen) ==> Promotable(db.generations, hist.installs, db.operations[l.op].candidate))
      && PcOk(db, hist, l)
  }

  ghost predicate Locals(db: Db, hist: History, locals: map<OwnerId, Local>) {
    forall c :: c in locals ==> LocalOk(db, hist, locals[c])
  }

  ghost predicate DbInv(db: Db, hist: History) {
    && Chain(db.pointer, hist)
    && Rows(db.generations, hist.installs, hist.finalized)
    && Protections(db.generations, db.pointer, hist.installs, hist.finalized)
    && Owned(db.operations, db.generations, db.journals, hist)
    && Slots(db.pointer.version, db.journals, hist)
    && Creators(db.operations, db.generations, hist.creator)
    && hist.installs[0] !in hist.creator
    && Operations(db.operations, db.generations, db.retirements, hist)
    && RetirementsOwned(db.operations, db.retirements)
    && RetirementRows(db.generations, db.retirements)
  }

  ghost predicate Inv(s: System) {
    DbInv(s.db, s.hist) && Locals(s.db, s.hist, s.locals)
  }

  lemma InitialInv(g: GenerationId, version: nat)
    ensures Inv(Initial(g, version))
  {}
}
