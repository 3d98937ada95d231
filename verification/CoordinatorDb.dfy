/**
  The durable rows of the generation control plane for one source identity and
  its query service, and every repository transaction as a function on them.
  A transaction that raises is `Aborted`: PostgreSQL rolled it back.
 */
module CoordinatorDb {
  import opened Wrappers

  type GenerationId = string
  type OperationId = nat
  type OwnerId = nat
  type Token = nat

  datatype OpKind = PromotionOp | RetirementOp

  datatype OpState =
    | RebuildRequested | CreatingGeneration | LoadingSnapshot | WaitingForCatchup
    | ValidatingOp | ReadyToPromote | Promoting | Promoted | RollbackProtected
    | RetirementWaiting | CleaningUp | Completed | FailedOp

  datatype Lease = Lease(owner: OwnerId, expires: nat)

  datatype Operation = Operation(
    kind: OpKind, candidate: GenerationId, state: OpState, lease: Option<Lease>, fence: nat)

  datatype GenState =
    | Creating | Loading | CatchingUp | Validating | Ready | Serving | Retiring | Retired | Failed

  datatype Protection = Unprotected | ServingProtected | RollbackProtection | RetirementInProgress

  datatype Generation = Generation(
    state: GenState, protection: Protection, version: nat, valid: bool, syncActive: bool)

  datatype Pointer = Pointer(generation: GenerationId, previous: Option<GenerationId>, version: nat)

  datatype Phase = Preparing | PointerUpdated | RouterVerified | GenerationFinalized

  /** A promotion journal; its state column is PREPARING until the phase is GENERATION_FINALIZED. */
  datatype Journal = Journal(
    op: OperationId, from: GenerationId, to: GenerationId, phase: Phase,
    expected: nat, resulting: Option<nat>)

  datatype RetState =
    | WaitingEligibility | RetiringRow | LogicallyRetired
    | PhysicalDeletePending | PhysicallyDeleted | MetadataFinalized

  datatype Retirement = Retirement(
    op: OperationId, state: RetState, pointerVersion: Option<nat>, generationVersion: Option<nat>,
    fence: nat, token: Option<Token>)

  datatype Role = Workload | Pvc | Service

  /** One period of deletion authority. */
  datatype Epoch = Epoch(op: OperationId, fence: nat, token: Token)

  datatype AttemptKey = AttemptKey(op: OperationId, fence: nat, token: Token, role: Role)

  datatype AttemptState = Planned | FenceMarked | DeleteIntent | DeleteAccepted | AbsentConfirmed

  datatype Attempt = Attempt(uid: nat, resourceVersion: nat, state: AttemptState)

  datatype Db = Db(
    now: nat,
    operations: map<OperationId, Operation>,
    pointer: Pointer,
    generations: map<GenerationId, Generation>,
    journals: seq<Journal>,
    retirements: map<GenerationId, Retirement>,
    attempts: map<AttemptKey, Attempt>)

  // ---------------------------------------------------------------- leases

  predicate Active(state: OpState) {
    state !in {RollbackProtected, Completed, FailedOp}
  }

  predicate Claimable(op: Operation, now: nat) {
    Active(op.state) && (op.lease.None? || op.lease.value.expires < now)
  }

  /** The fence predicate of every guarded write: owner, fence and unexpired lease. */
  predicate Holds(db: Db, id: OperationId, owner: OwnerId, fence: nat) {
    && id in db.operations
    && db.operations[id].fence == fence
    && db.operations[id].lease.Some?
    && db.operations[id].lease.value.owner == owner
    && db.operations[id].lease.value.expires > db.now
  }

  function Claim(db: Db, id: OperationId, owner: OwnerId, leaseMs: nat): (r: Outcome<Db>) {
    if id in db.operations && Claimable(db.operations[id], db.now) then
      var op := db.operations[id];
      Committed(db.(operations := db.operations[id := op.(lease := Some(Lease(owner, db.now + leaseMs)),
                                                          fence := op.fence + 1)]))
    else Aborted("NO_CLAIMABLE_OPERATION")
  }

  function Transition(db: Db, id: OperationId, owner: OwnerId, fence: nat, from: OpState,
                      to: OpState): (r: Outcome<Db>) {
    if Holds(db, id, owner, fence) && db.operations[id].state == from then
      Committed(db.(operations := db.operations[id := db.operations[id].(state := to, lease := None)]))
    else Aborted("COORDINATOR_FENCE_CONFLICT")
  }

  // ------------------------------------------------------------ generations

  function Request(db: Db, id: OperationId, candidate: GenerationId): (r: Outcome<Db>) {
    if id in db.operations then Committed(db)
    else Committed(db.(operations := db.operations[id := Operation(PromotionOp, candidate, RebuildRequested, None, 0)]))
  }

  function EnsureGeneration(db: Db, g: GenerationId): (r: Outcome<Db>) {
    if g in db.generations then Committed(db)
    else Committed(db.(generations := db.generations[g := Generation(Creating, Unprotected, 1, false, false)]))
  }

  function SetGenerationState(db: Db, g: GenerationId, from: GenState, to: GenState): (r: Outcome<Db>) {
    if g in db.generations && db.generations[g].state == from then
      var row := db.generations[g];
      Committed(db.(generations := db.generations[g := row.(state := to, version := row.version + 1)]))
    else Aborted("GENERATION_STATE_CONFLICT")
  }

  // -------------------------------------------------------------- promotion

  /** No unique index covers the journal table, so ON CONFLICT DO NOTHING never suppresses the insert. */
  function PreparePromotion(db: Db, op: OperationId, from: GenerationId, to: GenerationId,
                            expected: nat): (r: Outcome<Db>) {
    if op in db.operations && from in db.generations && to in db.generations then
      Committed(db.(journals := db.journals + [Journal(op, from, to, Preparing, expected, None)]))
    else Aborted("FOREIGN_KEY_VIOLATION")
  }

  function CasPointer(db: Db, k: nat): (r: Outcome<Db>) {
    if k >= |db.journals| then Aborted("PROMOTION_MISSING")
    else
      var j := db.journals[k];
      if j.phase != Preparing then Committed(db)
      else if db.pointer.generation != j.from || db.pointer.version != j.expected then
        Aborted("SERVING_POINTER_CONFLICT")
      else
        var pointer := Pointer(j.to, Some(db.pointer.generation), db.pointer.version + 1);
        Committed(db.(pointer := pointer,
                      journals := db.journals[k := j.(phase := PointerUpdated, resulting := Some(pointer.version))]))
  }

  function MarkRouterVerified(db: Db, k: nat): (r: Outcome<Db>) {
    if k < |db.journals| && db.journals[k].phase in {PointerUpdated, RouterVerified} then
      Committed(db.(journals := db.journals[k := db.journals[k].(phase := RouterVerified)]))
    else Aborted("PROMOTION_PHASE_CONFLICT")
  }

  /** `UPDATE ... SET protection_state='NONE' WHERE protection_state IN ('SERVING','ROLLBACK')`. */
  function Unprotect(generations: map<GenerationId, Generation>): (r: map<GenerationId, Generation>)
    ensures r.Keys == generations.Keys
  {
    map g | g in generations ::
      if generations[g].protection in {ServingProtected, RollbackProtection}
      then generations[g].(protection := Unprotected, version := generations[g].version + 1)
      else generations[g]
  }

  function FinalizePromotion(db: Db, k: nat): (r: Outcome<Db>) {
    if k >= |db.journals| then Aborted("PROMOTION_MISSING")
    else
      var j := db.journals[k];
      if j.phase == GenerationFinalized then Committed(db)
      else if j.phase != RouterVerified then Aborted("PROMOTION_PHASE_INVALID")
      else
        var cleared := Unprotect(db.generations);
        if j.from !in cleared || cleared[j.from].state != Serving then Aborted("PROMOTION_GENERATION_CONFLICT")
        else
          var outgoing := cleared[j.from];
          var demoted := cleared[j.from := outgoing.(state := Retiring, protection := RollbackProtection,
                                                     version := outgoing.version + 1)];
          if j.to !in demoted || demoted[j.to].state != Ready then Aborted("PROMOTION_GENERATION_CONFLICT")
          else
            var incoming := demoted[j.to];
            Committed(db.(
              generations := demoted[j.to := incoming.(state := Serving, protection := ServingProtected,
                                                       version := incoming.version + 1)],
              journals := db.journals[k := j.(phase := GenerationFinalized)]))
  }

  predicate PromotionIncomplete(db: Db, g: GenerationId) {
    exists k :: 0 <= k < |db.journals| && db.journals[k].phase != GenerationFinalized
             && (db.journals[k].from == g || db.journals[k].to == g)
  }

  function ReleaseRollback(db: Db, serving: GenerationId, g: GenerationId, version: nat): (r: Outcome<Db>) {
    if db.pointer.generation != serving || db.pointer.previous != Some(g) || db.pointer.version != version then
      Aborted("ROLLBACK_RELEASE_CAS_CONFLICT")
    else if g !in db.generations then Aborted("GENERATION_MISSING")
    else if db.generations[g].state == Serving || db.generations[g].protection != RollbackProtection then
      Aborted("ROLLBACK_RELEASE_NOT_PROTECTED")
    else if PromotionIncomplete(db, g) then Aborted("ROLLBACK_RELEASE_PROMOTION_ACTIVE")
    else if g in db.retirements && db.retirements[g].state != WaitingEligibility then
      Aborted("ROLLBACK_RELEASE_RETIREMENT_ACTIVE")
    else
      var row := db.generations[g];
      Committed(db.(
        pointer := db.pointer.(previous := None, version := db.pointer.version + 1),
        generations := db.generations[g := row.(protection := Unprotected, version := row.version + 1)]))
  }

  // ------------------------------------------------------------- retirement

  predicate OperationActive(db: Db, g: GenerationId, me: OperationId) {
    exists id :: id in db.operations && db.operations[id].candidate == g
              && Active(db.operations[id].state) && id != me
  }

  /** The structured evaluator, asked by retirement operation `me`: true when it lists no reason to wait. */
  predicate Eligible(db: Db, g: GenerationId, me: OperationId) {
    && g in db.generations
    && db.generations[g].state in {Retiring, Retired, Failed}
    && db.generations[g].protection !in {RollbackProtection, ServingProtected}
    && db.pointer.generation != g
    && db.pointer.previous != Some(g)
    && !PromotionIncomplete(db, g)
    && !OperationActive(db, g, me)
    && !db.generations[g].syncActive
  }

  function ScheduleCleanup(db: Db, id: OperationId, g: GenerationId): (r: Outcome<Db>) {
    if id in db.operations then Committed(db)
    else if g !in db.generations || g in db.retirements then Aborted("CONSTRAINT_VIOLATION")
    else
      Committed(db.(
        operations := db.operations[id := Operation(RetirementOp, g, RetirementWaiting, None, 0)],
        retirements := db.retirements[g := Retirement(id, WaitingEligibility, Some(db.pointer.version),
                                                      Some(db.generations[g].version), 0, None)]))
  }

  function BeginRetirement(db: Db, id: OperationId, g: GenerationId): (r: Outcome<Db>) {
    if g in db.retirements then Committed(db)
    else if g !in db.generations then Aborted("FOREIGN_KEY_VIOLATION")
    else Committed(db.(retirements := db.retirements[g := Retirement(id, WaitingEligibility, None, None, 0, None)]))
  }

  /** The waiting update of every retirement row of operation `id`. */
  function BackToWaiting(rows: map<GenerationId, Retirement>, id: OperationId): (r: map<GenerationId, Retirement>) {
    map g | g in rows :: if rows[g].op == id then rows[g].(state := WaitingEligibility) else rows[g]
  }

  /** The update of every retirement row of operation `id` that binds it to versions and a fence. */
  function IntoRetiring(rows: map<GenerationId, Retirement>, id: OperationId, pointerVersion: nat,
                        generationVersion: nat, fence: nat): (r: map<GenerationId, Retirement>) {
    map g | g in rows ::
      if rows[g].op == id
      then rows[g].(state := RetiringRow, pointerVersion := Some(pointerVersion),
                    generationVersion := Some(generationVersion), fence := fence)
      else rows[g]
  }

  function Reevaluate(db: Db, id: OperationId, owner: OwnerId, fence: nat): (r: Outcome<Db>) {
    if !Holds(db, id, owner, fence) || db.operations[id].state != RetirementWaiting then
      Aborted("STALE_COORDINATOR_FENCE")
    else
      var op := db.operations[id];
      var g := op.candidate;
      if !Eligible(db, g, id) then
        Committed(db.(
          retirements := BackToWaiting(db.retirements, id),
          operations := db.operations[id := op.(lease := None)]))
      else if db.generations[g].protection != Unprotected then Aborted("STALE_GENERATION_VERSION")
      else
        var row := db.generations[g];
        Committed(db.(
          generations := db.generations[g := row.(state := Retiring, protection := RetirementInProgress,
                                                  version := row.version + 1)],
          retirements := IntoRetiring(db.retirements, id, db.pointer.version, row.version + 1, fence),
          operations := db.operations[id := op.(state := CleaningUp, lease := None)]))
  }

  /** `g` is the one retirement row of operation `id`. */
  predicate OnlyRetirementOf(db: Db, id: OperationId, g: GenerationId) {
    && g in db.retirements && db.retirements[g].op == id
    && forall other :: other in db.retirements && db.retirements[other].op == id ==> other == g
  }

  function MarkGenerationRetired(db: Db, id: OperationId, g: GenerationId, owner: OwnerId,
                                 fence: nat): (r: Outcome<Db>) {
    if !Holds(db, id, owner, fence) || db.operations[id].state != CleaningUp then Aborted("STALE_COORDINATOR_FENCE")
    else if !OnlyRetirementOf(db, id, g) then Aborted("RETIREMENT_MISSING")
    else
      var row := db.retirements[g];
      if row.state in {LogicallyRetired, PhysicalDeletePending} then Committed(db)
      else if row.state != RetiringRow then Aborted("RETIREMENT_STATE_CONFLICT")
      else if g !in db.generations || db.generations[g].state != Retiring
              || db.generations[g].protection != RetirementInProgress
              || Some(db.generations[g].version) != row.generationVersion then Aborted("STALE_GENERATION_VERSION")
      else
        var gen := db.generations[g];
        Committed(db.(
          generations := db.generations[g := gen.(state := Retired, version := gen.version + 1)],
          retirements := db.retirements[g := row.(state := LogicallyRetired,
                                                  generationVersion := Some(gen.version + 1))]))
  }

  function AuthorizePhysicalDeletion(db: Db, id: OperationId, g: GenerationId, owner: OwnerId, fence: nat,
                                     freshToken: Token, leaseMs: nat): (r: Outcome<Db>) {
    if !Holds(db, id, owner, fence) || db.operations[id].state != CleaningUp then Aborted("STALE_COORDINATOR_FENCE")
    else if !OnlyRetirementOf(db, id, g) then Aborted("RETIREMENT_MISSING")
    else
      var row := db.retirements[g];
      var op := db.operations[id];
      if !Eligible(db, g, id) || row.pointerVersion != Some(db.pointer.version)
         || row.generationVersion != Some(db.generations[g].version) then Aborted("RETIREMENT_WAITING_ELIGIBILITY")
      else if row.state !in {LogicallyRetired, PhysicalDeletePending} then Aborted("RETIREMENT_STATE_CONFLICT")
      else
        var sameEpoch := row.state == PhysicalDeletePending && row.fence == fence && row.token.Some?;
        var token := if sameEpoch then row.token.value else freshToken;
        var expires := if op.lease.value.expires >= db.now + leaseMs then op.lease.value.expires else db.now + leaseMs;
        Committed(db.(
          operations := db.operations[id := op.(lease := Some(Lease(owner, expires)))],
          retirements := db.retirements[g := row.(state := PhysicalDeletePending, token := Some(token),
                                                  fence := fence)]))
  }

  /** The deletion authority asserted before the first and the storage delete. */
  predicate Authorized(db: Db, id: OperationId, g: GenerationId, owner: OwnerId, fence: nat, token: Token) {
    && Holds(db, id, owner, fence)
    && g in db.retirements && db.retirements[g].op == id
    && db.retirements[g].fence == fence && db.retirements[g].token == Some(token)
    && db.retirements[g].state == PhysicalDeletePending
  }

  function RecordDeletionPlan(db: Db, id: OperationId, g: GenerationId, owner: OwnerId, fence: nat, token: Token,
                              plan: map<Role, Attempt>): (r: Outcome<Db>) {
    if !Authorized(db, id, g, owner, fence, token) then Aborted("STALE_COORDINATOR_FENCE")
    else
      var rows := map role | role in plan && AttemptKey(id, fence, token, role) !in db.attempts
                    :: AttemptKey(id, fence, token, role) := plan[role].(state := Planned);
      Committed(db.(attempts := db.attempts + rows))
  }

  predicate Matches(db: Db, key: AttemptKey, id: OperationId, fence: nat, token: Token, role: Option<Role>,
                    uid: Option<nat>, from: set<AttemptState>)
  {
    && key in db.attempts && key.op == id && key.fence == fence && key.token == token
    && (role.Some? ==> key.role == role.value)
    && (uid.Some? ==> db.attempts[key].uid == uid.value)
    && db.attempts[key].state in from
  }

  function SetAttemptState(db: Db, id: OperationId, owner: OwnerId, fence: nat, token: Token, role: Option<Role>,
                           uid: Option<nat>, from: set<AttemptState>, to: AttemptState): (r: Outcome<Db>) {
    if Holds(db, id, owner, fence) && exists key ::
      key in db.attempts && Matches(db, key, id, fence, token, role, uid, from) then
      Committed(db.(attempts := map key | key in db.attempts ::
        if Matches(db, key, id, fence, token, role, uid, from) then
          db.attempts[key].(state := to) else db.attempts[key]))
    else Aborted("STALE_COORDINATOR_FENCE")
  }

  predicate AllAbsent(attempts: map<AttemptKey, Attempt>, id: OperationId, fence: nat, token: Token) {
    forall role: Role :: AttemptKey(id, fence, token, role) in attempts
                      && attempts[AttemptKey(id, fence, token, role)].state == AbsentConfirmed
  }

  function ConfirmPhysicalDeletion(db: Db, id: OperationId, g: GenerationId, owner: OwnerId, fence: nat,
                                   token: Token): (r: Outcome<Db>) {
    if Authorized(db, id, g, owner, fence, token) && AllAbsent(db.attempts, id, fence, token) then
      Committed(db.(retirements := db.retirements[g := db.retirements[g].(state := PhysicallyDeleted)]))
    else Aborted("PHYSICAL_DELETE_PARTIAL")
  }

  function FinalizeRetirement(db: Db, id: OperationId, g: GenerationId, owner: OwnerId, fence: nat): (r: Outcome<Db>) {
    if !Holds(db, id, owner, fence) || !OnlyRetirementOf(db, id, g) || db.retirements[g].state != PhysicallyDeleted then
      Aborted("RETIREMENT_FENCE_CONFLICT")
    else
      var generations :=
        if g in db.generations && db.generations[g].protection == RetirementInProgress
        then
          db.generations[g := db.generations[g].(protection := Unprotected, version := db.generations[g].version + 1)]
        else db.generations;
      Committed(db.(generations := generations,
                    retirements := db.retirements[g := db.retirements[g].(state := MetadataFinalized)]))
  }
}
