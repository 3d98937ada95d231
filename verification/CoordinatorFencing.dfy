/** Leases, fences and deletion tokens across takeovers. */
module CoordinatorFencing {
  import opened Wrappers
  import opened CoordinatorDb
  import opened CoordinatorProtocol
  import opened CoordinatorFrames
  import opened CoordinatorInvariants
  import opened CoordinatorPreservation
  import opened CoordinatorRetirementSteps
  import opened CoordinatorSafety
  import opened CoordinatorTheorems

  function FenceOf(s: System, id: OperationId): nat {
    if id in s.db.operations then s.db.operations[id].fence else 0
  }

  /** The calls whose SQL repeats owner, fence and lease. */
  predicate FencedCall(l: Local) {
    l.Busy? && (l.pc.Finish? || CleanupPc(l.pc) || (l.pc.Start? && l.seen == RetirementWaiting))
  }

  /** A fenced call by a coordinator that was overtaken, or whose lease has run out, writes nothing. */
  lemma StaleCallWritesNothing(s: System, c: OwnerId, ch: Choice)
    requires FencedCall(LocalOf(s, c)) && !Holds(s.db, LocalOf(s, c).op, c, LocalOf(s, c).fence)
    ensures Step(s, Proceed(c, ch)).db == s.db
  {
    var l := LocalOf(s, c);
    if l.pc.Deleting? { assert StepDeleting(s, c, l, ch).db == s.db; }
    else if l.pc.Start? { assert StepStart(s, c, l, ch).db == s.db; }
  }

  predicate FenceStep(s: System, t: System, id: OperationId) {
    FenceOf(s, id) <= FenceOf(t, id) && (id in s.db.operations ==> id in t.db.operations)
  }

  lemma StepFences(s: System, a: Action, id: OperationId)
    ensures FenceStep(s, Step(s, a), id)
  {
    if a.Proceed? && LocalOf(s, a.c).Busy? { CallFrame(s, a.c, LocalOf(s, a.c), a.choice); }
  }

  lemma {:induction false} FencesGrow(s: System, more: seq<Action>, id: OperationId)
    ensures FenceStep(s, Run(s, more), id)
    decreases |more|
  {
    if more != [] {
      StepFences(s, more[0], id);
      FencesGrow(Step(s, more[0]), more[1..], id);
    }
  }

  predicate ClaimSucceeds(s: System, c: OwnerId, id: OperationId) {
    LocalOf(s, c).Idle? && id in s.db.operations && Claimable(s.db.operations[id], s.db.now)
  }

  /** A coordinator claims nothing while a reconcile of its own is under way. */
  lemma BusyClaimsNothing(s: System, c: OwnerId, id: OperationId, leaseMs: nat)
    requires LocalOf(s, c).Busy?
    ensures Step(s, Claimed(c, id, leaseMs)) == s
  {}

  /** Each fence value has one claimer: a later claim of the operation always gets a larger fence. */
  lemma ClaimsAreOrdered(s: System, c: OwnerId, d: OwnerId, id: OperationId, lease: nat, lease': nat,
                         between: seq<Action>)
    requires ClaimSucceeds(s, c, id)
    requires ClaimSucceeds(Run(Step(s, Claimed(c, id, lease)), between), d, id)
    ensures FenceOf(Step(s, Claimed(c, id, lease)), id)
          < FenceOf(Step(Run(Step(s, Claimed(c, id, lease)), between), Claimed(d, id, lease')), id)
  {
    FencesGrow(Step(s, Claimed(c, id, lease)), between, id);
  }

  /** Once an operation has been taken over, its old owner's fenced calls fail for ever. */
  lemma OvertakenForEver(s: System, between: seq<Action>, c: OwnerId, ch: Choice)
    requires FencedCall(LocalOf(Run(s, between), c))
    requires LocalOf(Run(s, between), c).fence < FenceOf(s, LocalOf(Run(s, between), c).op)
    ensures Step(Run(s, between), Proceed(c, ch)).db == Run(s, between).db
  {
    FencesGrow(s, between, LocalOf(Run(s, between), c).op);
    StaleCallWritesNothing(Run(s, between), c, ch);
  }

  // ------------------------------------------------- delete-attempt rows

  predicate SameAttempt(s: System, t: System, key: AttemptKey) {
    && (key in s.db.attempts <==> key in t.db.attempts)
    && (key in s.db.attempts ==> t.db.attempts[key] == s.db.attempts[key])
  }

  lemma SetOther(db: Db, id: OperationId, owner: OwnerId, fence: nat, token: Token, role: Option<Role>,
                 uid: Option<nat>,
                 from: set<AttemptState>, to: AttemptState, key: AttemptKey)
    requires id != key.op || fence != key.fence
    ensures var r := SetAttemptState(db, id, owner, fence, token, role, uid, from, to);
      r.Committed? ==>
        && (key in r.state.attempts <==> key in db.attempts)
        && (key in db.attempts ==> r.state.attempts[key] == db.attempts[key])
  {}

  lemma RecordOther(db: Db, id: OperationId, g: GenerationId, owner: OwnerId, fence: nat, token: Token,
                    plan: map<Role, Attempt>, key: AttemptKey)
    requires id != key.op || fence != key.fence
    ensures var r := RecordDeletionPlan(db, id, g, owner, fence, token, plan);
      r.Committed? ==>
        && (key in r.state.attempts <==> key in db.attempts)
        && (key in db.attempts ==> r.state.attempts[key] == db.attempts[key])
  {}

  lemma DeletingOther(s: System, c: OwnerId, l: Local, ch: Choice, key: AttemptKey)
    requires l.Busy? && l.pc.Deleting? && (l.op != key.op || l.fence != key.fence)
    ensures SameAttempt(s, StepDeleting(s, c, l, ch), key)
  {
    if ch.record.Some? {
      var from := match ch.record.value.to
        case DeleteIntent => {FenceMarked, DeleteIntent}
        case DeleteAccepted => {DeleteIntent, DeleteAccepted}
        case AbsentConfirmed => {DeleteAccepted, AbsentConfirmed}
        case _ => {};
      SetOther(s.db, l.op, c, l.fence, l.pc.token, Some(ch.record.value.role), Some(ch.record.value.uid), from,
               ch.record.value.to, key);
    }
  }

  lemma OtherAttempts(s: System, c: OwnerId, l: Local, ch: Choice, key: AttemptKey)
    requires LocalOf(s, c) == l && l.Busy? && WritesAttempts(l.pc)
    requires l.op != key.op || l.fence != key.fence
    ensures SameAttempt(s, CoordinatorStep(s, c, ch), key)
  {
    match l.pc {
      case RecordPlan(g, token) => RecordOther(s.db, l.op, g, c, l.fence, token, ch.plan, key);
      case MarkFence(g, token) =>
        SetOther(s.db, l.op, c, l.fence, token, None, None, {Planned, FenceMarked}, FenceMarked, key);
      case Deleting(_, _) => DeletingOther(s, c, l, ch, key);
    }
  }

  lemma StepAttempts(s: System, a: Action, key: AttemptKey)
    requires key.op in s.db.operations && key.fence < FenceOf(s, key.op)
    ensures SameAttempt(s, Step(s, a), key)
  {
    if a.Proceed? {
      var l := LocalOf(s, a.c);
      if l.Busy? && !WritesAttempts(l.pc) { CallFrame(s, a.c, l, a.choice); }
      else if l.Busy? && l.op == key.op && l.fence == key.fence { StaleCallWritesNothing(s, a.c, a.choice); }
      else if l.Busy? { OtherAttempts(s, a.c, l, a.choice, key); }
    }
  }

  /** After a takeover no delete-attempt row of the old fence is ever added, changed or removed. */
  lemma {:induction false} AttemptsFrozen(s: System, more: seq<Action>, key: AttemptKey)
    requires key.op in s.db.operations && key.fence < FenceOf(s, key.op)
    ensures SameAttempt(s, Run(s, more), key)
    decreases |more|
  {
    if more != [] {
      StepAttempts(s, more[0], key);
      StepFences(s, more[0], key.op);
      AttemptsFrozen(Step(s, more[0]), more[1..], key);
    }
  }

  // ---------------------------------------------------- deletion tokens

  predicate DeletionPhase(state: RetState) {
    state in {PhysicalDeletePending, PhysicallyDeleted, MetadataFinalized}
  }

  /** The deletion token a coordinator works with. */
  function TokenOf(l: Local): Option<Token> {
    if l.Idle? then None
    else match l.pc
      case RecordPlan(_, token) => Some(token)
      case MarkFence(_, token) => Some(token)
      case Deleting(_, token) => Some(token)
      case _ => None
  }

  /** Every (operation, fence, token) named by an attempt row or held by a coordinator. */
  ghost predicate Known(s: System, e: Epoch) {
    || (exists key :: key in s.db.attempts && Epoch(key.op, key.fence, key.token) == e)
    || (exists c :: c in s.locals && Held(s.locals[c], e))
  }

  predicate Held(l: Local, e: Epoch) {
    l.Busy? && TokenOf(l).Some? && Epoch(l.op, l.fence, TokenOf(l).value) == e
  }

  /** The epoch is not newer than the retirement row, and equals the row's when the fences match. */
  predicate Covered(ops: Ops, rets: Rets, e: Epoch) {
    && e.op in ops
    && ops[e.op].candidate in rets
    && var r := rets[ops[e.op].candidate];
       r.op == e.op && DeletionPhase(r.state) && (e.fence < r.fence || (e.fence == r.fence && r.token == Some(e.token)))
  }

  ghost predicate RowTokens(ops: Ops, rets: Rets) {
    forall g :: g in rets && DeletionPhase(rets[g].state) ==>
      rets[g].token.Some? && rets[g].op in ops && rets[g].fence <= ops[rets[g].op].fence
  }

  ghost predicate Tokens(s: System) {
    && RowTokens(s.db.operations, s.db.retirements)
    && (forall e :: Known(s, e) ==> Covered(s.db.operations, s.db.retirements, e))
    && (forall e, e' :: Known(s, e) && Known(s, e') && e.op == e'.op && e.fence == e'.fence ==> e == e')
  }

  /** Retirement rows in deletion keep their operation, fence and token, and none enters deletion. */
  ghost predicate RetsCarry(rets: Rets, rets': Rets) {
    && (forall g :: g in rets ==>
          && g in rets' && rets'[g].op == rets[g].op
          && (DeletionPhase(rets[g].state) ==>
                DeletionPhase(rets'[g].state) && rets'[g].fence == rets[g].fence && rets'[g].token == rets[g].token))
    && (forall g :: g in rets' && DeletionPhase(rets'[g].state) ==> g in rets && DeletionPhase(rets[g].state))
  }

  lemma TokensStay(s: System, t: System)
    requires Tokens(s)
    requires OpsGrow(s.db.operations, t.db.operations) && forall id :: FenceStep(s, t, id)
    requires RetsCarry(s.db.retirements, t.db.retirements)
    requires forall e :: Known(t, e) ==> Known(s, e)
    ensures Tokens(t)
  {
    assert RowTokens(t.db.operations, t.db.retirements) by {
      forall g | g in t.db.retirements && DeletionPhase(t.db.retirements[g].state)
        ensures t.db.retirements[g].token.Some? && t.db.retirements[g].op in t.db.operations
        ensures t.db.retirements[g].fence <= t.db.operations[t.db.retirements[g].op].fence
      {
        assert FenceStep(s, t, t.db.retirements[g].op);
      }
    }
  }

  lemma DeletingCarries(s: System, c: OwnerId, l: Local, ch: Choice)
    requires LocalOf(s, c) == l && l.Busy? && l.pc.Deleting?
    ensures RetsCarry(s.db.retirements, StepDeleting(s, c, l, ch).db.retirements)
  {
    DeletingFrame(s, c, l, ch);
  }

  lemma BeginCarries(db: Db, id: OperationId, g: GenerationId)
    ensures var r := BeginRetirement(db, id, g); r.Committed? ==> RetsCarry(db.retirements, r.state.retirements)
  {}

  lemma MarkRetiredCarries(db: Db, id: OperationId, g: GenerationId, owner: OwnerId, fence: nat)
    ensures var r := MarkGenerationRetired(db, id, g, owner, fence);
      r.Committed? ==> RetsCarry(db.retirements, r.state.retirements)
  {}

  lemma FinishCarries(db: Db, id: OperationId, g: GenerationId, owner: OwnerId, fence: nat)
    ensures var r := FinalizeRetirement(db, id, g, owner, fence);
      r.Committed? ==> RetsCarry(db.retirements, r.state.retirements)
  {}

  lemma RowCallCarries(s: System, c: OwnerId, l: Local, ch: Choice)
    requires LocalOf(s, c) == l && l.Busy? && (l.pc.BeginRet? || l.pc.MarkRetired? || l.pc.FinalizeRet?)
    ensures RetsCarry(s.db.retirements, CoordinatorStep(s, c, ch).db.retirements)
  {
    match l.pc {
      case BeginRet(previous) => BeginCarries(s.db, l.op, previous);
      case MarkRetired(g) => MarkRetiredCarries(s.db, l.op, g, c, l.fence);
      case FinalizeRet(g) => FinishCarries(s.db, l.op, g, c, l.fence);
    }
  }

  /** Retirement rows that are not yet in deletion may move among themselves. */
  lemma CallCarries(s: System, c: OwnerId, l: Local, ch: Choice)
    requires LocalOf(s, c) == l && l.Busy? && !l.pc.Start? && !l.pc.Authorize?
    ensures RetsCarry(s.db.retirements, CoordinatorStep(s, c, ch).db.retirements)
  {
    if l.pc.Deleting? { DeletingCarries(s, c, l, ch); }
    else if !TouchesRetirement(l.pc) { CallFrame(s, c, l, ch); }
    else { RowCallCarries(s, c, l, ch); }
  }

  lemma StartCarries(s: System, c: OwnerId, l: Local, ch: Choice)
    requires Inv(s) && LocalOf(s, c) == l && l.Busy? && l.pc.Start?
    ensures RetsCarry(s.db.retirements, StepStart(s, c, l, ch).db.retirements)
  {
    if l.seen == RetirementWaiting {
      StartReevaluates(s, c, l, ch);
      ReevaluateCarries(s, c, l.op, l.fence);
    } else { StartReads(s, c, l, ch); }
  }

  lemma ReevaluateRows(db: Db, id: OperationId, owner: OwnerId, fence: nat)
    requires Reevaluate(db, id, owner, fence).Committed?
    requires OnlyRetirementOf(db, id, db.operations[id].candidate)
    requires db.retirements[db.operations[id].candidate].state == WaitingEligibility
    ensures RetsCarry(db.retirements, Reevaluate(db, id, owner, fence).state.retirements)
  {}

  lemma ReevaluateCarries(s: System, c: OwnerId, id: OperationId, fence: nat)
    requires Inv(s)
    ensures RetsCarry(s.db.retirements, Done(s, c, Reevaluate(s.db, id, c, fence)).db.retirements)
  {
    if Reevaluate(s.db, id, c, fence).Committed? {
      assert OnlyRetirementOf(s.db, id, s.db.operations[id].candidate)
          && s.db.retirements[s.db.operations[id].candidate].state == WaitingEligibility by {
        assert OperationOk(s.db.operations[id], id, s.db.operations, s.db.generations, s.db.retirements, s.hist);
        OwnRow(s, id);
      }
      ReevaluateRows(s.db, id, c, fence);
    }
  }

  // Where epochs come from.

  lemma CallKnows(s: System, c: OwnerId, l: Local, ch: Choice, e: Epoch)
    requires LocalOf(s, c) == l && l.Busy? && !WritesAttempts(l.pc) && !l.pc.Authorize?
    requires Known(CoordinatorStep(s, c, ch), e)
    ensures Known(s, e)
  {
    CallFrame(s, c, l, ch);
    NoToken(s, c, l, ch);
    var t := CoordinatorStep(s, c, ch);
    if !exists key :: key in t.db.attempts && Epoch(key.op, key.fence, key.token) == e {
      var d :| d in t.locals && Held(t.locals[d], e);
      assert d != c ==> d in s.locals && s.locals[d] == t.locals[d];
    }
  }

  lemma NoToken(s: System, c: OwnerId, l: Local, ch: Choice)
    requires LocalOf(s, c) == l && l.Busy? && !WritesAttempts(l.pc) && !l.pc.Authorize?
    ensures TokenOf(LocalOf(CoordinatorStep(s, c, ch), c)).None?
  {
    if l.pc.Start? { assert TokenOf(LocalOf(StepStart(s, c, l, ch), c)).None?; }
  }

  lemma WriterKnows(s: System, c: OwnerId, l: Local, ch: Choice, e: Epoch)
    requires LocalOf(s, c) == l && l.Busy? && WritesAttempts(l.pc)
    requires Known(CoordinatorStep(s, c, ch), e)
    ensures Known(s, e)
  {
    var t := CoordinatorStep(s, c, ch);
    var own := Epoch(l.op, l.fence, TokenOf(l).value);
    assert Held(s.locals[c], own) && Known(s, own);
    CallFrame(s, c, l, ch);
    NewAttempts(s, c, l, ch);
    if key :| key in t.db.attempts && Epoch(key.op, key.fence, key.token) == e {
    } else {
      var d :| d in t.locals && Held(t.locals[d], e);
      if d == c { SameToken(s, c, l, ch); }
    }
  }

  lemma NewAttempts(s: System, c: OwnerId, l: Local, ch: Choice)
    requires LocalOf(s, c) == l && l.Busy? && WritesAttempts(l.pc)
    ensures forall key :: key in CoordinatorStep(s, c, ch).db.attempts && key !in s.db.attempts ==>
      Epoch(key.op, key.fence, key.token) == Epoch(l.op, l.fence, TokenOf(l).value)
  {
    if l.pc.Deleting? { assert StepDeleting(s, c, l, ch).db.attempts.Keys == s.db.attempts.Keys; }
  }

  lemma SameToken(s: System, c: OwnerId, l: Local, ch: Choice)
    requires LocalOf(s, c) == l && l.Busy? && WritesAttempts(l.pc)
    ensures var l' := LocalOf(CoordinatorStep(s, c, ch), c);
      l'.Idle? || (l'.op == l.op && l'.fence == l.fence && (TokenOf(l').None? || TokenOf(l') == TokenOf(l)))
  {
    if l.pc.Deleting? {
      var l' := LocalOf(StepDeleting(s, c, l, ch), c);
      assert l'.Idle? || (l'.op == l.op && l'.fence == l.fence && (TokenOf(l').None? || TokenOf(l') == TokenOf(l)));
    }
  }

  /** Authorisation under a fence either reuses that fence's token or is the first to name one. */
  lemma AuthorizeTokens(s: System, c: OwnerId, l: Local, ch: Choice)
    requires Inv(s) && Tokens(s) && LocalOf(s, c) == l && l.Busy? && l.pc.Authorize?
    ensures Tokens(CoordinatorStep(s, c, ch))
  {
    var r := AuthorizePhysicalDeletion(s.db, l.op, l.pc.g, c, l.fence, ch.token, ch.leaseMs);
    AuthorizeShape(s, c, l, ch, r);
    if r.Aborted? { FailTokens(s, c); } else { AuthorizedTokens(s, c, l, ch, r); }
  }

  lemma FailTokens(s: System, c: OwnerId)
    requires Tokens(s)
    ensures Tokens(Fail(s, c))
  {
    forall e | Known(Fail(s, c), e) ensures Known(s, e) { FailKnows(s, c, e); }
    TokensStay(s, Fail(s, c));
  }

  lemma AuthorizedTokens(s: System, c: OwnerId, l: Local, ch: Choice, r: Outcome<Db>)
    requires Inv(s) && Tokens(s) && LocalOf(s, c) == l && l.Busy? && l.pc.Authorize?
    requires r == AuthorizePhysicalDeletion(s.db, l.op, l.pc.g, c, l.fence, ch.token, ch.leaseMs) && r.Committed?
    requires l.pc.g in r.state.retirements && r.state.retirements[l.pc.g].token.Some?
    ensures Tokens(Await(s, c, r, RecordPlan(l.pc.g, r.state.retirements[l.pc.g].token.value)))
  {
    BusyOk(s, c, l);
    CleanupFacts(s, l.op, l.pc.g);
    AuthorizedRow(s, Await(s, c, r, RecordPlan(l.pc.g, r.state.retirements[l.pc.g].token.value)), c, l, l.pc.g);
  }

  lemma FailKnows(s: System, c: OwnerId, e: Epoch)
    requires Known(Fail(s, c), e)
    ensures Known(s, e)
  {
    if !exists key :: key in s.db.attempts && Epoch(key.op, key.fence, key.token) == e {
      var d :| d in Fail(s, c).locals && Held(Fail(s, c).locals[d], e);
      assert d != c && Held(s.locals[d], e);
    }
  }

  lemma AuthorizedRow(s: System, t: System, c: OwnerId, l: Local, g: GenerationId)
    requires Tokens(s) && LocalOf(s, c) == l && l.Busy?
    requires l.op in s.db.operations && s.db.operations[l.op].candidate == g && s.db.operations[l.op].fence == l.fence
    requires l.op in t.db.operations && t.db.operations[l.op].candidate == g && t.db.operations[l.op].fence == l.fence
    requires t.db.operations == s.db.operations[l.op := t.db.operations[l.op]] && t.db.attempts == s.db.attempts
    requires g in s.db.retirements && g in t.db.retirements
    requires t.db.retirements == s.db.retirements[g := t.db.retirements[g]]
    requires var r0, r1 := s.db.retirements[g], t.db.retirements[g];
      && r0.op == l.op && r1.op == l.op && r1.state == PhysicalDeletePending && r1.fence == l.fence && r1.token.Some?
      && r0.state in {LogicallyRetired, PhysicalDeletePending}
      && (r0.state == PhysicalDeletePending && r0.fence == l.fence && r0.token.Some? ==> r1.token == r0.token)
    requires c in t.locals && t.locals == s.locals[c := t.locals[c]]
    requires t.locals[c] == l.(pc := RecordPlan(g, t.db.retirements[g].token.value))
    ensures Tokens(t)
  {
    var fresh' := Epoch(l.op, l.fence, t.db.retirements[g].token.value);
    forall e | Known(t, e) ensures e == fresh' || Known(s, e) {
      if !exists key :: key in t.db.attempts && Epoch(key.op, key.fence, key.token) == e {
        var d :| d in t.locals && Held(t.locals[d], e);
        if d != c { assert Held(s.locals[d], e); }
      }
    }
    forall e | Known(s, e) ensures Covered(t.db.operations, t.db.retirements, e) {
      assert Covered(s.db.operations, s.db.retirements, e);
    }
    forall e, e' | Known(t, e) && Known(t, e') && e.op == e'.op && e.fence == e'.fence ensures e == e' {
      assert Known(s, e) ==> Covered(s.db.operations, s.db.retirements, e);
      assert Known(s, e') ==> Covered(s.db.operations, s.db.retirements, e');
    }
  }

  lemma CallTokens(s: System, c: OwnerId, l: Local, ch: Choice)
    requires Tokens(s) && LocalOf(s, c) == l && l.Busy? && !l.pc.Authorize?
    requires RetsCarry(s.db.retirements, CoordinatorStep(s, c, ch).db.retirements)
    ensures Tokens(CoordinatorStep(s, c, ch))
  {
    var t := CoordinatorStep(s, c, ch);
    forall e | Known(t, e) ensures Known(s, e) {
      if WritesAttempts(l.pc) { WriterKnows(s, c, l, ch, e); } else { CallKnows(s, c, l, ch, e); }
    }
    forall id ensures FenceStep(s, t, id) { StepFences(s, Proceed(c, ch), id); }
    CallFrame(s, c, l, ch);
    TokensStay(s, t);
  }

  lemma CoordinatorTokens(s: System, c: OwnerId, ch: Choice)
    requires Inv(s) && Tokens(s)
    ensures Tokens(CoordinatorStep(s, c, ch))
  {
    var l := LocalOf(s, c);
    if l.Busy? {
      if l.pc.Authorize? {
        AuthorizeTokens(s, c, l, ch);
      } else {
        ProceedCarries(s, c, l, ch);
        CallTokens(s, c, l, ch);
      }
    }
  }

  lemma ProceedCarries(s: System, c: OwnerId, l: Local, ch: Choice)
    requires Inv(s) && LocalOf(s, c) == l && l.Busy? && !l.pc.Authorize?
    ensures RetsCarry(s.db.retirements, CoordinatorStep(s, c, ch).db.retirements)
  {
    if l.pc.Start? { StartCarries(s, c, l, ch); } else { CallCarries(s, c, l, ch); }
  }

  lemma OutsideCarries(s: System, a: Action)
    requires !a.Proceed?
    ensures RetsCarry(s.db.retirements, Step(s, a).db.retirements)
    ensures OpsGrow(s.db.operations, Step(s, a).db.operations)
  {
    if a.Claimed? { assert StepClaim(s, a.c, a.id, a.leaseMs).db.retirements == s.db.retirements; }
    else if !a.Requested? && !a.Scheduled? {
      assert Step(s, a).db.retirements == s.db.retirements && Step(s, a).db.operations == s.db.operations;
    }
  }

  lemma OutsideKnows(s: System, a: Action, e: Epoch)
    requires !a.Proceed? && Known(Step(s, a), e)
    ensures Known(s, e)
  {
    if a.Crashed? {
      FailKnows(s, a.c, e);
    } else if a.Claimed? {
      ClaimKnows(s, a.c, a.id, a.leaseMs, e);
    } else {
      assert Step(s, a).locals == s.locals && Step(s, a).db.attempts == s.db.attempts;
    }
  }

  lemma OutsideTokens(s: System, a: Action)
    requires Tokens(s) && !a.Proceed?
    ensures Tokens(Step(s, a))
  {
    forall e | Known(Step(s, a), e) ensures Known(s, e) { OutsideKnows(s, a, e); }
    forall id ensures FenceStep(s, Step(s, a), id) { StepFences(s, a, id); }
    OutsideCarries(s, a);
    TokensStay(s, Step(s, a));
  }

  lemma StepTokens(s: System, a: Action)
    requires Inv(s) && Tokens(s)
    ensures Tokens(Step(s, a))
  {
    if a.Proceed? { CoordinatorTokens(s, a.c, a.choice); } else { OutsideTokens(s, a); }
  }

  lemma ClaimKnows(s: System, c: OwnerId, id: OperationId, leaseMs: nat, e: Epoch)
    requires Known(StepClaim(s, c, id, leaseMs), e)
    ensures Known(s, e)
  {
    var t := StepClaim(s, c, id, leaseMs);
    if !exists key :: key in s.db.attempts && Epoch(key.op, key.fence, key.token) == e {
      var d :| d in t.locals && Held(t.locals[d], e);
      assert d in s.locals && Held(s.locals[d], e);
    }
  }

  lemma {:induction false} RunTokens(s: System, actions: seq<Action>)
    requires Inv(s) && Tokens(s)
    ensures Tokens(Run(s, actions))
    decreases |actions|
  {
    if actions != [] {
      KeepsStep(s, actions[0]);
      StepTokens(s, actions[0]);
      RunTokens(Step(s, actions[0]), actions[1..]);
    }
  }

  /** One operation and fence name one deletion token, in attempt rows and in every coordinator's hands. */
  lemma OneTokenPerFence(s: System, e: Epoch, e': Epoch)
    requires Reachable(s) && Known(s, e) && Known(s, e') && e.op == e'.op && e.fence == e'.fence
    ensures e.token == e'.token
  {
    var g: GenerationId, version: nat, actions: seq<Action> :| s == Run(Initial(g, version), actions);
    InitialInv(g, version);
    RunTokens(Initial(g, version), actions);
  }
}
