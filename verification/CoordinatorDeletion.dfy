/** What a retirement in PHYSICALLY_DELETED says about its delete attempts, and who may act under a fence. */
module CoordinatorDeletion {
  import opened Wrappers
  import opened CoordinatorDb
  import opened CoordinatorProtocol
  import opened CoordinatorFrames
  import opened CoordinatorInvariants
  import opened CoordinatorTheorems

  type Attempts = map<AttemptKey, Attempt>

  // ------------------------------------------------ confirmed absences

  ghost predicate ConfirmedLasts(a: Attempts, a': Attempts) {
    forall key :: key in a && a[key].state == AbsentConfirmed ==> key in a' && a'[key].state == AbsentConfirmed
  }

  lemma SetLasts(db: Db, id: OperationId, owner: OwnerId, fence: nat, token: Token, role: Option<Role>,
                 uid: Option<nat>,
                 from: set<AttemptState>, to: AttemptState)
    requires AbsentConfirmed in from ==> to == AbsentConfirmed
    ensures var r := SetAttemptState(db, id, owner, fence, token, role, uid, from, to);
      r.Committed? ==> ConfirmedLasts(db.attempts, r.state.attempts)
  {}

  lemma PlanLasts(db: Db, id: OperationId, g: GenerationId, owner: OwnerId, fence: nat, token: Token,
                  plan: map<Role, Attempt>)
    ensures var r := RecordDeletionPlan(db, id, g, owner, fence, token, plan);
      r.Committed? ==> ConfirmedLasts(db.attempts, r.state.attempts)
  {}

  lemma RecordLasts(s: System, c: OwnerId, l: Local, ch: Choice)
    requires l.Busy? && l.pc.Deleting? && ch.record.Some?
    ensures ConfirmedLasts(s.db.attempts, StepDeleting(s, c, l, ch).db.attempts)
  {
    var record := ch.record.value;
    var from := match record.to
      case DeleteIntent => {FenceMarked, DeleteIntent}
      case DeleteAccepted => {DeleteIntent, DeleteAccepted}
      case AbsentConfirmed => {DeleteAccepted, AbsentConfirmed}
      case _ => {};
    SetLasts(s.db, l.op, c, l.fence, l.pc.token, Some(record.role), Some(record.uid), from, record.to);
  }

  lemma WriterLasts(s: System, c: OwnerId, l: Local, ch: Choice)
    requires LocalOf(s, c) == l && l.Busy? && WritesAttempts(l.pc)
    ensures ConfirmedLasts(s.db.attempts, CoordinatorStep(s, c, ch).db.attempts)
  {
    match l.pc {
      case RecordPlan(g, token) => PlanLasts(s.db, l.op, g, c, l.fence, token, ch.plan);
      case MarkFence(_, token) =>
        SetLasts(s.db, l.op, c, l.fence, token, None, None, {Planned, FenceMarked}, FenceMarked);
      case Deleting(_, _) =>
        if ch.record.Some? { RecordLasts(s, c, l, ch); } else { DeletingFrame(s, c, l, ch); }
        assert CoordinatorStep(s, c, ch) == StepDeleting(s, c, l, ch);
    }
  }

  lemma StepLasts(s: System, a: Action)
    ensures ConfirmedLasts(s.db.attempts, Step(s, a).db.attempts)
  {
    if a.Proceed? && LocalOf(s, a.c).Busy? {
      var l := LocalOf(s, a.c);
      if WritesAttempts(l.pc) { WriterLasts(s, a.c, l, a.choice); } else { CallFrame(s, a.c, l, a.choice); }
    }
  }

  // --------------------------------------- how a row becomes PHYSICALLY_DELETED

  predicate Deleted(state: RetState) { state in {PhysicallyDeleted, MetadataFinalized} }

  ghost predicate RowConfirmed(r: Retirement, attempts: Attempts) {
    r.token.Some? && AllAbsent(attempts, r.op, r.fence, r.token.value)
  }

  ghost predicate Confirmed(rets: Rets, attempts: Attempts) {
    forall g :: g in rets && Deleted(rets[g].state) ==> RowConfirmed(rets[g], attempts)
  }

  predicate SameEpoch(r: Retirement, r': Retirement) { r'.op == r.op && r'.fence == r.fence && r'.token == r.token }

  /** Every deleted row was one before, under the same epoch, or has just been confirmed. */
  ghost predicate Enters(rets: Rets, rets': Rets, attempts: Attempts) {
    forall g :: g in rets' && Deleted(rets'[g].state) ==>
      (g in rets && Deleted(rets[g].state) && SameEpoch(rets[g], rets'[g])) || RowConfirmed(rets'[g], attempts)
  }

  lemma EntersConfirmed(rets: Rets, rets': Rets, a: Attempts, a': Attempts)
    requires Confirmed(rets, a) && ConfirmedLasts(a, a') && Enters(rets, rets', a')
    ensures Confirmed(rets', a')
  {
    forall g | g in rets' && Deleted(rets'[g].state) ensures RowConfirmed(rets'[g], a') {
      if g in rets && Deleted(rets[g].state) { assert RowConfirmed(rets[g], a); }
    }
  }

  lemma ConfirmEnters(db: Db, id: OperationId, g: GenerationId, owner: OwnerId, fence: nat, token: Token)
    ensures var r := ConfirmPhysicalDeletion(db, id, g, owner, fence, token);
      r.Committed? ==> Enters(db.retirements, r.state.retirements, db.attempts)
  {}

  lemma AuthorizeEnters(db: Db, id: OperationId, g: GenerationId, owner: OwnerId, fence: nat, token: Token,
                        leaseMs: nat)
    ensures var r := AuthorizePhysicalDeletion(db, id, g, owner, fence, token, leaseMs);
      r.Committed? ==> Enters(db.retirements, r.state.retirements, db.attempts)
  {}

  lemma ReevaluateEnters(db: Db, id: OperationId, owner: OwnerId, fence: nat)
    ensures var r := Reevaluate(db, id, owner, fence);
      r.Committed? ==> Enters(db.retirements, r.state.retirements, db.attempts)
  {}

  lemma RowCallEnters(s: System, c: OwnerId, l: Local, ch: Choice)
    requires LocalOf(s, c) == l && l.Busy? && (l.pc.BeginRet? || l.pc.MarkRetired? || l.pc.FinalizeRet?)
    ensures Enters(s.db.retirements, CoordinatorStep(s, c, ch).db.retirements, s.db.attempts)
  {}

  lemma AuthorizeCallEnters(s: System, c: OwnerId, l: Local, ch: Choice)
    requires LocalOf(s, c) == l && l.Busy? && l.pc.Authorize?
    ensures Enters(s.db.retirements, StepAuthorize(s, c, l, ch).db.retirements, s.db.attempts)
  {
    AuthorizeEnters(s.db, l.op, l.pc.g, c, l.fence, ch.token, ch.leaseMs);
  }

  lemma DeletingEnters(s: System, c: OwnerId, l: Local, ch: Choice)
    requires LocalOf(s, c) == l && l.Busy? && l.pc.Deleting?
    ensures Enters(s.db.retirements, StepDeleting(s, c, l, ch).db.retirements, s.db.attempts)
  {
    if ch.record.None? {
      ConfirmEnters(s.db, l.op, l.pc.g, c, l.fence, l.pc.token);
    } else {
      DeletingFrame(s, c, l, ch);
    }
  }

  lemma StartEnters(s: System, c: OwnerId, l: Local, ch: Choice)
    requires LocalOf(s, c) == l && l.Busy? && l.pc.Start?
    ensures Enters(s.db.retirements, StepStart(s, c, l, ch).db.retirements, s.db.attempts)
  {
    if l.seen == RetirementWaiting {
      StartReevaluates(s, c, l, ch);
      ReevaluateEnters(s.db, l.op, c, l.fence);
    } else {
      StartReads(s, c, l, ch);
    }
  }

  lemma CallEnters(s: System, c: OwnerId, l: Local, ch: Choice)
    requires LocalOf(s, c) == l && l.Busy?
    ensures Enters(s.db.retirements, CoordinatorStep(s, c, ch).db.retirements, s.db.attempts)
  {
    if l.pc.Start? { StartEnters(s, c, l, ch); assert CoordinatorStep(s, c, ch) == StepStart(s, c, l, ch); }
    else if l.pc.Authorize? {
      AuthorizeCallEnters(s, c, l, ch);
      assert CoordinatorStep(s, c, ch) == StepAuthorize(s, c, l, ch);
    }
    else if l.pc.Deleting? {
      DeletingEnters(s, c, l, ch);
      assert CoordinatorStep(s, c, ch) == StepDeleting(s, c, l, ch);
    }
    else if TouchesRetirement(l.pc) { RowCallEnters(s, c, l, ch); }
    else { CallFrame(s, c, l, ch); }
  }

  lemma OutsideEnters(s: System, a: Action)
    requires !a.Proceed?
    ensures Enters(s.db.retirements, Step(s, a).db.retirements, s.db.attempts)
    ensures Step(s, a).db.attempts == s.db.attempts
  {
    if !a.Scheduled? { assert Step(s, a).db.retirements == s.db.retirements; }
  }

  lemma ConfirmedWider(rets: Rets, rets': Rets, a: Attempts, a': Attempts)
    requires Enters(rets, rets', a) && ConfirmedLasts(a, a')
    ensures Enters(rets, rets', a')
  {}

  lemma StepConfirmed(s: System, a: Action)
    requires Confirmed(s.db.retirements, s.db.attempts)
    ensures Confirmed(Step(s, a).db.retirements, Step(s, a).db.attempts)
  {
    var t := Step(s, a);
    StepLasts(s, a);
    if !a.Proceed? { OutsideEnters(s, a); }
    else if LocalOf(s, a.c).Busy? { CallEnters(s, a.c, LocalOf(s, a.c), a.choice); }
    ConfirmedWider(s.db.retirements, t.db.retirements, s.db.attempts, t.db.attempts);
    EntersConfirmed(s.db.retirements, t.db.retirements, s.db.attempts, t.db.attempts);
  }

  lemma {:induction false} RunConfirmed(s: System, actions: seq<Action>)
    requires Confirmed(s.db.retirements, s.db.attempts)
    ensures Confirmed(Run(s, actions).db.retirements, Run(s, actions).db.attempts)
    decreases |actions|
  {
    if actions != [] {
      StepConfirmed(s, actions[0]);
      RunConfirmed(Step(s, actions[0]), actions[1..]);
    }
  }

  /**
    A retirement in PHYSICALLY_DELETED, or finalised after it, has a token and
    three confirmed attempts of exactly its epoch.
   */
  lemma DeletedIsConfirmed(s: System, g: GenerationId)
    requires Reachable(s) && g in s.db.retirements && Deleted(s.db.retirements[g].state)
    ensures s.db.retirements[g].token.Some?
    ensures AllAbsent(s.db.attempts, s.db.retirements[g].op, s.db.retirements[g].fence, s.db.retirements[g].token.value)
  {
    var first: GenerationId, version: nat, actions: seq<Action> :| s == Run(Initial(first, version), actions);
    RunConfirmed(Initial(first, version), actions);
    assert RowConfirmed(s.db.retirements[g], s.db.attempts);
  }

  // --------------------------------------------------- one claimer a fence

  predicate ClaimOk(ops: Ops, l: Local) { l.Busy? ==> l.op in ops && l.fence <= ops[l.op].fence }

  predicate Rivals(l: Local, m: Local) { l.Busy? && m.Busy? && l.op == m.op && l.fence == m.fence }

  ghost predicate Claimants(ops: Ops, locals: map<OwnerId, Local>) {
    && (forall c :: c in locals ==> ClaimOk(ops, locals[c]))
    && (forall c, d :: c in locals && d in locals && Rivals(locals[c], locals[d]) ==> c == d)
  }

  lemma SameClaimants(ops: Ops, ops': Ops, locals: map<OwnerId, Local>, c: OwnerId, l: Local)
    requires Claimants(ops, locals) && OpsCarry(ops, ops')
    requires SameClaim(if c in locals then locals[c] else Idle, l)
    ensures Claimants(ops', locals[c := l])
  {
    var locals' := locals[c := l];
    forall d, e | d in locals' && e in locals' && Rivals(locals'[d], locals'[e]) ensures d == e {
      assert d in locals && e in locals && Rivals(locals[d], locals[e]);
    }
  }

  lemma NewClaimant(ops: Ops, ops': Ops, locals: map<OwnerId, Local>, c: OwnerId, l: Local)
    requires Claimants(ops, locals) && OpsCarry(ops, ops')
    requires l.Busy? && l.op in ops && l.op in ops' && ops[l.op].fence < l.fence == ops'[l.op].fence
    ensures Claimants(ops', locals[c := l])
  {
    forall d | d in locals && d != c ensures !Rivals(locals[d], l) { assert ClaimOk(ops, locals[d]); }
  }

  lemma StepClaimants(s: System, a: Action)
    requires Claimants(s.db.operations, s.locals)
    ensures Claimants(Step(s, a).db.operations, Step(s, a).locals)
  {
    var t := Step(s, a);
    match a {
      case Proceed(c, choice) =>
        if LocalOf(s, c).Busy? {
          CallFrame(s, c, LocalOf(s, c), choice);
          SameClaimants(s.db.operations, t.db.operations, s.locals, c, LocalOf(t, c));
        }
      case Crashed(c) => SameClaimants(s.db.operations, t.db.operations, s.locals, c, Idle);
      case Claimed(c, id, leaseMs) => ClaimKeepsClaimants(s, c, id, leaseMs);
      case _ => OutsideOperations(s, a);
    }
  }

  lemma OutsideOperations(s: System, a: Action)
    requires Claimants(s.db.operations, s.locals) && !a.Proceed? && !a.Crashed? && !a.Claimed?
    ensures Claimants(Step(s, a).db.operations, Step(s, a).locals)
  {
    assert Step(s, a).locals == s.locals && OpsCarry(s.db.operations, Step(s, a).db.operations);
  }

  lemma ClaimKeepsClaimants(s: System, c: OwnerId, id: OperationId, leaseMs: nat)
    requires Claimants(s.db.operations, s.locals)
    ensures Claimants(StepClaim(s, c, id, leaseMs).db.operations, StepClaim(s, c, id, leaseMs).locals)
  {
    var t := StepClaim(s, c, id, leaseMs);
    if t != s { NewClaimant(s.db.operations, t.db.operations, s.locals, c, t.locals[c]); }
  }

  lemma {:induction false} RunClaimants(s: System, actions: seq<Action>)
    requires Claimants(s.db.operations, s.locals)
    ensures Claimants(Run(s, actions).db.operations, Run(s, actions).locals)
    decreases |actions|
  {
    if actions != [] {
      StepClaimants(s, actions[0]);
      RunClaimants(Step(s, actions[0]), actions[1..]);
    }
  }

  /** No two coordinators, live or stale, ever work on one operation under the same fence. */
  lemma OneClaimer(s: System, c: OwnerId, d: OwnerId)
    requires Reachable(s) && LocalOf(s, c).Busy? && LocalOf(s, d).Busy?
    requires LocalOf(s, c).op == LocalOf(s, d).op && LocalOf(s, c).fence == LocalOf(s, d).fence
    ensures c == d
  {
    var first: GenerationId, version: nat, actions: seq<Action> :| s == Run(Initial(first, version), actions);
    RunClaimants(Initial(first, version), actions);
    assert Rivals(s.locals[c], s.locals[d]);
  }
}
