/**
  Over every run: an operation and a journal get further only on what a
  coordinator observed. Each observation is a fact of the step that made it.
 */
module CoordinatorMilestones {
  import opened Wrappers
  import opened CoordinatorDb
  import opened CoordinatorProtocol
  import opened CoordinatorFrames
  import opened CoordinatorInvariants

  datatype Fact =
    | SnapshotLoaded(id: OperationId)
    | CaughtUp(id: OperationId)
    | Left(id: OperationId, state: GenState)
    | NoJournalYet(id: OperationId, fence: nat)
    | Opened(k: nat, fence: nat)
    | RouterSaw(k: nat)
    | PointerNamed(id: OperationId, previous: Option<GenerationId>)

  type Facts = set<Fact>

  predicate HasJournal(journals: seq<Journal>, id: OperationId) {
    exists k :: 0 <= k < |journals| && journals[k].op == id
  }

  /** The candidate is there and in another state. */
  function Elsewhere(db: Db, id: OperationId, state: GenState): Facts
    requires id in db.operations
  {
    var g := db.operations[id].candidate;
    if g in db.generations && db.generations[g].state != state then {Left(id, state)} else {}
  }

  /** What the call that coordinator `c` is about to make observes. */
  function Observed(s: System, c: OwnerId, ch: Choice): Facts {
    var l := LocalOf(s, c);
    if l.Idle? || l.op !in s.db.operations then {}
    else
      match l.pc
      case Start =>
        if l.seen == LoadingSnapshot && ch.observed then {SnapshotLoaded(l.op)} + Elsewhere(s.db, l.op, Loading)
        else if l.seen == WaitingForCatchup && ch.observed then {CaughtUp(l.op)} + Elsewhere(s.db, l.op, CatchingUp)
        else if l.seen == Promoted && s.db.pointer.generation == s.db.operations[l.op].candidate
        then {PointerNamed(l.op, s.db.pointer.previous)}
        else {}
      case Advance(from, next, _) =>
        if SetGenerationState(s.db, s.db.operations[l.op].candidate, from, next).Committed? then {Left(l.op, from)}
        else {}
      case SawPointer(_, _) => if HasJournal(s.db.journals, l.op) then {} else {NoJournalYet(l.op, l.fence)}
      case Prepare(_, _) => {Opened(|s.db.journals|, l.fence)}
      case Verify(k) => if ch.observed then {RouterSaw(k)} else {}
      case _ => {}
  }

  function ObservedBy(s: System, a: Action): Facts { if a.Proceed? then Observed(s, a.c, a.choice) else {} }

  /** Some step of the run observed it. */
  ghost predicate Happened(start: System, actions: seq<Action>, fact: Fact) {
    exists i: nat :: i < |actions| && fact in ObservedBy(Run(start, actions[..i]), actions[i])
  }

  function ObservedOver(s: System, actions: seq<Action>): Facts
    decreases |actions|
  {
    if actions == [] then {} else ObservedBy(s, actions[0]) + ObservedOver(Step(s, actions[0]), actions[1..])
  }

  lemma RunHead(s: System, actions: seq<Action>, i: nat)
    requires actions != [] && i <= |actions[1..]|
    ensures Run(s, actions[..i + 1]) == Run(Step(s, actions[0]), actions[1..][..i])
  {
    assert actions[..i + 1][0] == actions[0] && actions[..i + 1][1..] == actions[1..][..i];
  }

  lemma {:induction false} ObservedOverMeans(s: System, actions: seq<Action>, fact: Fact)
    requires fact in ObservedOver(s, actions)
    ensures Happened(s, actions, fact)
    decreases |actions|
  {
    if fact in ObservedBy(s, actions[0]) {
      assert Run(s, actions[..0]) == s;
    } else {
      ObservedOverMeans(Step(s, actions[0]), actions[1..], fact);
      var i: nat :| i < |actions[1..]|
                 && fact in ObservedBy(Run(Step(s, actions[0]), actions[1..][..i]), actions[1..][i]);
      RunHead(s, actions, i);
      assert actions[1..][i] == actions[i + 1];
    }
  }

  // ----------------------------------------------------------- invariant

  predicate PastLoading(state: OpState) {
    state in {WaitingForCatchup, ValidatingOp, ReadyToPromote, Promoting, Promoted, RollbackProtected}
  }

  predicate PastCatchup(state: OpState) {
    state in {ValidatingOp, ReadyToPromote, Promoting, Promoted, RollbackProtected}
  }

  /** A journal of the operation's own was carried to its end. */
  predicate Finished(journals: seq<Journal>, id: OperationId) {
    exists k :: 0 <= k < |journals| && journals[k].op == id && journals[k].phase == GenerationFinalized
  }

  /** The pointer stood at the candidate, and the generation it came from has a retirement row. */
  ghost predicate HandedOver(rets: set<GenerationId>, id: OperationId, facts: Facts) {
    exists previous :: PointerNamed(id, previous) in facts && (previous.Some? ==> previous.value in rets)
  }

  /** What the operation must have gone through to be in this state. */
  ghost predicate Earned(journals: seq<Journal>, rets: set<GenerationId>, id: OperationId, state: OpState,
                         facts: Facts)
  {
    && (PastLoading(state) ==> SnapshotLoaded(id) in facts && Left(id, Loading) in facts)
    && (PastCatchup(state) ==> CaughtUp(id) in facts && Left(id, CatchingUp) in facts)
    && (state in {Promoted, RollbackProtected} ==> Finished(journals, id))
    && (state == RollbackProtected ==> HandedOver(rets, id, facts))
  }

  predicate OwnJournal(journals: seq<Journal>, k: nat, id: OperationId) { k < |journals| && journals[k].op == id }

  ghost predicate LocalEarned(journals: seq<Journal>, rets: set<GenerationId>, l: Local, facts: Facts) {
    l.Busy? ==>
      && Earned(journals, rets, l.op, l.seen, facts)
      && match l.pc
         case Finish(to) => Earned(journals, rets, l.op, to, facts)
         case Advance(from, _, to) => Earned(journals, rets, l.op, to, facts + {Left(l.op, from)})
         case Prepare(_, _) => l.seen == ReadyToPromote && NoJournalYet(l.op, l.fence) in facts
         case Cas(k) => l.seen == Promoting && OwnJournal(journals, k, l.op)
         case Verify(k) => l.seen == Promoting && OwnJournal(journals, k, l.op)
         case FinalizeJournal(k) => l.seen == Promoting && OwnJournal(journals, k, l.op)
         case SawPointer(_, _) => l.seen == ReadyToPromote
         case BeginRet(previous) => l.seen == Promoted && PointerNamed(l.op, Some(previous)) in facts
         case _ => true
  }

  ghost predicate JournalEarned(j: Journal, k: nat, facts: Facts) {
    && (j.phase in {RouterVerified, GenerationFinalized} ==> RouterSaw(k) in facts)
    && exists fence :: Opened(k, fence) in facts && NoJournalYet(j.op, fence) in facts
  }

  ghost predicate JournalsEarned(journals: seq<Journal>, facts: Facts) {
    forall k :: 0 <= k < |journals| ==> JournalEarned(journals[k], k, facts)
  }

  ghost predicate OpsEarned(ops: Ops, journals: seq<Journal>, rets: set<GenerationId>, facts: Facts) {
    forall id :: id in ops ==> Earned(journals, rets, id, ops[id].state, facts)
  }

  ghost predicate AllEarned(s: System, facts: Facts) {
    && OpsEarned(s.db.operations, s.db.journals, s.db.retirements.Keys, facts)
    && JournalsEarned(s.db.journals, facts)
    && forall c :: c in s.locals ==> LocalEarned(s.db.journals, s.db.retirements.Keys, s.locals[c], facts)
  }

  // ------------------------------------------------------- what only grows

  /** Journals keep their operation and stay finalised; retirement rows and facts stay. */
  ghost predicate JournalsGrow(journals: seq<Journal>, journals': seq<Journal>) {
    && |journals| <= |journals'|
    && forall k :: 0 <= k < |journals| ==>
         journals'[k].op == journals[k].op
         && (journals[k].phase == GenerationFinalized ==> journals'[k].phase == GenerationFinalized)
  }

  lemma EarnedStays(j: seq<Journal>, j': seq<Journal>, r: set<GenerationId>, r': set<GenerationId>, id: OperationId,
                    state: OpState, facts: Facts, facts': Facts)
    requires Earned(j, r, id, state, facts) && JournalsGrow(j, j') && r <= r' && facts <= facts'
    ensures Earned(j', r', id, state, facts')
  {
    if Finished(j, id) {
      var k :| 0 <= k < |j| && j[k].op == id && j[k].phase == GenerationFinalized;
      assert j'[k].op == id && j'[k].phase == GenerationFinalized;
    }
  }

  lemma LocalEarnedStays(j: seq<Journal>, j': seq<Journal>, r: set<GenerationId>, r': set<GenerationId>, l: Local,
                         facts: Facts, facts': Facts)
    requires LocalEarned(j, r, l, facts) && JournalsGrow(j, j') && r <= r' && facts <= facts'
    ensures LocalEarned(j', r', l, facts')
  {
    if l.Busy? {
      EarnedStays(j, j', r, r', l.op, l.seen, facts, facts');
      if l.pc.Finish? { EarnedStays(j, j', r, r', l.op, l.pc.to, facts, facts'); }
      if l.pc.Advance? {
        EarnedStays(j, j', r, r', l.op, l.pc.to, facts + {Left(l.op, l.pc.from)}, facts' + {Left(l.op, l.pc.from)});
      }
    }
  }

  /** What one call earns: its coordinator's next call, the state of its operation, and the journals. */
  ghost predicate CallEarned(s: System, t: System, c: OwnerId, l: Local, facts: Facts)
    requires l.Busy?
  {
    var r := t.db.retirements.Keys;
    && JournalsGrow(s.db.journals, t.db.journals) && s.db.retirements.Keys <= r
    && JournalsEarned(t.db.journals, facts)
    && LocalEarned(t.db.journals, r, LocalOf(t, c), facts)
    && forall id :: id in t.db.operations ==>
         || (id in s.db.operations && t.db.operations[id].state == s.db.operations[id].state)
         || Earned(t.db.journals, r, id, t.db.operations[id].state, facts)
  }

  lemma JournalsMore(journals: seq<Journal>, facts: Facts, more: Facts)
    requires JournalsEarned(journals, facts)
    ensures JournalsEarned(journals, facts + more)
  {
    forall k | 0 <= k < |journals| ensures JournalEarned(journals[k], k, facts + more) {
      assert JournalEarned(journals[k], k, facts);
    }
  }

  // ------------------------------------------------------------ one call

  lemma BuildEarns(s: System, c: OwnerId, l: Local, ch: Choice, facts: Facts)
    requires LocalOf(s, c) == l && l.Busy? && l.pc.Start? && PastOrInBuild(l.seen)
    requires Earned(s.db.journals, s.db.retirements.Keys, l.op, l.seen, facts)
    ensures var t := StepStart(s, c, l, ch);
      LocalEarned(s.db.journals, s.db.retirements.Keys, LocalOf(t, c), facts + Observed(s, c, ch))
  {}

  predicate PastOrInBuild(state: OpState) {
    state in {RebuildRequested, CreatingGeneration, LoadingSnapshot, WaitingForCatchup, ValidatingOp, ReadyToPromote}
  }

  lemma PromoteStartEarns(s: System, c: OwnerId, l: Local, ch: Choice, facts: Facts)
    requires LocalOf(s, c) == l && l.Busy? && l.pc.Start? && l.seen in {Promoting, Promoted}
    requires Earned(s.db.journals, s.db.retirements.Keys, l.op, l.seen, facts)
    ensures var t := StepStart(s, c, l, ch);
      LocalEarned(s.db.journals, s.db.retirements.Keys, LocalOf(t, c), facts + Observed(s, c, ch))
  {
    if l.seen == Promoted && l.op in s.db.operations
       && s.db.pointer.generation == s.db.operations[l.op].candidate && s.db.pointer.previous.None? {
      assert PointerNamed(l.op, None) in Observed(s, c, ch);
      assert HandedOver(s.db.retirements.Keys, l.op, facts + Observed(s, c, ch));
    }
  }

  lemma CleanupStartEarns(s: System, c: OwnerId, l: Local, ch: Choice, facts: Facts)
    requires LocalOf(s, c) == l && l.Busy? && l.pc.Start? && l.seen == CleaningUp
    ensures var t := StepStart(s, c, l, ch);
      LocalEarned(s.db.journals, s.db.retirements.Keys, LocalOf(t, c), facts)
  {}

  lemma StartEarns(s: System, c: OwnerId, l: Local, ch: Choice, facts: Facts)
    requires LocalOf(s, c) == l && l.Busy? && l.pc.Start?
    requires LocalEarned(s.db.journals, s.db.retirements.Keys, l, facts) && JournalsEarned(s.db.journals, facts)
    ensures CallEarned(s, StepStart(s, c, l, ch), c, l, facts + Observed(s, c, ch))
  {
    StartFrame(s, c, l, ch);
    JournalsMore(s.db.journals, facts, Observed(s, c, ch));
    if l.seen == RetirementWaiting {
      StartReevaluates(s, c, l, ch);
      ReevaluateEarns(s.db, l.op, c, l.fence, facts + Observed(s, c, ch));
    } else {
      StartReads(s, c, l, ch);
      if PastOrInBuild(l.seen) { BuildEarns(s, c, l, ch, facts); }
      else if l.seen in {Promoting, Promoted} { PromoteStartEarns(s, c, l, ch, facts); }
      else if l.seen == CleaningUp { CleanupStartEarns(s, c, l, ch, facts + Observed(s, c, ch)); }
    }
  }

  lemma ReevaluateEarns(db: Db, id: OperationId, owner: OwnerId, fence: nat, facts: Facts)
    ensures var r := Reevaluate(db, id, owner, fence);
      r.Committed? ==>
        && r.state.retirements.Keys == db.retirements.Keys
        && forall x :: x in r.state.operations ==>
             || (x in db.operations && r.state.operations[x].state == db.operations[x].state)
             || Earned(r.state.journals, r.state.retirements.Keys, x, r.state.operations[x].state, facts)
  {}

  lemma FinishEarns(s: System, c: OwnerId, l: Local, ch: Choice, facts: Facts)
    requires LocalOf(s, c) == l && l.Busy? && l.pc.Finish?
    requires LocalEarned(s.db.journals, s.db.retirements.Keys, l, facts) && JournalsEarned(s.db.journals, facts)
    ensures CallEarned(s, CoordinatorStep(s, c, ch), c, l, facts + Observed(s, c, ch))
  {
    FinishFrame(s, c, l, ch);
    assert Observed(s, c, ch) == {};
    assert facts + {} == facts;
  }

  lemma AdvanceEarns(s: System, c: OwnerId, l: Local, ch: Choice, facts: Facts)
    requires LocalOf(s, c) == l && l.Busy? && l.pc.Advance?
    requires LocalEarned(s.db.journals, s.db.retirements.Keys, l, facts) && JournalsEarned(s.db.journals, facts)
    ensures CallEarned(s, StepAdvance(s, c, l), c, l, facts + Observed(s, c, ch))
  {
    JournalsMore(s.db.journals, facts, Observed(s, c, ch));
  }

  /** A coordinator prepares a journal only if it found none of its operation's own. */
  lemma LookEarns(s: System, c: OwnerId, l: Local, ch: Choice, facts: Facts)
    requires LocalOf(s, c) == l && l.Busy? && (l.pc.SawPointer? || l.pc.Prepare?)
    requires l.op in s.db.operations
    requires LocalEarned(s.db.journals, s.db.retirements.Keys, l, facts) && JournalsEarned(s.db.journals, facts)
    ensures CallEarned(s, CoordinatorStep(s, c, ch), c, l, facts + Observed(s, c, ch))
  {
    var more := facts + Observed(s, c, ch);
    JournalsMore(s.db.journals, facts, Observed(s, c, ch));
    var t := CoordinatorStep(s, c, ch);
    if l.pc.Prepare? {
      forall k | 0 <= k < |t.db.journals| ensures JournalEarned(t.db.journals[k], k, more) {
        if k < |s.db.journals| { assert JournalEarned(s.db.journals[k], k, more); }
        else { assert Opened(k, l.fence) in more && NoJournalYet(t.db.journals[k].op, l.fence) in more; }
      }
    }
  }

  /** One journal moves on in its phase. */
  predicate PhaseMoves(journals: seq<Journal>, journals': seq<Journal>, k: nat) {
    && k < |journals| == |journals'| && journals' == journals[k := journals'[k]]
    && journals'[k].op == journals[k].op
    && (journals[k].phase == GenerationFinalized ==> journals'[k].phase == GenerationFinalized)
  }

  lemma PhaseEarns(journals: seq<Journal>, journals': seq<Journal>, k: nat, facts: Facts)
    requires JournalsEarned(journals, facts) && (journals' == journals || PhaseMoves(journals, journals', k))
    requires k < |journals'| && journals'[k].phase in {RouterVerified, GenerationFinalized} ==> RouterSaw(k) in facts
    ensures JournalsGrow(journals, journals') && JournalsEarned(journals', facts)
  {
    forall m | 0 <= m < |journals'| ensures JournalEarned(journals'[m], m, facts) {
      assert JournalEarned(journals[m], m, facts);
    }
  }

  lemma CasPhase(s: System, c: OwnerId, l: Local)
    requires LocalOf(s, c) == l && l.Busy? && l.pc.Cas?
    ensures var t, k := StepCas(s, c, l), l.pc.k;
      && (t.db.journals == s.db.journals || PhaseMoves(s.db.journals, t.db.journals, k))
      && (k < |t.db.journals| ==>
            t.db.journals[k] == s.db.journals[k] || t.db.journals[k].phase == PointerUpdated)
      && t.db.retirements == s.db.retirements && t.db.operations == s.db.operations
      && (LocalOf(t, c).Idle?
          || (k < |t.db.journals| && LocalOf(t, c) == l.(pc := AfterPhase(k, t.db.journals[k].phase))
              && t.db.journals[k].phase != Preparing))
  {}

  lemma CasEarns(s: System, c: OwnerId, l: Local, ch: Choice, facts: Facts)
    requires LocalOf(s, c) == l && l.Busy? && l.pc.Cas?
    requires LocalEarned(s.db.journals, s.db.retirements.Keys, l, facts) && JournalsEarned(s.db.journals, facts)
    ensures CallEarned(s, StepCas(s, c, l), c, l, facts)
  {
    var t, k := StepCas(s, c, l), l.pc.k;
    CasPhase(s, c, l);
    assert JournalEarned(s.db.journals[k], k, facts);
    PhaseEarns(s.db.journals, t.db.journals, k, facts);
    EarnedStays(s.db.journals, t.db.journals, t.db.retirements.Keys, t.db.retirements.Keys, l.op, l.seen, facts, facts);
  }

  lemma VerifyEarns(s: System, c: OwnerId, l: Local, ch: Choice, facts: Facts)
    requires LocalOf(s, c) == l && l.Busy? && l.pc.Verify? && l.op in s.db.operations
    requires LocalEarned(s.db.journals, s.db.retirements.Keys, l, facts) && JournalsEarned(s.db.journals, facts)
    ensures CallEarned(s, CoordinatorStep(s, c, ch), c, l, facts + Observed(s, c, ch))
  {
    var t := CoordinatorStep(s, c, ch);
    JournalsMore(s.db.journals, facts, Observed(s, c, ch));
    assert JournalEarned(s.db.journals[l.pc.k], l.pc.k, facts + Observed(s, c, ch));
    assert t.db.journals == s.db.journals || PhaseMoves(s.db.journals, t.db.journals, l.pc.k);
  }

  lemma FinalizeEarns(s: System, c: OwnerId, l: Local, ch: Choice, facts: Facts)
    requires LocalOf(s, c) == l && l.Busy? && l.pc.FinalizeJournal?
    requires LocalEarned(s.db.journals, s.db.retirements.Keys, l, facts) && JournalsEarned(s.db.journals, facts)
    ensures CallEarned(s, StepFinalize(s, c, l), c, l, facts)
  {
    var t := StepFinalize(s, c, l);
    var k := l.pc.k;
    assert JournalEarned(s.db.journals[k], k, facts);
    assert t.db.journals == s.db.journals || PhaseMoves(s.db.journals, t.db.journals, k);
    if LocalOf(t, c).Busy? { assert t.db.journals[k].op == l.op && t.db.journals[k].phase == GenerationFinalized; }
  }

  lemma BeginEarns(s: System, c: OwnerId, l: Local, ch: Choice, facts: Facts)
    requires LocalOf(s, c) == l && l.Busy? && l.pc.BeginRet?
    requires LocalEarned(s.db.journals, s.db.retirements.Keys, l, facts) && JournalsEarned(s.db.journals, facts)
    ensures CallEarned(s, CoordinatorStep(s, c, ch), c, l, facts)
  {
    var t := CoordinatorStep(s, c, ch);
    if LocalOf(t, c).Busy? { assert HandedOver(t.db.retirements.Keys, l.op, facts); }
  }

  lemma CleanupEarns(s: System, c: OwnerId, l: Local, ch: Choice, facts: Facts)
    requires LocalOf(s, c) == l && l.Busy? && CleanupPc(l.pc)
    requires LocalEarned(s.db.journals, s.db.retirements.Keys, l, facts) && JournalsEarned(s.db.journals, facts)
    ensures CallEarned(s, CoordinatorStep(s, c, ch), c, l, facts)
  {
    CleanupFrame(s, c, l, ch);
    CleanupKeys(s, c, l, ch);
  }

  /** A cleanup call adds no row and moves no operation. */
  ghost predicate OnlyCleans(s: System, t: System, c: OwnerId, l: Local)
    requires l.Busy?
  {
    && t.db.retirements.Keys == s.db.retirements.Keys && t.db.operations.Keys == s.db.operations.Keys
    && (forall id :: id in s.db.operations ==> t.db.operations[id].state == s.db.operations[id].state)
    && (LocalOf(t, c).Idle?
        || (LocalOf(t, c).op == l.op && LocalOf(t, c).seen == l.seen
            && (CleanupPc(LocalOf(t, c).pc) || LocalOf(t, c).pc == Finish(Completed))))
  }

  lemma RetiringCleans(s: System, c: OwnerId, l: Local, ch: Choice)
    requires LocalOf(s, c) == l && l.Busy? && (l.pc.MarkRetired? || l.pc.FinalizeRet?)
    ensures OnlyCleans(s, CoordinatorStep(s, c, ch), c, l)
  {}

  lemma AuthorizeCleans(s: System, c: OwnerId, l: Local, ch: Choice)
    requires LocalOf(s, c) == l && l.Busy? && l.pc.Authorize?
    ensures OnlyCleans(s, StepAuthorize(s, c, l, ch), c, l)
  {}

  lemma DeletingCleans(s: System, c: OwnerId, l: Local, ch: Choice)
    requires LocalOf(s, c) == l && l.Busy? && l.pc.Deleting?
    ensures OnlyCleans(s, StepDeleting(s, c, l, ch), c, l)
  {}

  lemma AttemptsClean(s: System, c: OwnerId, l: Local, ch: Choice)
    requires LocalOf(s, c) == l && l.Busy? && (l.pc.RecordPlan? || l.pc.MarkFence?)
    ensures OnlyCleans(s, CoordinatorStep(s, c, ch), c, l)
  {}

  lemma CleanupKeys(s: System, c: OwnerId, l: Local, ch: Choice)
    requires LocalOf(s, c) == l && l.Busy? && CleanupPc(l.pc)
    ensures OnlyCleans(s, CoordinatorStep(s, c, ch), c, l)
  {
    if l.pc.Authorize? { AuthorizeCleans(s, c, l, ch); }
    else if l.pc.Deleting? { DeletingCleans(s, c, l, ch); }
    else if l.pc.RecordPlan? || l.pc.MarkFence? { AttemptsClean(s, c, l, ch); }
    else { RetiringCleans(s, c, l, ch); }
  }

  lemma AnyCallEarns(s: System, c: OwnerId, l: Local, ch: Choice, facts: Facts)
    requires LocalOf(s, c) == l && l.Busy? && l.op in s.db.operations
    requires LocalEarned(s.db.journals, s.db.retirements.Keys, l, facts) && JournalsEarned(s.db.journals, facts)
    ensures CallEarned(s, CoordinatorStep(s, c, ch), c, l, facts + Observed(s, c, ch))
  {
    if l.pc.Start? { StartEarns(s, c, l, ch, facts); }
    else if l.pc.Finish? { FinishEarns(s, c, l, ch, facts); }
    else if l.pc.Advance? { AdvanceEarns(s, c, l, ch, facts); }
    else if l.pc.SawPointer? || l.pc.Prepare? { LookEarns(s, c, l, ch, facts); }
    else if l.pc.Verify? { VerifyEarns(s, c, l, ch, facts); }
    else {
      assert Observed(s, c, ch) == {};
      assert facts + {} == facts;
      if l.pc.Cas? { CasEarns(s, c, l, ch, facts); }
      else if l.pc.FinalizeJournal? { FinalizeEarns(s, c, l, ch, facts); }
      else if l.pc.BeginRet? { BeginEarns(s, c, l, ch, facts); }
      else { CleanupEarns(s, c, l, ch, facts); }
    }
  }

  // ------------------------------------------------------------ one step

  /** Every coordinator works on a row that exists. */
  ghost predicate Rooted(s: System) {
    forall c :: c in s.locals && s.locals[c].Busy? ==> s.locals[c].op in s.db.operations
  }

  lemma ProceedEarns(s: System, c: OwnerId, ch: Choice, facts: Facts)
    requires AllEarned(s, facts) && Rooted(s)
    ensures AllEarned(CoordinatorStep(s, c, ch), facts + Observed(s, c, ch)) && Rooted(CoordinatorStep(s, c, ch))
  {
    var l, t, more := LocalOf(s, c), CoordinatorStep(s, c, ch), facts + Observed(s, c, ch);
    if l.Idle? {
      assert more == facts;
    } else {
      AnyCallEarns(s, c, l, ch, facts);
      CallFrame(s, c, l, ch);
      OpsAndLocals(s, t, c, l, facts, more);
    }
  }

  lemma OpsAndLocals(s: System, t: System, c: OwnerId, l: Local, facts: Facts, more: Facts)
    requires AllEarned(s, facts) && facts <= more && l.Busy? && CallEarned(s, t, c, l, more)
    requires t.locals == s.locals[c := LocalOf(t, c)]
    ensures AllEarned(t, more)
  {
    forall id | id in t.db.operations
      ensures Earned(t.db.journals, t.db.retirements.Keys, id, t.db.operations[id].state, more)
    {
      if id in s.db.operations && t.db.operations[id].state == s.db.operations[id].state {
        EarnedStays(s.db.journals, t.db.journals, s.db.retirements.Keys, t.db.retirements.Keys, id,
                    s.db.operations[id].state, facts, more);
      }
    }
    forall d | d in t.locals ensures LocalEarned(t.db.journals, t.db.retirements.Keys, t.locals[d], more) {
      if d != c {
        LocalEarnedStays(s.db.journals, t.db.journals, s.db.retirements.Keys, t.db.retirements.Keys, s.locals[d], facts,
                         more);
      }
    }
  }

  lemma ClaimEarns(s: System, c: OwnerId, id: OperationId, leaseMs: nat, facts: Facts)
    requires AllEarned(s, facts) && Rooted(s)
    ensures AllEarned(StepClaim(s, c, id, leaseMs), facts) && Rooted(StepClaim(s, c, id, leaseMs))
  {}

  lemma OutsideEarns(s: System, a: Action, facts: Facts)
    requires AllEarned(s, facts) && Rooted(s) && !a.Proceed? && !a.Claimed?
    ensures AllEarned(Step(s, a), facts) && Rooted(Step(s, a))
  {
    if a.Scheduled? { ScheduledEarns(s, a.id, a.g, facts); }
  }

  lemma ScheduledEarns(s: System, id: OperationId, g: GenerationId, facts: Facts)
    requires AllEarned(s, facts) && Rooted(s)
    ensures AllEarned(Commit(s, ScheduleCleanup(s.db, id, g)), facts) && Rooted(Commit(s, ScheduleCleanup(s.db, id, g)))
  {
    var t := Commit(s, ScheduleCleanup(s.db, id, g));
    forall x | x in t.db.operations
      ensures Earned(t.db.journals, t.db.retirements.Keys, x, t.db.operations[x].state, facts)
    {
      if x in s.db.operations {
        EarnedStays(s.db.journals, t.db.journals, s.db.retirements.Keys, t.db.retirements.Keys, x,
                    s.db.operations[x].state, facts, facts);
      }
    }
    forall d | d in t.locals ensures LocalEarned(t.db.journals, t.db.retirements.Keys, t.locals[d], facts) {
      LocalEarnedStays(s.db.journals, t.db.journals, s.db.retirements.Keys, t.db.retirements.Keys, s.locals[d], facts,
                       facts);
    }
  }

  lemma {:induction false} RunEarns(s: System, actions: seq<Action>, facts: Facts)
    requires AllEarned(s, facts) && Rooted(s)
    ensures AllEarned(Run(s, actions), facts + ObservedOver(s, actions))
    decreases |actions|
  {
    if actions == [] {
      assert facts + {} == facts;
    } else {
      var a := actions[0];
      var more := facts + ObservedBy(s, a);
      if a.Proceed? { ProceedEarns(s, a.c, a.choice, facts); }
      else {
        assert more == facts;
        if a.Claimed? { ClaimEarns(s, a.c, a.id, a.leaseMs, facts); } else { OutsideEarns(s, a, facts); }
      }
      RunEarns(Step(s, a), actions[1..], more);
      assert more + ObservedOver(Step(s, a), actions[1..]) == facts + ObservedOver(s, actions);
    }
  }

  // ------------------------------------------------------------ theorems

  lemma EarnedFromStart(g: GenerationId, version: nat, actions: seq<Action>)
    ensures AllEarned(Run(Initial(g, version), actions), ObservedOver(Initial(g, version), actions))
  {
    RunEarns(Initial(g, version), actions, {});
    assert {} + ObservedOver(Initial(g, version), actions) == ObservedOver(Initial(g, version), actions);
  }

  /**
    No stage of a rebuild is skipped: past LOADING_SNAPSHOT the load was
    observed and the candidate has left LOADING, past WAITING_FOR_CATCHUP the
    catch-up was and it has left CATCHING_UP, a PROMOTED operation
    finished a journal of its own, and a ROLLBACK_PROTECTED one saw the pointer
    at its candidate and left a retirement row for the generation before.
   */
  lemma NoStageSkipped(g: GenerationId, version: nat, actions: seq<Action>, id: OperationId)
    requires id in Run(Initial(g, version), actions).db.operations
    ensures var start := Initial(g, version);
      var s := Run(start, actions);
      var state := s.db.operations[id].state;
      && (PastLoading(state) ==>
            Happened(start, actions, SnapshotLoaded(id)) && Happened(start, actions, Left(id, Loading)))
      && (PastCatchup(state) ==>
            Happened(start, actions, CaughtUp(id)) && Happened(start, actions, Left(id, CatchingUp)))
      && (state in {Promoted, RollbackProtected} ==> Finished(s.db.journals, id))
      && (state == RollbackProtected ==>
            exists previous :: Happened(start, actions, PointerNamed(id, previous))
                            && (previous.Some? ==> previous.value in s.db.retirements))
  {
    var start := Initial(g, version);
    var s, facts := Run(start, actions), ObservedOver(start, actions);
    EarnedFromStart(g, version, actions);
    forall fact | fact in facts ensures Happened(start, actions, fact) { ObservedOverMeans(start, actions, fact); }
    if s.db.operations[id].state == RollbackProtected {
      var previous :| PointerNamed(id, previous) in facts
                   && (previous.Some? ==> previous.value in s.db.retirements.Keys);
      assert Happened(start, actions, PointerNamed(id, previous));
    }
  }

  /**
    A journal is verified or finalised only after the router was seen on it, and
    it was opened by a claim that had found no journal of its operation.
   */
  lemma JournalWasObserved(g: GenerationId, version: nat, actions: seq<Action>, k: nat)
    requires k < |Run(Initial(g, version), actions).db.journals|
    ensures var start := Initial(g, version);
      var j := Run(start, actions).db.journals[k];
      && (j.phase in {RouterVerified, GenerationFinalized} ==> Happened(start, actions, RouterSaw(k)))
      && exists fence ::
        Happened(start, actions, Opened(k, fence)) && Happened(start, actions, NoJournalYet(j.op, fence))
  {
    var start := Initial(g, version);
    var s, facts := Run(start, actions), ObservedOver(start, actions);
    EarnedFromStart(g, version, actions);
    assert JournalEarned(s.db.journals[k], k, facts);
    forall fact | fact in facts ensures Happened(start, actions, fact) { ObservedOverMeans(start, actions, fact); }
    var fence :| Opened(k, fence) in facts && NoJournalYet(s.db.journals[k].op, fence) in facts;
    assert Happened(start, actions, Opened(k, fence));
    assert Happened(start, actions, NoJournalYet(s.db.journals[k].op, fence));
  }
}
