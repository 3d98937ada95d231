/** Over every run: what the pointer ever names, other than the generation it began with, was READY and VALID before. */
module CoordinatorValidation {
  import opened CoordinatorDb
  import opened CoordinatorProtocol
  import opened CoordinatorFrames
  import opened CoordinatorInvariants
  import opened CoordinatorTheorems

  type Proofs = set<GenerationId>

  predicate ReadyAndValid(gens: Gens, g: GenerationId) {
    g in gens && gens[g].state == Ready && gens[g].valid
  }

  /** Some state of the run had the generation READY and VALID. */
  ghost predicate WasValid(start: System, actions: seq<Action>, g: GenerationId) {
    exists k: nat :: k <= |actions| && ReadyAndValid(Run(start, actions[..k]).db.generations, g)
  }

  function ValidNow(gens: Gens): Proofs { set g | g in gens && ReadyAndValid(gens, g) }

  /** Every generation that some state of the run had READY and VALID. */
  function ValidOver(s: System, actions: seq<Action>): Proofs
    decreases |actions|
  {
    ValidNow(s.db.generations) + if actions == [] then {} else ValidOver(Step(s, actions[0]), actions[1..])
  }

  lemma {:induction false} ValidOverMeans(s: System, actions: seq<Action>, g: GenerationId)
    requires g in ValidOver(s, actions)
    ensures WasValid(s, actions, g)
    decreases |actions|
  {
    if g in ValidNow(s.db.generations) {
      assert Run(s, actions[..0]) == s;
    } else {
      ValidOverMeans(Step(s, actions[0]), actions[1..], g);
      var k: nat :| k <= |actions[1..]|
                 && ReadyAndValid(Run(Step(s, actions[0]), actions[1..][..k]).db.generations, g);
      assert actions[..k + 1][0] == actions[0] && actions[..k + 1][1..] == actions[1..][..k];
      assert Run(s, actions[..k + 1]) == Run(Step(s, actions[0]), actions[1..][..k]);
    }
  }

  // ----------------------------------------------------- the invariant

  /** From here on the call relies on its candidate having been proved. */
  predicate Relies(l: Local)
    requires l.Busy?
  {
    || Proven(l.seen)
    || match l.pc
       case Finish(to) => Proven(to)
       case Advance(_, _, to) => Proven(to)
       case SawPointer(_, _) => true
       case Prepare(_, _) => true
       case Cas(_) => true
       case Verify(_) => true
       case FinalizeJournal(_) => true
       case BeginRet(_) => true
       case _ => false
  }

  ghost predicate OpsProved(ops: Ops, proofs: Proofs) {
    forall id :: id in ops && Proven(ops[id].state) ==> ops[id].candidate in proofs
  }

  predicate LocalProved(ops: Ops, l: Local, proofs: Proofs) {
    l.Busy? ==> l.op in ops && (Relies(l) ==> ops[l.op].candidate in proofs)
  }

  ghost predicate LocalsProved(ops: Ops, locals: map<OwnerId, Local>, proofs: Proofs) {
    forall c :: c in locals ==> LocalProved(ops, locals[c], proofs)
  }

  ghost predicate JournalsProved(journals: seq<Journal>, proofs: Proofs) {
    forall k :: 0 <= k < |journals| ==> journals[k].to in proofs
  }

  ghost predicate InstallsProved(h: seq<GenerationId>, proofs: Proofs) {
    forall i :: 1 <= i < |h| ==> h[i] in proofs
  }

  ghost predicate Proved(s: System, proofs: Proofs) {
    && OpsProved(s.db.operations, proofs) && LocalsProved(s.db.operations, s.locals, proofs)
    && JournalsProved(s.db.journals, proofs) && InstallsProved(s.hist.installs, proofs) && s.hist.installs != []
  }

  // ------------------------------------------------------------ one call

  /** What a call does to its own record and to the states of operations. */
  ghost predicate CallProved(s: System, t: System, c: OwnerId, proofs: Proofs) {
    LocalProved(t.db.operations, LocalOf(t, c), proofs) && OpsProved(t.db.operations, proofs)
  }

  lemma StartProved(s: System, c: OwnerId, l: Local, ch: Choice, proofs: Proofs)
    requires LocalOf(s, c) == l && l.Busy? && LocalProved(s.db.operations, l, proofs)
    requires OpsProved(s.db.operations, proofs) && ValidNow(s.db.generations) <= proofs
    ensures CallProved(s, StepStart(s, c, l, ch), c, proofs)
  {
    var t := StepStart(s, c, l, ch);
    if l.seen == RetirementWaiting {
      StartReevaluates(s, c, l, ch);
      ReevaluateProved(s.db, l.op, c, l.fence, proofs);
    } else {
      StartReads(s, c, l, ch);
      StartRelies(s, c, l, ch);
    }
  }

  lemma ReevaluateProved(db: Db, id: OperationId, owner: OwnerId, fence: nat, proofs: Proofs)
    requires OpsProved(db.operations, proofs)
    ensures var r := Reevaluate(db, id, owner, fence); r.Committed? ==> OpsProved(r.state.operations, proofs)
  {}

  /** A call comes to rely on its candidate only by finding it READY and VALID. */
  lemma StartRelies(s: System, c: OwnerId, l: Local, ch: Choice)
    requires LocalOf(s, c) == l && l.Busy? && l.op in s.db.operations && l.seen != RetirementWaiting
    ensures var t := StepStart(s, c, l, ch);
      && (LocalOf(t, c).Idle? || LocalOf(t, c).op == l.op)
      && (LocalOf(t, c).Busy? && Relies(LocalOf(t, c)) ==>
            Proven(l.seen) || ReadyAndValid(s.db.generations, s.db.operations[l.op].candidate))
  {}

  lemma FinishProved(s: System, c: OwnerId, l: Local, ch: Choice, proofs: Proofs)
    requires LocalOf(s, c) == l && l.Busy? && l.pc.Finish? && LocalProved(s.db.operations, l, proofs)
    requires OpsProved(s.db.operations, proofs)
    ensures CallProved(s, CoordinatorStep(s, c, ch), c, proofs)
  {
    FinishFrame(s, c, l, ch);
  }

  lemma PromotionRelies(s: System, c: OwnerId, l: Local, ch: Choice)
    requires LocalOf(s, c) == l && l.Busy? && PromotionPc(l.pc)
    ensures var t := CoordinatorStep(s, c, ch);
      && (LocalOf(t, c).Idle? || (LocalOf(t, c).op == l.op && LocalOf(t, c).seen == l.seen))
      && (LocalOf(t, c).Busy? && Relies(LocalOf(t, c)) ==> Relies(l))
  {}

  lemma CleanupRelies(s: System, c: OwnerId, l: Local, ch: Choice)
    requires LocalOf(s, c) == l && l.Busy? && CleanupPc(l.pc)
    ensures var t := CoordinatorStep(s, c, ch);
      && (LocalOf(t, c).Idle? || (LocalOf(t, c).op == l.op && LocalOf(t, c).seen == l.seen))
      && (LocalOf(t, c).Busy? && Relies(LocalOf(t, c)) ==> Relies(l))
  {}

  lemma CleanupStates(s: System, c: OwnerId, l: Local, ch: Choice, proofs: Proofs)
    requires LocalOf(s, c) == l && l.Busy? && CleanupPc(l.pc) && OpsProved(s.db.operations, proofs)
    ensures OpsProved(CoordinatorStep(s, c, ch).db.operations, proofs)
  {
    CleanupFrame(s, c, l, ch);
    if l.pc.Authorize? { AuthorizeStates(s.db, l.op, l.pc.g, c, l.fence, ch.token, ch.leaseMs, proofs); }
  }

  lemma AuthorizeStates(db: Db, id: OperationId, g: GenerationId, owner: OwnerId, fence: nat, token: Token,
                        leaseMs: nat, proofs: Proofs)
    requires OpsProved(db.operations, proofs)
    ensures var r := AuthorizePhysicalDeletion(db, id, g, owner, fence, token, leaseMs);
      r.Committed? ==> OpsProved(r.state.operations, proofs)
  {}

  lemma AnyCallProved(s: System, c: OwnerId, l: Local, ch: Choice, proofs: Proofs)
    requires LocalOf(s, c) == l && l.Busy? && LocalProved(s.db.operations, l, proofs)
    requires OpsProved(s.db.operations, proofs) && ValidNow(s.db.generations) <= proofs
    ensures CallProved(s, CoordinatorStep(s, c, ch), c, proofs)
  {
    if l.pc.Start? { StartProved(s, c, l, ch, proofs); }
    else if l.pc.Finish? { FinishProved(s, c, l, ch, proofs); }
    else if PromotionPc(l.pc) {
      PromotionFrame(s, c, l, ch);
      PromotionRelies(s, c, l, ch);
    } else {
      CleanupFrame(s, c, l, ch);
      CleanupRelies(s, c, l, ch);
      CleanupStates(s, c, l, ch, proofs);
    }
  }

  /** Journals and installs name only what the call relied on. */
  lemma JournalCall(s: System, c: OwnerId, l: Local, ch: Choice, proofs: Proofs)
    requires LocalOf(s, c) == l && l.Busy? && LocalProved(s.db.operations, l, proofs)
    requires JournalsProved(s.db.journals, proofs) && InstallsProved(s.hist.installs, proofs) && s.hist.installs != []
    ensures var t := CoordinatorStep(s, c, ch);
      JournalsProved(t.db.journals, proofs) && InstallsProved(t.hist.installs, proofs) && t.hist.installs != []
  {
    if l.pc.Start? { StartFrame(s, c, l, ch); }
    else if l.pc.Finish? { FinishFrame(s, c, l, ch); }
    else if PromotionPc(l.pc) {
      if l.pc.Cas? { CasNames(s, c, l, proofs); } else { PromotionJournals(s, c, l, ch, proofs); }
    }
    else { CleanupFrame(s, c, l, ch); }
  }

  lemma CasNames(s: System, c: OwnerId, l: Local, proofs: Proofs)
    requires LocalOf(s, c) == l && l.Busy? && l.pc.Cas?
    requires JournalsProved(s.db.journals, proofs) && InstallsProved(s.hist.installs, proofs) && s.hist.installs != []
    ensures var t := StepCas(s, c, l);
      JournalsProved(t.db.journals, proofs) && InstallsProved(t.hist.installs, proofs) && t.hist.installs != []
  {}

  lemma PromotionJournals(s: System, c: OwnerId, l: Local, ch: Choice, proofs: Proofs)
    requires LocalOf(s, c) == l && l.Busy? && PromotionPc(l.pc) && !l.pc.Cas?
    requires LocalProved(s.db.operations, l, proofs) && JournalsProved(s.db.journals, proofs)
    ensures JournalsProved(CoordinatorStep(s, c, ch).db.journals, proofs)
    ensures CoordinatorStep(s, c, ch).hist.installs == s.hist.installs
  {
    PromotionFrame(s, c, l, ch);
  }

  lemma ProceedProved(s: System, c: OwnerId, ch: Choice, proofs: Proofs)
    requires Proved(s, proofs) && ValidNow(s.db.generations) <= proofs
    ensures Proved(CoordinatorStep(s, c, ch), proofs)
  {
    var l := LocalOf(s, c);
    if l.Busy? {
      var t := CoordinatorStep(s, c, ch);
      AnyCallProved(s, c, l, ch, proofs);
      JournalCall(s, c, l, ch, proofs);
      CallFrame(s, c, l, ch);
      OthersProved(s, t, c, proofs);
    }
  }

  lemma OthersProved(s: System, t: System, c: OwnerId, proofs: Proofs)
    requires LocalsProved(s.db.operations, s.locals, proofs) && OpsCarry(s.db.operations, t.db.operations)
    requires t.locals == s.locals[c := LocalOf(t, c)] && LocalProved(t.db.operations, LocalOf(t, c), proofs)
    ensures LocalsProved(t.db.operations, t.locals, proofs)
  {}

  // ------------------------------------------------------------ one step

  lemma ClaimProved(s: System, c: OwnerId, id: OperationId, leaseMs: nat, proofs: Proofs)
    requires Proved(s, proofs)
    ensures Proved(StepClaim(s, c, id, leaseMs), proofs)
  {
    var t := StepClaim(s, c, id, leaseMs);
    if t != s { OthersProved(s, t, c, proofs); }
  }

  lemma OutsideProved(s: System, a: Action, proofs: Proofs)
    requires Proved(s, proofs) && (a.Requested? || a.Scheduled? || a.Released? || a.Evidence? || a.Tick?)
    ensures Proved(Step(s, a), proofs)
  {}

  lemma StepProved(s: System, a: Action, proofs: Proofs)
    requires Proved(s, proofs) && ValidNow(s.db.generations) <= proofs
    ensures Proved(Step(s, a), proofs)
  {
    match a
    case Proceed(c, ch) => ProceedProved(s, c, ch, proofs);
    case Claimed(c, id, leaseMs) => ClaimProved(s, c, id, leaseMs, proofs);
    case Crashed(c) =>
    case _ => OutsideProved(s, a, proofs);
  }

  lemma MoreProved(s: System, proofs: Proofs, more: Proofs)
    requires Proved(s, proofs)
    ensures Proved(s, proofs + more)
  {}

  lemma {:induction false} RunProved(s: System, actions: seq<Action>, proofs: Proofs)
    requires Proved(s, proofs)
    ensures Proved(Run(s, actions), proofs + ValidOver(s, actions))
    decreases |actions|
  {
    var now := proofs + ValidNow(s.db.generations);
    MoreProved(s, proofs, ValidNow(s.db.generations));
    if actions == [] {
      assert now == proofs + ValidOver(s, actions);
    } else {
      StepProved(s, actions[0], now);
      RunProved(Step(s, actions[0]), actions[1..], now);
      assert now + ValidOver(Step(s, actions[0]), actions[1..]) == proofs + ValidOver(s, actions);
    }
  }

  // ------------------------------------------------------------ theorems

  lemma RunFromStart(g: GenerationId, version: nat, actions: seq<Action>)
    ensures Proved(Run(Initial(g, version), actions), ValidOver(Initial(g, version), actions))
  {
    assert Proved(Initial(g, version), {});
    RunProved(Initial(g, version), actions, {});
    assert {} + ValidOver(Initial(g, version), actions) == ValidOver(Initial(g, version), actions);
  }

  predicate PastValidation(state: OpState) { state in {ReadyToPromote, Promoting, Promoted, RollbackProtected} }

  /**
    An operation is past VALIDATING, and a promotion is on record, only for a
    candidate that some earlier state had READY and VALID.
   */
  lemma PromotedWasValid(start: GenerationId, version: nat, actions: seq<Action>)
    ensures var s := Run(Initial(start, version), actions);
      && (forall id :: id in s.db.operations && PastValidation(s.db.operations[id].state) ==>
            WasValid(Initial(start, version), actions, s.db.operations[id].candidate))
      && (forall j :: j in s.db.journals ==> WasValid(Initial(start, version), actions, j.to))
  {
    var s, proofs := Run(Initial(start, version), actions), ValidOver(Initial(start, version), actions);
    RunFromStart(start, version, actions);
    forall g | g in proofs ensures WasValid(Initial(start, version), actions, g) {
      ValidOverMeans(Initial(start, version), actions, g);
    }
  }

  /** Nothing but the generation of the bootstrap is served, or named by the pointer, that was never READY and VALID. */
  lemma ServedWasValid(start: GenerationId, version: nat, actions: seq<Action>, g: GenerationId)
    requires g != start
    requires var s := Run(Initial(start, version), actions); g == s.db.pointer.generation || IsServing(s.db, g)
    ensures WasValid(Initial(start, version), actions, g)
  {
    var first := Initial(start, version);
    var s := Run(first, actions);
    InitialInv(start, version);
    RunPointer(first, actions);
    RunFromStart(start, version, actions);
    assert first.hist.installs <= s.hist.installs && s.hist.installs[0] == start;
    if IsServing(s.db, g) { ServingIsFinalized(s.db, s.hist, g); }
    assert g in s.hist.installs[1..];
    ValidOverMeans(first, actions, g);
  }
}
