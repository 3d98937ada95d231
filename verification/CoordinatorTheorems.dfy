/**
  What the coordinator protocol guarantees over every run from a bootstrapped
  source, stated about the rows themselves.
 */
module CoordinatorTheorems {
  import opened Wrappers
  import opened CoordinatorDb
  import opened CoordinatorProtocol
  import opened CoordinatorFrames
  import opened CoordinatorInvariants
  import opened CoordinatorPreservation
  import opened CoordinatorRetirementSteps
  import opened CoordinatorSafety

  /** `s` is the state after some run of coordinators, workers and operators. */
  ghost predicate Reachable(s: System) {
    exists g: GenerationId, version: nat, actions: seq<Action> :: s == Run(Initial(g, version), actions)
  }

  lemma ReachableInv(s: System)
    requires Reachable(s)
    ensures Inv(s)
  {
    var g: GenerationId, version: nat, actions: seq<Action> :| s == Run(Initial(g, version), actions);
    InitialInv(g, version);
    KeepsRun(Initial(g, version), actions);
  }

  lemma {:induction false} RunAppend(s: System, first: seq<Action>, second: seq<Action>)
    ensures Run(s, first + second) == Run(Run(s, first), second)
    decreases |first|
  {
    if first == [] {
      assert first + second == second;
    } else {
      assert (first + second)[1..] == first[1..] + second;
      RunAppend(Step(s, first[0]), first[1..], second);
    }
  }

  lemma ReachableRun(s: System, more: seq<Action>)
    requires Reachable(s)
    ensures Reachable(Run(s, more))
  {
    var g: GenerationId, version: nat, actions: seq<Action> :| s == Run(Initial(g, version), actions);
    RunAppend(Initial(g, version), actions, more);
  }

  // ------------------------------------------------------ deletion safety

  /** Neither serving nor kept for rollback: deleting it cannot darken a query or lose the way back. */
  predicate OutOfService(db: Db, g: GenerationId) {
    && (g in db.generations ==> db.generations[g].state != Serving)
    && db.pointer.generation != g
    && db.pointer.previous != Some(g)
  }

  lemma RetiredOutOfService(db: Db, hist: History, g: GenerationId)
    requires DbInv(db, hist) && g in db.generations
    requires db.generations[g].state in {Retiring, Retired}
    requires db.generations[g].protection in {Unprotected, RetirementInProgress}
    ensures OutOfService(db, g)
  {
    var h, f := hist.installs, hist.finalized;
    assert InstalledRow(db.generations[h[|h| - 1]], |h| - 1, f);
    if |h| >= 2 { assert InstalledRow(db.generations[h[|h| - 2]], |h| - 2, f); }
  }

  /** A generation under RETIREMENT_IN_PROGRESS is out of service in every reachable state. */
  lemma DeletionSafety(s: System, g: GenerationId)
    requires Reachable(s)
    requires g in s.db.generations && s.db.generations[g].protection == RetirementInProgress
    ensures OutOfService(s.db, g)
  {
    ReachableInv(s);
    assert ProtectionOk(s.db.generations[g], g, s.hist.installs, s.hist.finalized);
    RetiredOutOfService(s.db, s.hist, g);
  }

  /** The generation a coordinator is physically deleting, whether or not its lease still stands. */
  function DeletionTarget(l: Local): Option<GenerationId> {
    if l.Idle? then None
    else match l.pc
      case RecordPlan(g, _) => Some(g)
      case MarkFence(g, _) => Some(g)
      case Deleting(g, _) => Some(g)
      case FinalizeRet(g) => Some(g)
      case _ => None
  }

  lemma DeletingKeepsTarget(s: System, c: OwnerId, l: Local, ch: Choice, id: OperationId, g: GenerationId)
    requires CleanupTarget(s.db.retirements, id, g)
    requires l.Busy? && l.pc.Deleting?
    ensures CleanupTarget(StepDeleting(s, c, l, ch).db.retirements, id, g)
  {
    if ch.record.Some? { assert StepDeleting(s, c, l, ch).db.retirements == s.db.retirements; }
  }

  /** Every coordinator call but the eligibility check moves retirement rows only forward. */
  lemma CallKeepsTarget(s: System, c: OwnerId, l: Local, ch: Choice, id: OperationId, g: GenerationId)
    requires CleanupTarget(s.db.retirements, id, g)
    requires LocalOf(s, c) == l && l.Busy? && !l.pc.Start?
    ensures CleanupTarget(CoordinatorStep(s, c, ch).db.retirements, id, g)
  {
    if l.pc.Deleting? {
      DeletingKeepsTarget(s, c, l, ch, id, g);
      assert CoordinatorStep(s, c, ch) == StepDeleting(s, c, l, ch);
    } else if !TouchesRetirement(l.pc) {
      CallFrame(s, c, l, ch);
    } else {
      RowCallKeepsTarget(s, c, l, ch, id, g);
    }
  }

  lemma RowCallKeepsTarget(s: System, c: OwnerId, l: Local, ch: Choice, id: OperationId, g: GenerationId)
    requires CleanupTarget(s.db.retirements, id, g)
    requires LocalOf(s, c) == l && l.Busy? && TouchesRetirement(l.pc) && !l.pc.Deleting?
    ensures CleanupTarget(CoordinatorStep(s, c, ch).db.retirements, id, g)
  {}

  lemma StartKeepsTarget(s: System, c: OwnerId, l: Local, ch: Choice, id: OperationId, g: GenerationId)
    requires Inv(s) && LocalOf(s, c) == l && l.Busy? && CleanupTarget(s.db.retirements, id, g)
    ensures CleanupTarget(StepStart(s, c, l, ch).db.retirements, id, g)
  {
    if l.seen == RetirementWaiting {
      ReevaluateTarget(s, c, l.op, l.fence, id, g);
      StartReevaluates(s, c, l, ch);
    } else {
      StartReads(s, c, l, ch);
    }
  }

  lemma ReevaluateTarget(s: System, c: OwnerId, op: OperationId, fence: nat, id: OperationId, g: GenerationId)
    requires Inv(s) && CleanupTarget(s.db.retirements, id, g)
    ensures CleanupTarget(Done(s, c, Reevaluate(s.db, op, c, fence)).db.retirements, id, g)
  {
    var r := Reevaluate(s.db, op, c, fence);
    if r.Committed? {
      assert RetsGrow(s.db.retirements, r.state.retirements) by { ReevaluateKept(s, op, c, fence); }
    }
  }

  /** Retirement rows only move on, so what one step knows of them lasts. */
  lemma StepKeepsTarget(s: System, a: Action, id: OperationId, g: GenerationId)
    requires Inv(s) && CleanupTarget(s.db.retirements, id, g)
    ensures CleanupTarget(Step(s, a).db.retirements, id, g)
  {
    if a.Proceed? { ProceedKeepsTarget(s, a.c, a.choice, id, g); } else { OutsideKeepsTarget(s, a, id, g); }
  }

  lemma ProceedKeepsTarget(s: System, c: OwnerId, ch: Choice, id: OperationId, g: GenerationId)
    requires Inv(s) && CleanupTarget(s.db.retirements, id, g)
    ensures CleanupTarget(CoordinatorStep(s, c, ch).db.retirements, id, g)
  {
    var l := LocalOf(s, c);
    if l.Busy? && l.pc.Start? { StartKeepsTarget(s, c, l, ch, id, g); }
    else if l.Busy? { CallKeepsTarget(s, c, l, ch, id, g); }
  }

  lemma OutsideKeepsTarget(s: System, a: Action, id: OperationId, g: GenerationId)
    requires !a.Proceed? && CleanupTarget(s.db.retirements, id, g)
    ensures CleanupTarget(Step(s, a).db.retirements, id, g)
  {
    if !a.Scheduled? { assert Step(s, a).db.retirements == s.db.retirements; }
  }

  lemma {:induction false} RunKeepsTarget(s: System, more: seq<Action>, id: OperationId, g: GenerationId)
    requires Inv(s) && CleanupTarget(s.db.retirements, id, g)
    ensures Inv(Run(s, more)) && CleanupTarget(Run(s, more).db.retirements, id, g)
    decreases |more|
  {
    if more != [] {
      KeepsStep(s, more[0]);
      StepKeepsTarget(s, more[0], id, g);
      RunKeepsTarget(Step(s, more[0]), more[1..], id, g);
    }
  }

  /**
    A delete plan stays harmless for ever: once any coordinator has reached
    physical deletion of `g`, no later state of any run, with its lease live,
    lost or taken over, has `g` serving or in the pointer.
   */
  lemma DeletionSafeForEver(s: System, c: OwnerId, g: GenerationId, more: seq<Action>)
    requires Reachable(s) && DeletionTarget(LocalOf(s, c)) == Some(g)
    ensures OutOfService(Run(s, more).db, g)
  {
    ReachableInv(s);
    var l := LocalOf(s, c);
    BusyOk(s, c, l);
    RunKeepsTarget(s, more, l.op, g);
    var t := Run(s, more);
    CleanupFacts(t, l.op, g);
    RetiredOutOfService(t.db, t.hist, g);
  }

  /** Live deletion authority implies the retirement protection itself. */
  lemma AuthorityProtects(s: System, id: OperationId, g: GenerationId, owner: OwnerId, fence: nat, token: Token)
    requires Reachable(s) && Authorized(s.db, id, g, owner, fence, token)
    ensures g in s.db.generations && s.db.generations[g].protection == RetirementInProgress
  {
    ReachableInv(s);
    CleanupFacts(s, id, g);
  }

  // -------------------------------------------- pointer and registry agree

  /** A journal between its pointer CAS and its registry finalisation. */
  predicate InFlight(db: Db, k: nat) {
    k < |db.journals| && db.journals[k].phase in {PointerUpdated, RouterVerified}
  }

  predicate IsServing(db: Db, g: GenerationId) {
    g in db.generations && db.generations[g].state == Serving
  }

  /** Exactly one generation is SERVING, and it alone carries SERVING protection. */
  lemma OneServing(s: System) returns (g: GenerationId)
    requires Reachable(s)
    ensures IsServing(s.db, g) && s.db.generations[g].protection == ServingProtected
    ensures forall other :: IsServing(s.db, other) ==> other == g
    ensures forall other :: other in s.db.generations && s.db.generations[other].protection == ServingProtected ==>
      other == g
  {
    ReachableInv(s);
    var h, f := s.hist.installs, s.hist.finalized;
    g := h[f];
    assert InstalledRow(s.db.generations[g], f, f);
    forall other | IsServing(s.db, other) ensures other == g { ServingIsFinalized(s.db, s.hist, other); }
    forall other | other in s.db.generations && s.db.generations[other].protection == ServingProtected
      ensures other == g
    {
      assert ProtectionOk(s.db.generations[other], other, h, f);
    }
  }

  lemma ServingIsFinalized(db: Db, hist: History, g: GenerationId)
    requires DbInv(db, hist) && IsServing(db, g)
    ensures g == hist.installs[hist.finalized]
  {
    assert ProtectionOk(db.generations[g], g, hist.installs, hist.finalized);
    var i :| 0 <= i < |hist.installs| && hist.installs[i] == g;
    assert InstalledRow(db.generations[g], i, hist.finalized);
  }

  /** With nothing in flight the serving pointer stands at the serving generation and its rollback generation. */
  lemma SettledPointer(s: System)
    requires Reachable(s)
    requires forall k :: !InFlight(s.db, k)
    ensures IsServing(s.db, s.db.pointer.generation)
    ensures s.db.pointer.previous.Some? ==> s.db.pointer.previous.value in s.db.generations
    ensures forall g :: g in s.db.generations ==>
      (s.db.generations[g].protection == RollbackProtection <==> s.db.pointer.previous == Some(g))
  {
    ReachableInv(s);
    var h, f := s.hist.installs, s.hist.finalized;
    if f + 1 < |h| {
      var k := InFlightAt(s.db, s.hist, |h| - 1);
      assert false;
    }
    assert InstalledRow(s.db.generations[h[f]], f, f);
    forall g | g in s.db.generations
      ensures s.db.generations[g].protection == RollbackProtection <==> s.db.pointer.previous == Some(g)
    {
      assert ProtectionOk(s.db.generations[g], g, h, f);
    }
  }

  /** Every install past the serving one has its own journal in flight. */
  lemma InFlightAt(db: Db, hist: History, i: nat) returns (k: nat)
    requires DbInv(db, hist) && hist.finalized < i < |hist.installs|
    ensures InFlight(db, k) && k in hist.slot && hist.slot[k] == i && k == hist.installer[i]
    ensures db.journals[k].to == hist.installs[i] && db.journals[k].from == hist.installs[i - 1]
  {
    k := hist.installer[i];
    assert JournalSlot(db.pointer.version, hist, db.journals[k], k);
  }

  lemma InFlightSlot(db: Db, hist: History, k: nat)
    requires DbInv(db, hist) && InFlight(db, k)
    ensures k in hist.slot && hist.finalized < hist.slot[k] < |hist.installs|
    ensures db.journals[k].to == hist.installs[hist.slot[k]] && db.journals[k].from == hist.installs[hist.slot[k] - 1]
    ensures hist.installer[hist.slot[k]] == k
  {
    assert JournalSlot(db.pointer.version, hist, db.journals[k], k);
  }

  /**
    The serving pointer stands at a journal's target while its source is still the SERVING
    row exactly when that journal is the only one in flight. Nothing in the
    schema limits a source to one such journal.
   */
  lemma InFlightAgreement(s: System, k: nat)
    requires Reachable(s) && InFlight(s.db, k)
    ensures (s.db.pointer.generation == s.db.journals[k].to && IsServing(s.db, s.db.journals[k].from))
       <==> (forall m :: InFlight(s.db, m) ==> m == k)
    ensures (forall m :: InFlight(s.db, m) ==> m == k) ==> s.db.pointer.previous == Some(s.db.journals[k].from)
  {
    ReachableInv(s);
    var db, hist := s.db, s.hist;
    var h, f := hist.installs, hist.finalized;
    InFlightSlot(db, hist, k);
    if db.pointer.generation == db.journals[k].to && IsServing(db, db.journals[k].from) {
      ServingIsFinalized(db, hist, db.journals[k].from);
      forall m | InFlight(db, m) ensures m == k { InFlightSlot(db, hist, m); }
    }
    if forall m :: InFlight(db, m) ==> m == k {
      var first := InFlightAt(db, hist, f + 1);
      var last := InFlightAt(db, hist, |h| - 1);
      assert InstalledRow(db.generations[h[f]], f, f);
    }
  }

  /** From the SERVING row through each journal in turn to the pointer. */
  ghost predicate Linked(db: Db, chain: seq<nat>) {
    && (forall i :: 0 <= i < |chain| ==> chain[i] < |db.journals|)
    && (forall i :: 0 < i < |chain| ==> db.journals[chain[i]].from == db.journals[chain[i - 1]].to)
    && (chain == [] ==> IsServing(db, db.pointer.generation))
    && (chain != [] ==>
          && IsServing(db, db.journals[chain[0]].from)
          && db.pointer.generation == db.journals[chain[|chain| - 1]].to)
  }

  /** However many journals are in flight, they form one chain from the SERVING row to the pointer. */
  lemma InFlightChain(s: System) returns (chain: seq<nat>)
    requires Reachable(s)
    ensures forall k :: InFlight(s.db, k) <==> k in chain
    ensures forall i, j :: 0 <= i < j < |chain| ==> chain[i] != chain[j]
    ensures Linked(s.db, chain)
  {
    ReachableInv(s);
    chain := FlightChain(s.db, s.hist);
  }

  lemma FlightChain(db: Db, hist: History) returns (chain: seq<nat>)
    requires DbInv(db, hist)
    ensures forall k :: InFlight(db, k) <==> k in chain
    ensures forall i, j :: 0 <= i < j < |chain| ==> chain[i] != chain[j]
    ensures Linked(db, chain)
  {
    chain := hist.installer[hist.finalized + 1..];
    ChainLinks(db, hist, chain);
    LinkedChain(db, hist, chain);
  }

  lemma ChainLinks(db: Db, hist: History, chain: seq<nat>)
    requires DbInv(db, hist) && chain == hist.installer[hist.finalized + 1..]
    ensures forall i :: 0 <= i < |chain| ==> ChainLink(db, hist, chain[i], hist.finalized + 1 + i)
    ensures forall k :: InFlight(db, k) <==> k in chain
    ensures IsServing(db, hist.installs[hist.finalized])
  {
    assert InstalledRow(db.generations[hist.installs[hist.finalized]], hist.finalized, hist.finalized);
    forall i | 0 <= i < |chain| ensures ChainLink(db, hist, chain[i], hist.finalized + 1 + i) {
      var k := InFlightAt(db, hist, hist.finalized + 1 + i);
    }
    forall k ensures InFlight(db, k) <==> k in chain {
      if InFlight(db, k) {
        InFlightSlot(db, hist, k);
        assert chain[hist.slot[k] - hist.finalized - 1] == k;
      }
    }
  }

  lemma LinkedChain(db: Db, hist: History, chain: seq<nat>)
    requires hist.finalized < |hist.installs| && |chain| == |hist.installs| - hist.finalized - 1
    requires db.pointer.generation == hist.installs[|hist.installs| - 1] && IsServing(db, hist.installs[hist.finalized])
    requires forall i :: 0 <= i < |chain| ==> ChainLink(db, hist, chain[i], hist.finalized + 1 + i)
    ensures forall i, j :: 0 <= i < j < |chain| ==> chain[i] != chain[j]
    ensures Linked(db, chain)
  {
    var f := hist.finalized;
    forall i | 0 <= i < |chain| ensures chain[i] < |db.journals| {
      assert ChainLink(db, hist, chain[i], f + 1 + i);
    }
    forall i, j | 0 <= i < j < |chain| ensures chain[i] != chain[j] {
      assert ChainLink(db, hist, chain[i], f + 1 + i) && ChainLink(db, hist, chain[j], f + 1 + j);
    }
    forall i | 0 < i < |chain| ensures db.journals[chain[i]].from == db.journals[chain[i - 1]].to {
      assert ChainLink(db, hist, chain[i], f + 1 + i) && ChainLink(db, hist, chain[i - 1], f + 1 + (i - 1));
    }
  }

  predicate ChainLink(db: Db, hist: History, k: nat, i: nat) {
    && InFlight(db, k) && k in hist.slot && hist.slot[k] == i && 1 <= i < |hist.installs|
    && db.journals[k].from == hist.installs[i - 1] && db.journals[k].to == hist.installs[i]
  }

  // ------------------------------------------------- one-shot installation

  predicate PointerMove(s: System, t: System) {
    var p, p', h, h' := s.db.pointer, t.db.pointer, s.hist.installs, t.hist.installs;
    && p.version <= p'.version && (p' != p ==> p.version < p'.version)
    && (h' == h || h' == h + [p'.generation])
    && (h' == h ==> p'.generation == p.generation)
  }

  lemma CasMoves(s: System, c: OwnerId, l: Local)
    requires LocalOf(s, c) == l && l.Busy? && l.pc.Cas?
    ensures PointerMove(s, StepCas(s, c, l))
  {}

  lemma CallPointer(s: System, c: OwnerId, ch: Choice)
    ensures PointerMove(s, CoordinatorStep(s, c, ch))
  {
    var l := LocalOf(s, c);
    if l.Busy? {
      if l.pc.Cas? { CasMoves(s, c, l); } else { CallFrame(s, c, l, ch); }
    }
  }

  lemma StepPointer(s: System, a: Action)
    ensures PointerMove(s, Step(s, a))
  {
    if a.Proceed? { CallPointer(s, a.c, a.choice); }
  }

  lemma {:induction false} RunPointer(s: System, more: seq<Action>)
    requires Inv(s)
    ensures Inv(Run(s, more))
    ensures var p, p' := s.db.pointer, Run(s, more).db.pointer;
      p.version <= p'.version && (p' != p ==> p.version < p'.version)
    ensures s.hist.installs <= Run(s, more).hist.installs
    decreases |more|
  {
    if more != [] {
      KeepsStep(s, more[0]);
      StepPointer(s, more[0]);
      RunPointer(Step(s, more[0]), more[1..]);
    }
  }

  /** A generation the pointer has left is never named by it again, however late a stale coordinator acts. */
  lemma PointerNeverReturns(s: System, first: seq<Action>, second: seq<Action>)
    requires Reachable(s)
    requires Run(Run(s, first), second).db.pointer.generation == s.db.pointer.generation
    ensures Run(s, first).db.pointer.generation == s.db.pointer.generation
  {
    var t := Run(s, first);
    var u := Run(t, second);
    ReachableInv(s);
    RunPointer(s, first);
    RunPointer(t, second);
    PointerIsLast(s);
    PointerIsLast(t);
    PointerIsLast(u);
    SamePlace(u.hist.installs, s.hist.installs, t.hist.installs);
  }

  lemma PointerIsLast(s: System)
    requires Inv(s)
    ensures Distinct(s.hist.installs) && s.hist.installs != []
    ensures s.db.pointer.generation == Last(s.hist.installs)
  {}

  function Last(h: seq<GenerationId>): GenerationId
    requires h != []
  {
    h[|h| - 1]
  }

  /** In a chain without repeats, ending where an earlier prefix ended means nothing came after it. */
  lemma SamePlace(h: seq<GenerationId>, first: seq<GenerationId>, middle: seq<GenerationId>)
    requires Distinct(h) && first != [] && first <= middle <= h && Last(h) == Last(first)
    ensures Last(middle) == Last(first)
  {
    assert h[|first| - 1] == Last(first) && h[|middle| - 1] == Last(middle);
  }

  /** Versions only grow, and every change of the pointer row changes its version. */
  lemma PointerVersions(s: System, more: seq<Action>)
    requires Reachable(s)
    ensures var p, p' := s.db.pointer, Run(s, more).db.pointer;
      p.version <= p'.version && (p' != p ==> p.version < p'.version)
  {
    ReachableInv(s);
    RunPointer(s, more);
  }

  /** No two operations with the same candidate pass CREATING_GENERATION. */
  lemma OneOwner(s: System, first: OperationId, second: OperationId)
    requires Reachable(s)
    requires first in s.db.operations && second in s.db.operations
    requires InPast(s.db.operations[first].state) && InPast(s.db.operations[second].state)
    requires s.db.operations[first].candidate == s.db.operations[second].candidate
    ensures first == second
  {
    ReachableInv(s);
    PastOwns(s.db, s.hist, first);
    PastOwns(s.db, s.hist, second);
  }

  lemma PastOwns(db: Db, hist: History, id: OperationId)
    requires DbInv(db, hist) && id in db.operations && InPast(db.operations[id].state)
    ensures Owns(db.operations, hist.creator, id)
  {
    assert OperationOk(db.operations[id], id, db.operations, db.generations, db.retirements, hist);
  }

  /** Two journals that both moved the pointer installed different generations. */
  lemma OneInstallPerGeneration(s: System, k: nat, m: nat)
    requires Reachable(s) && k < |s.db.journals| && m < |s.db.journals|
    requires s.db.journals[k].phase != Preparing && s.db.journals[m].phase != Preparing
    requires s.db.journals[k].to == s.db.journals[m].to
    ensures k == m
  {
    ReachableInv(s);
    assert JournalSlot(s.db.pointer.version, s.hist, s.db.journals[k], k);
    assert JournalSlot(s.db.pointer.version, s.hist, s.db.journals[m], m);
  }
}
