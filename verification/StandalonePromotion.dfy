/** Two-slot promotion: a journal carried through compare-and-set, router check and finalisation, across crashes. */
module StandalonePromotion {
  import opened Wrappers

  datatype SlotId = GenA | GenB
  datatype State = Building | Ready | Serving | Retiring | Failed
  datatype Protection = NoProtection | ServingProtection | RollbackProtection
  datatype Slot = Slot(state: State, protection: Protection, lifecycleVersion: nat)
  datatype Pointer = Pointer(current: SlotId, previous: Option<SlotId>, version: nat)
  datatype Phase = Preparing | PointerUpdated | RouterVerified | Finalized
  datatype Journal = Journal(from: SlotId, to: SlotId, phase: Phase, expected: nat, resulting: Option<nat>)
  datatype Mode = Promote | Rollback | Restore

  /** What the database says about the candidate's validation and catch-up when it is asked. */
  datatype Evidence = Evidence(validated: bool, caughtUp: bool)
  datatype Result = Completed(journal: Journal, idempotent: bool) | Error(code: string) | Crashed

  function Other(s: SlotId): SlotId { if s.GenA? then GenB else GenA }

  /** `candidateLifecycleEligible`. */
  predicate Eligible(s: Slot, mode: Mode) {
    if mode.Promote? then s.state.Ready? && s.protection.NoProtection?
    else s.state.Retiring? && s.protection.RollbackProtection?
  }

  predicate Candidate(s: Slot) { Eligible(s, Promote) || Eligible(s, Rollback) }

  predicate Served(s: Slot) { s.state.Serving? && s.protection.ServingProtection? }

  /** `routableLifecycle`: what the router accepts as a pointer target. */
  predicate Routable(s: Slot) {
    || (s.state.Ready? && s.protection.NoProtection?)
    || (s.state.Serving? && s.protection.ServingProtection?)
    || (s.state.Retiring? && s.protection.RollbackProtection?)
  }

  datatype Db = Db(a: Slot, b: Slot, pointer: Pointer, journals: seq<Journal>)

  function At(db: Db, s: SlotId): Slot { if s.GenA? then db.a else db.b }

  function Put(db: Db, s: SlotId, slot: Slot): Db { if s.GenA? then db.(a := slot) else db.(b := slot) }

  // ---------------------------------------------------- transactions

  /** The oldest journal that is not committed. */
  function Pending(js: seq<Journal>): (p: Option<nat>)
    ensures p.Some? ==> p.value < |js|
  {
    if js == [] then None
    else if !js[0].phase.Finalized? then Some(0)
    else var rest := Pending(js[1..]); if rest.Some? then Some(rest.value + 1) else None
  }

  lemma {:induction false} PendingExact(js: seq<Journal>)
    ensures var p := Pending(js);
      && (p.Some? ==> p.value < |js| && !js[p.value].phase.Finalized? && forall i :: 0 <= i < p.value ==>
          js[i].phase.Finalized?)
      && (p.None? ==> forall i :: 0 <= i < |js| ==> js[i].phase.Finalized?)
  {
    if js != [] {
      PendingExact(js[1..]);
      assert js == [js[0]] + js[1..];
      assert forall i :: 0 < i < |js| ==> js[i] == js[1..][i - 1];
    }
  }

  function Precondition(db: Db, mode: Mode, evidence: Evidence): Outcome<Journal> {
    var p := db.pointer;
    var to := Other(p.current);
    if mode.Promote? && !p.current.GenA? then Aborted("PROMOTION_ALREADY_APPLIED")
    else if mode.Restore? && !p.current.GenA? then Aborted("RESTORE_REQUIRES_GEN_A_SERVING")
    else if (mode.Rollback? || mode.Restore?) && p.previous != Some(to) then Aborted("ROLLBACK_SLOT_NOT_RETAINED")
    else if !Eligible(At(db, to), mode) || !evidence.validated then Aborted("CANDIDATE_NOT_VALIDATED")
    else if !evidence.caughtUp then Aborted("CANDIDATE_NOT_CURRENT")
    else Committed(Journal(p.current, to, Preparing, p.version, None))
  }

  function Cas(db: Db, i: nat): Outcome<Db>
    requires i < |db.journals|
  {
    var j, p := db.journals[i], db.pointer;
    if !j.phase.Preparing? then Committed(db)
    else if p.current != j.from || p.version != j.expected then Aborted("STANDALONE_POINTER_CAS_CONFLICT")
    else
      Committed(db.(
        pointer := Pointer(j.to, Some(p.current), p.version + 1),
        journals := db.journals[i := j.(phase := PointerUpdated, resulting := Some(p.version + 1))]))
  }

  function MarkVerified(db: Db, i: nat): Outcome<Db>
    requires i < |db.journals|
  {
    if !db.journals[i].phase.PointerUpdated? then Aborted("PROMOTION_PHASE_CONFLICT")
    else Committed(db.(journals := db.journals[i := db.journals[i].(phase := RouterVerified)]))
  }

  function Cleared(s: Slot): Slot {
    if s.protection.NoProtection? then s else Slot(s.state, NoProtection, s.lifecycleVersion + 1)
  }

  function Finalize(db: Db, i: nat): Outcome<Db>
    requires i < |db.journals|
  {
    var j := db.journals[i];
    if j.phase.Finalized? then Committed(db)
    else if !j.phase.RouterVerified? then Aborted("PROMOTION_PHASE_CONFLICT")
    else if !Candidate(At(db, j.to)) then Aborted("PROMOTION_GENERATION_CONFLICT")
    else
      var cleared := db.(a := Cleared(db.a), b := Cleared(db.b));
      var outgoing, incoming := At(cleared, j.from), At(cleared, j.to);
      if !outgoing.state.Serving? || !(incoming.state.Ready? || incoming.state.Retiring?) then
        Aborted("PROMOTION_GENERATION_CONFLICT")
      else
        var retired := Put(cleared, j.from, Slot(Retiring, RollbackProtection, outgoing.lifecycleVersion + 1));
        var served := Put(retired, j.to, Slot(Serving, ServingProtection, incoming.lifecycleVersion + 1));
        Committed(served.(journals := db.journals[i := j.(phase := Finalized)]))
  }

  // ------------------------------------------------------- invariant

  ghost predicate AllFinal(js: seq<Journal>) { forall i :: 0 <= i < |js| ==> js[i].phase.Finalized? }

  /** The last journal, if it is still under way, describes exactly where the pointer and the slots are. */
  ghost predicate UnderWay(db: Db, j: Journal) {
    && j.to == Other(j.from) && Served(At(db, j.from)) && Candidate(At(db, j.to))
    && (j.phase.Preparing? ==> db.pointer.current == j.from && db.pointer.version == j.expected)
    && (!j.phase.Preparing? ==>
          && db.pointer == Pointer(j.to, Some(j.from), j.expected + 1)
          && j.resulting == Some(j.expected + 1))
  }

  ghost predicate Settled(db: Db) {
    Served(At(db, db.pointer.current)) && !At(db, Other(db.pointer.current)).state.Serving?
  }

  ghost predicate Inv(db: Db) {
    var n := |db.journals|;
    if n > 0 && !db.journals[n - 1].phase.Finalized? then
      AllFinal(db.journals[..n - 1]) && UnderWay(db, db.journals[n - 1])
    else AllFinal(db.journals) && Settled(db)
  }

  lemma PendingIsLast(db: Db)
    requires Inv(db)
    ensures Pending(db.journals).Some? ==>
      Pending(db.journals).value == |db.journals| - 1 && UnderWay(db, db.journals[|db.journals| - 1])
    ensures Pending(db.journals).None? ==> AllFinal(db.journals) && Settled(db)
  {
    PendingExact(db.journals);
    var n := |db.journals|;
    if n > 0 && !db.journals[n - 1].phase.Finalized? {
      assert forall i :: 0 <= i < n - 1 ==> db.journals[i] == db.journals[..n - 1][i];
    }
  }

  lemma LastUnfinished(db: Db)
    requires Inv(db) && Pending(db.journals).Some?
    ensures |db.journals| > 0 && !db.journals[|db.journals| - 1].phase.Finalized?
  {
    PendingIsLast(db);
  }

  /** The pointer always names something the router will route to. */
  lemma NeverDark(db: Db)
    requires Inv(db)
    ensures Routable(At(db, db.pointer.current))
    ensures var target := At(db, db.pointer.current);
      (target.state, target.protection)
      in {(Ready, NoProtection), (Serving, ServingProtection), (Retiring, RollbackProtection)}
  {}

  lemma InsertKeeps(db: Db, mode: Mode, evidence: Evidence)
    requires Inv(db) && Pending(db.journals).None? && Precondition(db, mode, evidence).Committed?
    ensures Inv(db.(journals := db.journals + [Precondition(db, mode, evidence).state]))
  {
    PendingIsLast(db);
    var next := db.journals + [Precondition(db, mode, evidence).state];
    assert next[..|next| - 1] == db.journals;
  }

  lemma LastKept(js: seq<Journal>, j: Journal)
    requires js != []
    ensures js[|js| - 1 := j][..|js| - 1] == js[..|js| - 1]
  {}

  /** With the journal under way, the transaction of its phase succeeds and keeps the invariant. */
  lemma StepKeeps(db: Db)
    requires Inv(db) && Pending(db.journals).Some?
    ensures var i := |db.journals| - 1;
      var step := match db.journals[i].phase
        case Preparing => Cas(db, i)
        case PointerUpdated => MarkVerified(db, i)
        case _ => Finalize(db, i);
      step.Committed? && Inv(step.state)
  {
    PendingIsLast(db);
    var i := |db.journals| - 1;
    var j := db.journals[i];
    LastKept(db.journals, j.(phase := PointerUpdated, resulting := Some(db.pointer.version + 1)));
    LastKept(db.journals, j.(phase := RouterVerified));
    LastKept(db.journals, j.(phase := Finalized));
    if j.phase.RouterVerified? {
      var next := Finalize(db, i).state;
      assert forall k :: 0 <= k < |next.journals| ==> k < i ==> next.journals[k] == next.journals[..i][k];
      assert AllFinal(next.journals);
    }
  }

  /** Where a journal that runs to its end leaves the slots and the pointer. */
  ghost predicate Done(db: Db, j: Journal) {
    && At(db, j.to).state == Serving && At(db, j.to).protection == ServingProtection
    && At(db, j.from).state == Retiring && At(db, j.from).protection == RollbackProtection
    && db.pointer == Pointer(j.to, Some(j.from), j.expected + 1)
    && AllFinal(db.journals)
  }

  lemma FinalizeDone(db: Db)
    requires Inv(db) && Pending(db.journals).Some? && db.journals[|db.journals| - 1].phase.RouterVerified?
    ensures var i := |db.journals| - 1;
      && Finalize(db, i).Committed? && Done(Finalize(db, i).state, db.journals[i])
      && Inv(Finalize(db, i).state) && Routable(At(Finalize(db, i).state, Finalize(db, i).state.pointer.current))
      && Finalize(db, i).state.journals == db.journals[i := db.journals[i].(phase := Phase.Finalized)]
      && Finalize(db, i).state.pointer == db.pointer
  {
    StepKeeps(db);
    PendingIsLast(db);
    assert Inv(Finalize(db, |db.journals| - 1).state);
  }

  // ------------------------------------------- what a call may change

  /** The rows with a journal to the idle slot prepared. */
  function Opened(db: Db): Db {
    db.(journals := db.journals + [Journal(db.pointer.current, if db.pointer.current == GenA then GenB else GenA,
                                           Preparing, db.pointer.version, None)])
  }

  predicate Waits(s: Slot) { s.state == Ready && s.protection == NoProtection }

  predicate Retained(s: Slot) { s.state == Retiring && s.protection == RollbackProtection }

  /**
    The call may hand service to the idle slot: the slot is validated and caught
    up, and it is a fresh candidate behind gen-a, or the slot service came from.
   */
  predicate Admissible(db: Db, mode: Mode, evidence: Evidence) {
    var onA := db.pointer.current == GenA;
    var target := if onA then db.b else db.a;
    && evidence == Evidence(true, true)
    && match mode
       case Promote => onA && Waits(target)
       case Rollback => db.pointer.previous == Some(if onA then GenB else GenA) && Retained(target)
       case Restore => onA && db.pointer.previous == Some(GenB) && Retained(target)
  }

  /** What the call asks for has been done already. */
  ghost predicate Repeated(db: Db, mode: Mode) {
    && ((mode == Promote && db.pointer.current == GenB)
        || (mode == Rollback && db.pointer.current == GenA && db.pointer.previous == Some(GenB)))
    && exists j :: j in db.journals && j.to == db.pointer.current && j.phase.Finalized?
  }

  /** Nothing is pending, and the call does not repeat a completed one. */
  ghost predicate Idle(db: Db, mode: Mode) { Pending(db.journals).None? && !Repeated(db, mode) }

  /** Why an inadmissible call is refused: for the pointer, then for the slot, then for its cursor. */
  predicate RefusedWith(db: Db, mode: Mode, evidence: Evidence, code: string) {
    var onA := db.pointer.current == GenA;
    var target := if onA then db.b else db.a;
    var elsewhere := mode != Rollback && !onA;
    var lost := mode != Promote && db.pointer.previous != Some(if onA then GenB else GenA);
    var unfit := !evidence.validated || !(if mode == Promote then Waits(target) else Retained(target));
    && (code == "PROMOTION_ALREADY_APPLIED" <==> elsewhere && mode == Promote)
    && (code == "RESTORE_REQUIRES_GEN_A_SERVING" <==> elsewhere && mode == Restore)
    && (code == "ROLLBACK_SLOT_NOT_RETAINED" <==> !elsewhere && lost)
    && (code == "CANDIDATE_NOT_VALIDATED" <==> !elsewhere && !lost && unfit)
    && (code == "CANDIDATE_NOT_CURRENT" <==> !elsewhere && !lost && !unfit && !evidence.caughtUp)
  }

  lemma PreconditionExact(db: Db, mode: Mode, evidence: Evidence)
    ensures var r := Precondition(db, mode, evidence);
      && (r.Committed? <==> Admissible(db, mode, evidence))
      && (r.Aborted? ==> RefusedWith(db, mode, evidence, r.code))
      && (r.Committed? ==>
            r.state == Journal(db.pointer.current, Other(db.pointer.current), Preparing, db.pointer.version, None))
  {}

  function Rank(phase: Phase): nat {
    match phase
    case Preparing => 0
    case PointerUpdated => 1
    case RouterVerified => 2
    case Finalized => 3
  }

  /** How far a journal gets in `awaits` steps: not past the pointer move while the router does not see it. */
  function Reached(phase: Phase, routerObserves: bool, awaits: nat): nat {
    var limit := if routerObserves || phase == RouterVerified then 3 else 1;
    if Rank(phase) + awaits < limit then Rank(phase) + awaits else limit
  }

  /** One journal was carried on, the others and, until it is finalised, the slots are as they were. */
  ghost predicate CarriedOn(db: Db, t: Db, routerObserves: bool, awaits: nat) {
    var n := |db.journals|;
    && n > 0 && |t.journals| == n && t.journals[..n - 1] == db.journals[..n - 1]
    && var j, k := db.journals[n - 1], t.journals[n - 1];
    && k.from == j.from && k.to == j.to && k.expected == j.expected
    && Rank(k.phase) == Reached(j.phase, routerObserves, awaits)
    && (!k.phase.Finalized? ==> t.a == db.a && t.b == db.b)
    && t.pointer.version == db.pointer.version + (if j.phase.Preparing? && !k.phase.Preparing? then 1 else 0)
  }

  /** The transaction of the phase the last journal is in. */
  function NextStep(db: Db): Outcome<Db>
    requires db.journals != []
  {
    var i := |db.journals| - 1;
    match db.journals[i].phase
    case Preparing => Cas(db, i)
    case PointerUpdated => MarkVerified(db, i)
    case _ => Finalize(db, i)
  }

  /** `awaits` of these transactions, one after another, held up by a router that does not see the pointer. */
  function Carried(db: Db, routerObserves: bool, awaits: nat): Db
    decreases awaits
  {
    if awaits == 0 || db.journals == [] then db
    else
      var phase := db.journals[|db.journals| - 1].phase;
      if phase.Finalized? || (phase.PointerUpdated? && !routerObserves) || NextStep(db).Aborted? then db
      else Carried(NextStep(db).state, routerObserves, awaits - 1)
  }

  /** One transaction carries the journal one phase further. */
  lemma StepCarries(db: Db)
    requires Inv(db) && Pending(db.journals).Some?
    ensures var n := |db.journals|;
      n > 0 && NextStep(db).Committed? && Inv(NextStep(db).state)
      && var t := NextStep(db).state;
      && |t.journals| == n && t.journals[..n - 1] == db.journals[..n - 1]
      && var j, k := db.journals[n - 1], t.journals[n - 1];
      && k.from == j.from && k.to == j.to && k.expected == j.expected && Rank(k.phase) == Rank(j.phase) + 1
      && t.pointer.version == db.pointer.version + (if j.phase.Preparing? then 1 else 0)
      && (if k.phase.Finalized? then Done(t, k) else t.a == db.a && t.b == db.b && Pending(t.journals).Some?)
  {
    LastUnfinished(db);
    StepKeeps(db);
    if db.journals[|db.journals| - 1].phase.RouterVerified? { FinalizeDone(db); }
    else { PendingNow(NextStep(db).state); }
  }

  /** What one transaction leaves of the run. */
  lemma StepRuns(db: Db, routerObserves: bool, awaits: nat)
    requires Inv(db) && Pending(db.journals).Some? && awaits > 0
    requires db.journals[|db.journals| - 1].phase.PointerUpdated? ==> routerObserves
    ensures var n := |db.journals|;
      && NextStep(db).Committed? && Inv(NextStep(db).state) && |NextStep(db).state.journals| == n
      && var phase := NextStep(db).state.journals[n - 1].phase;
      && Rank(phase) == Rank(db.journals[n - 1].phase) + 1
      && (!phase.Finalized? ==> Pending(NextStep(db).state.journals).Some?)
      && Carried(db, routerObserves, awaits) == Carried(NextStep(db).state, routerObserves, awaits - 1)
  {
    LastUnfinished(db);
    StepCarries(db);
  }

  /** However far it gets, the journal alone is carried on, and the invariant is kept. */
  lemma {:induction false} CarriedMeans(db: Db, routerObserves: bool, awaits: nat)
    requires Inv(db) && Pending(db.journals).Some?
    ensures var t := Carried(db, routerObserves, awaits);
      && CarriedOn(db, t, routerObserves, awaits) && Inv(t)
      && var last := t.journals[|t.journals| - 1];
      && (last.phase.Finalized? ==> Done(t, last))
    decreases awaits
  {
    LastUnfinished(db);
    var phase := db.journals[|db.journals| - 1].phase;
    if awaits > 0 && !(phase.PointerUpdated? && !routerObserves) {
      StepCarries(db);
      var next := NextStep(db).state;
      if !next.journals[|next.journals| - 1].phase.Finalized? { CarriedMeans(next, routerObserves, awaits - 1); }
    }
  }

  /** How the call ends, from how far its journal got. */
  predicate EndsAt(result: Result, phase: Phase, routerObserves: bool) {
    && (result.Completed? <==> phase == Finalized)
    && (result.Error? <==> phase == PointerUpdated && !routerObserves)
    && (result.Error? ==> result.code == "ROUTER_PROMOTION_NOT_OBSERVED")
  }

  /** After every completed promotion the way back is open, with the retained slot as its candidate. */
  lemma WayBackOpen(db: Db, j: Journal)
    requires Done(db, j) && j.to == Other(j.from)
    ensures Precondition(db, if j.to.GenB? then Rollback else Restore, Evidence(true, true))
         == Committed(Journal(j.to, j.from, Preparing, db.pointer.version, None))
  {}

  class StandalonePromotionCoordinator {
    var a: Slot
    var b: Slot
    var pointer: Pointer
    var journals: seq<Journal>

    function Rows(): Db
      reads this
    {
      Db(a, b, pointer, journals)
    }

    ghost predicate Valid()
      reads this
    {
      Inv(Rows())
    }

    method Store(db: Db)
      modifies this
      ensures Rows() == db
    {
      a, b, pointer, journals := db.a, db.b, db.pointer, db.journals;
    }

    /** The latest committed journal to `to`. */
    method LastCompleted(to: SlotId) returns (found: Option<Journal>)
      ensures found.Some? ==> found.value in journals && found.value.to == to && found.value.phase.Finalized?
      ensures found.None? <==> forall j :: j in journals ==> !(j.to == to && j.phase.Finalized?)
    {
      found := None;
      for i := 0 to |journals|
        invariant found.Some? ==> found.value in journals && found.value.to == to && found.value.phase.Finalized?
        invariant found.None? <==> forall k :: 0 <= k < i ==> !(journals[k].to == to && journals[k].phase.Finalized?)
      {
        if journals[i].to == to && journals[i].phase.Finalized? { found := Some(journals[i]); }
      }
    }

    /** The completed journal that a call with nothing pending would only repeat. */
    method AlreadyDone(mode: Mode) returns (done: Option<Journal>)
      ensures done.Some? <==> Pending(journals).None? && Repeated(Rows(), mode)
      ensures done.Some? ==> done.value in journals && done.value.to == pointer.current
    {
      if Pending(journals).None? && ((mode.Promote? && pointer.current.GenB?)
          || (mode.Rollback? && pointer.current.GenA? && pointer.previous == Some(GenB))) {
        done := LastCompleted(pointer.current);
      } else {
        done := None;
      }
    }

    /**
      `promote`, cut after `awaits` durable steps. Whatever the cut and whatever
      the router answers, the pointer's target stays routable. With nothing
      pending, a call changes something exactly if it is admissible: then it
      opens the journal to the idle slot and carries it on as far as it gets.
     */
    method PromoteCall(mode: Mode, evidence: Evidence, routerObserves: bool, awaits: nat) returns (result: Result)
      requires Valid()
      modifies this
      ensures Valid() && Routable(At(Rows(), pointer.current))
      ensures result.Completed? && !result.idempotent ==> Done(Rows(), result.journal)
      ensures result.Completed? && result.idempotent <==>
        old(Pending(journals)).None? && old(Repeated(Rows(), mode))
      ensures result.Completed? && result.idempotent ==>
        Rows() == old(Rows()) && result.journal in journals && result.journal.to == pointer.current
      ensures old(Idle(Rows(), mode)) && !old(Admissible(Rows(), mode, evidence)) ==>
        Rows() == old(Rows()) && result.Error? && old(RefusedWith(Rows(), mode, evidence, result.code))
      ensures old(Idle(Rows(), mode)) && old(Admissible(Rows(), mode, evidence)) && awaits == 0 ==>
        Rows() == old(Rows()) && result.Crashed?
      ensures old(Idle(Rows(), mode)) && old(Admissible(Rows(), mode, evidence)) && awaits > 0 ==>
        && CarriedOn(old(Opened(Rows())), Rows(), routerObserves, awaits - 1)
        && EndsAt(result, journals[|journals| - 1].phase, routerObserves)
      ensures old(Pending(journals)).Some? ==>
        && CarriedOn(old(Rows()), Rows(), routerObserves, awaits)
        && EndsAt(result, journals[|journals| - 1].phase, routerObserves)
    {
      NeverDark(Rows());
      var done := AlreadyDone(mode);
      if done.Some? { return Completed(done.value, true); }
      if Pending(journals).None? { result := Begin(mode, evidence, routerObserves, awaits); }
      else { result := Resume(routerObserves, awaits); }
    }

    /** `promote` with nothing pending: the precondition, then the journal. */
    method Begin(mode: Mode, evidence: Evidence, routerObserves: bool, awaits: nat) returns (result: Result)
      requires Valid() && Pending(journals).None?
      modifies this
      ensures Valid() && Routable(At(Rows(), pointer.current))
      ensures result.Completed? ==> !result.idempotent && Done(Rows(), result.journal)
      ensures !old(Admissible(Rows(), mode, evidence)) ==>
        Rows() == old(Rows()) && result.Error? && old(RefusedWith(Rows(), mode, evidence, result.code))
      ensures old(Admissible(Rows(), mode, evidence)) && awaits == 0 ==> Rows() == old(Rows()) && result.Crashed?
      ensures old(Admissible(Rows(), mode, evidence)) && awaits > 0 ==>
        && CarriedOn(old(Opened(Rows())), Rows(), routerObserves, awaits - 1)
        && EndsAt(result, journals[|journals| - 1].phase, routerObserves)
    {
      NeverDark(Rows());
      PreconditionExact(Rows(), mode, evidence);
      var checked := Precondition(Rows(), mode, evidence);
      if checked.Aborted? { return Error(checked.code); }
      if awaits == 0 { return Crashed; }
      OpenJournal(mode, evidence);
      result := Resume(routerObserves, awaits - 1);
    }

    /** The journal insert. */
    method OpenJournal(mode: Mode, evidence: Evidence)
      requires Valid() && Pending(journals).None? && Precondition(Rows(), mode, evidence).Committed?
      modifies this`journals
      ensures Valid() && Pending(journals).Some?
      ensures Rows() == Opened(old(Rows()))
    {
      InsertKeeps(Rows(), mode, evidence);
      journals := journals + [Precondition(Rows(), mode, evidence).state];
      PendingNow(Rows());
    }

    /** The rest of `promote`, from whatever phase the journal is in. */
    method Resume(routerObserves: bool, awaits: nat) returns (result: Result)
      requires Valid() && Pending(journals).Some?
      modifies this
      ensures Valid() && Routable(At(Rows(), pointer.current))
      ensures CarriedOn(old(Rows()), Rows(), routerObserves, awaits)
      ensures EndsAt(result, journals[|journals| - 1].phase, routerObserves)
      ensures result.Completed? ==>
        !result.idempotent && result.journal == journals[|journals| - 1] && Done(Rows(), result.journal)
    {
      CarriedMeans(Rows(), routerObserves, awaits);
      result := RunTransactions(routerObserves, awaits);
      NeverDark(Rows());
    }

    /** Compare-and-set, router check and finalisation, one transaction each. */
    method RunTransactions(routerObserves: bool, awaits: nat) returns (result: Result)
      requires Valid() && Pending(journals).Some?
      modifies this
      ensures Rows() == Carried(old(Rows()), routerObserves, awaits) && journals != []
      ensures EndsAt(result, journals[|journals| - 1].phase, routerObserves)
      ensures result.Completed? ==> !result.idempotent && result.journal == journals[|journals| - 1]
    {
      LastUnfinished(Rows());
      var i := |journals| - 1;
      if !journals[i].phase.Preparing? { result := FromMoved(routerObserves, awaits); return; }
      if awaits == 0 { return Crashed; }
      StepRuns(Rows(), routerObserves, awaits);
      Store(Cas(Rows(), i).state);
      result := FromMoved(routerObserves, awaits - 1);
    }

    method FromMoved(routerObserves: bool, awaits: nat) returns (result: Result)
      requires Valid() && Pending(journals).Some? && journals != [] && !journals[|journals| - 1].phase.Preparing?
      modifies this
      ensures Rows() == Carried(old(Rows()), routerObserves, awaits) && journals != []
      ensures EndsAt(result, journals[|journals| - 1].phase, routerObserves)
      ensures result.Completed? ==> !result.idempotent && result.journal == journals[|journals| - 1]
    {
      LastUnfinished(Rows());
      var i := |journals| - 1;
      if journals[i].phase.RouterVerified? { result := FromVerified(routerObserves, awaits); return; }
      if !routerObserves { return Error("ROUTER_PROMOTION_NOT_OBSERVED"); }
      if awaits == 0 { return Crashed; }
      StepRuns(Rows(), routerObserves, awaits);
      Store(MarkVerified(Rows(), i).state);
      result := FromVerified(routerObserves, awaits - 1);
    }

    method FromVerified(routerObserves: bool, awaits: nat) returns (result: Result)
      requires Valid() && Pending(journals).Some? && journals != [] && journals[|journals| - 1].phase.RouterVerified?
      modifies this
      ensures Rows() == Carried(old(Rows()), routerObserves, awaits) && journals != []
      ensures EndsAt(result, journals[|journals| - 1].phase, routerObserves)
      ensures result.Completed? ==> !result.idempotent && result.journal == journals[|journals| - 1]
    {
      if awaits == 0 { return Crashed; }
      var i := |journals| - 1;
      StepRuns(Rows(), routerObserves, awaits);
      Store(Finalize(Rows(), i).state);
      return Completed(journals[i], false);
    }
  }

  lemma PendingNow(db: Db)
    requires Inv(db) && |db.journals| > 0 && !db.journals[|db.journals| - 1].phase.Finalized?
    ensures Pending(db.journals).Some?
  {
    PendingExact(db.journals);
  }
}
