/**
  The one-transaction promotion and rollback of the serving pointer, and that
  the journaled promotion refines it whatever crashes and retries lie between.
 */
module ServingPointer {
  import opened Wrappers
  import opened CoordinatorDb

  function AtomicPromote(db: Db, g: GenerationId, expectedGeneration: GenerationId,
                         expectedVersion: nat): (r: Outcome<Db>) {
    if db.pointer.version != expectedVersion || db.pointer.generation != expectedGeneration then
      Aborted("SERVING_POINTER_CONFLICT")
    else if g !in db.generations || db.generations[g].state != Ready || !db.generations[g].valid then
      Aborted("CANDIDATE_NOT_READY")
    else
      var cleared := Unprotect(db.generations);
      var demoted := Demote(cleared, db.pointer.generation);
      var row := demoted[g];
      Committed(db.(
        generations := demoted[g := row.(state := Serving, protection := ServingProtected, version := row.version + 1)],
        pointer := Pointer(g, Some(db.pointer.generation), db.pointer.version + 1)))
  }

  /** `... SET state='RETIRING', protection_state='ROLLBACK' WHERE generation_id = g AND state = 'SERVING'`. */
  function Demote(rows: map<GenerationId, Generation>, g: GenerationId): (r: map<GenerationId, Generation>)
    ensures r.Keys == rows.Keys
  {
    if g in rows && rows[g].state == Serving
    then rows[g := rows[g].(state := Retiring, protection := RollbackProtection, version := rows[g].version + 1)]
    else rows
  }

  function AtomicRollback(db: Db, expectedVersion: nat): (r: Outcome<Db>) {
    if db.pointer.version != expectedVersion || db.pointer.previous.None? then Aborted("ROLLBACK_POINTER_CONFLICT")
    else
      var back := db.pointer.previous.value;
      var current := db.pointer.generation;
      if back !in db.generations || db.generations[back].state != Retiring
        || db.generations[back].protection != RollbackProtection
      then Aborted("ROLLBACK_GENERATION_UNAVAILABLE")
      else
        var cleared := Unprotect(db.generations);
        var parked :=
          if current in cleared && cleared[current].state == Serving && cleared[current].protection == Unprotected
          then
            cleared[current := cleared[current].(state := Ready, protection := RollbackProtection,
                                                 version := cleared[current].version + 1)]
          else cleared;
        var restored :=
          if parked[back].protection == Unprotected
          then
            parked[back := parked[back].(state := Serving, protection := ServingProtected,
                                         version := parked[back].version + 1)]
          else parked;
        Committed(db.(generations := restored, pointer := Pointer(back, Some(current), db.pointer.version + 1)))
  }

  // ------------------------------------------------------ when they commit

  /** A promotion commits exactly for a validated READY candidate at the pointer the caller saw. */
  lemma PromoteExact(db: Db, g: GenerationId, expectedGeneration: GenerationId, expectedVersion: nat)
    ensures AtomicPromote(db, g, expectedGeneration, expectedVersion).Committed? <==>
      && (db.pointer.generation, db.pointer.version) == (expectedGeneration, expectedVersion)
      && g in db.generations && db.generations[g].state == Ready && db.generations[g].valid
  {}

  /** A rollback commits exactly at the version the caller saw, with the generation before retained for it. */
  lemma RollbackExact(db: Db, expectedVersion: nat)
    ensures AtomicRollback(db, expectedVersion).Committed? <==>
      && db.pointer.version == expectedVersion && db.pointer.previous.Some?
      && db.pointer.previous.value in db.generations
      && (db.generations[db.pointer.previous.value].state, db.generations[db.pointer.previous.value].protection)
         == (Retiring, RollbackProtection)
  {}

  // ------------------------------------------------------------ refinement

  /** One attempt of recovery on journal `k`, or a transaction on other rows. */
  datatype Call = CasCall | MarkCall | FinalizeCall | Elsewhere(rows: Db)

  predicate LeavesAlone(db: Db, k: nat, rows: Db)
    requires k < |db.journals|
  {
    && rows.pointer == db.pointer && rows.generations == db.generations && k < |rows.journals|
    && rows.journals[k] == db.journals[k]
  }

  function After(db: Db, r: Outcome<Db>): Db {
    match r case Committed(next) => next case Aborted(_) => db
  }

  function Attempt(db: Db, k: nat, call: Call): (r: Db)
    requires k < |db.journals|
    ensures k < |r.journals|
  {
    match call
    case CasCall => After(db, CasPointer(db, k))
    case MarkCall => After(db, MarkRouterVerified(db, k))
    case FinalizeCall => After(db, FinalizePromotion(db, k))
    case Elsewhere(rows) => if LeavesAlone(db, k, rows) then rows else db
  }

  /** Crashes cut the calls anywhere; restarts repeat any of them, in any order. */
  function Recover(db: Db, k: nat, calls: seq<Call>): (r: Db)
    requires k < |db.journals|
    ensures k < |r.journals|
    decreases |calls|
  {
    if calls == [] then db else Recover(Attempt(db, k, calls[0]), k, calls[1..])
  }

  predicate Prepared(db: Db, k: nat) {
    && k < |db.journals| && db.journals[k].phase == Preparing
    && db.journals[k].from == db.pointer.generation && db.journals[k].expected == db.pointer.version
  }

  /** How far recovery of the journal prepared in `start` has come. */
  ghost predicate Progress(start: Db, k: nat, db: Db)
    requires Prepared(start, k) && k < |db.journals|
  {
    var j := start.journals[k];
    var moved := Pointer(j.to, Some(start.pointer.generation), start.pointer.version + 1);
    && db.journals[k].from == j.from && db.journals[k].to == j.to && db.journals[k].expected == j.expected
    && match db.journals[k].phase
       case Preparing => db.pointer == start.pointer && db.generations == start.generations
       case PointerUpdated => db.pointer == moved && db.generations == start.generations
       case RouterVerified => db.pointer == moved && db.generations == start.generations
       case GenerationFinalized =>
         && db.pointer == moved
         && j.from in start.generations && start.generations[j.from].state == Serving
         && j.to in start.generations && start.generations[j.to].state == Ready
         && db.generations == Finalised(start.generations, j.from, j.to)
  }

  function Finalised(rows: map<GenerationId, Generation>, from: GenerationId,
                     to: GenerationId): map<GenerationId, Generation>
    requires from in rows && to in rows
  {
    var cleared := Unprotect(rows);
    var demoted := cleared[from := cleared[from].(state := Retiring, protection := RollbackProtection,
                                                  version := cleared[from].version + 1)];
    demoted[to := demoted[to].(state := Serving, protection := ServingProtected, version := demoted[to].version + 1)]
  }

  lemma AttemptProgress(start: Db, k: nat, db: Db, call: Call)
    requires Prepared(start, k) && k < |db.journals| && Progress(start, k, db)
    ensures Progress(start, k, Attempt(db, k, call))
  {}

  lemma {:induction false} RecoverProgress(start: Db, k: nat, db: Db, calls: seq<Call>)
    requires Prepared(start, k) && k < |db.journals| && Progress(start, k, db)
    ensures Progress(start, k, Recover(db, k, calls))
    decreases |calls|
  {
    if calls != [] {
      AttemptProgress(start, k, db, calls[0]);
      RecoverProgress(start, k, Attempt(db, k, calls[0]), calls[1..]);
    }
  }

  /**
    Whatever the crashes and retries, a journal that reaches
    GENERATION_FINALIZED has left the pointer and every generation row exactly
    as the one-transaction promotion of a validated candidate leaves them.
   */
  lemma JournaledRefinesAtomic(db: Db, k: nat, calls: seq<Call>)
    requires Prepared(db, k) && Recover(db, k, calls).journals[k].phase == GenerationFinalized
    requires db.journals[k].to in db.generations ==> db.generations[db.journals[k].to].valid
    ensures var r := AtomicPromote(db, db.journals[k].to, db.pointer.generation, db.pointer.version);
      && r.Committed?
      && Recover(db, k, calls).pointer == r.state.pointer
      && Recover(db, k, calls).generations == r.state.generations
  {
    RecoverProgress(db, k, db, calls);
  }

  predicate CanFinalise(db: Db, j: Journal) {
    && j.from in db.generations && db.generations[j.from].state == Serving
    && j.to in db.generations && db.generations[j.to].state == Ready
  }

  lemma StraightRecovery(db: Db, k: nat) returns (calls: seq<Call>)
    requires Prepared(db, k) && CanFinalise(db, db.journals[k])
    ensures Recover(db, k, calls).journals[k].phase == GenerationFinalized
  {
    var a := Attempt(db, k, CasCall);
    var b := Attempt(a, k, MarkCall);
    var c := Attempt(b, k, FinalizeCall);
    assert a.journals[k].phase == PointerUpdated && b.journals[k].phase == RouterVerified
      && c.journals[k].phase == GenerationFinalized;
    calls := [CasCall, MarkCall, FinalizeCall];
    assert calls[1..] == [MarkCall, FinalizeCall] && calls[1..][1..] == [FinalizeCall];
    assert Recover(c, k, [FinalizeCall][1..]) == c;
    assert Recover(b, k, [FinalizeCall]) == c;
    assert Recover(a, k, [MarkCall, FinalizeCall]) == c;
  }

  /** Recovery can finish exactly when the source row is still SERVING and the target READY. */
  lemma RecoveryFinishes(db: Db, k: nat)
    requires Prepared(db, k)
    ensures (exists calls :: Recover(db, k, calls).journals[k].phase == GenerationFinalized)
       <==> CanFinalise(db, db.journals[k])
  {
    if CanFinalise(db, db.journals[k]) { var calls := StraightRecovery(db, k); }
    forall calls | Recover(db, k, calls).journals[k].phase == GenerationFinalized
      ensures CanFinalise(db, db.journals[k])
    {
      RecoverProgress(db, k, db, calls);
    }
  }

  /** Rolling back a promotion serves the old generation again and keeps the new one READY behind it. */
  lemma RollbackUndoesPromote(db: Db, g: GenerationId)
    requires db.pointer.generation in db.generations && db.generations[db.pointer.generation].state == Serving
    requires AtomicPromote(db, g, db.pointer.generation, db.pointer.version).Committed?
    ensures var promoted := AtomicPromote(db, g, db.pointer.generation, db.pointer.version).state;
      var r := AtomicRollback(promoted, promoted.pointer.version);
      && r.Committed?
      && r.state.pointer == Pointer(db.pointer.generation, Some(g), db.pointer.version + 2)
      && r.state.generations[db.pointer.generation].state == Serving
      && r.state.generations[db.pointer.generation].protection == ServingProtected
      && r.state.generations[g].state == Ready && r.state.generations[g].protection == RollbackProtection
      && (forall other :: other in db.generations && other != g && other != db.pointer.generation ==>
            r.state.generations[other].state == db.generations[other].state
            && r.state.generations[other].protection !in {ServingProtected, RollbackProtection})
  {}
}
