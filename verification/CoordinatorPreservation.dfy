/** Every step of every coordinator, however stale, keeps the invariant. */
module CoordinatorPreservation {
  import opened CoordinatorDb
  import opened CoordinatorProtocol
  import opened CoordinatorInvariants

  // ---------------------------------------- what no step ever takes back

  ghost predicate OpsGrow(o: Ops, o': Ops) {
    forall id :: id in o ==> id in o' && o'[id].kind == o[id].kind && o'[id].candidate == o[id].candidate
  }

  ghost predicate GensGrow(g: Gens, h: seq<GenerationId>, g': Gens, h': seq<GenerationId>) {
    && (forall x :: x in g ==> x in g')
    && (forall x :: Promotable(g, h, x) ==> Promotable(g', h', x))
  }

  ghost predicate CreatorGrows(c: Creator, c': Creator) {
    forall g :: g in c ==> g in c' && c'[g] == c[g]
  }

  ghost predicate PointerGrows(v: nat, h: seq<GenerationId>, v': nat, h': seq<GenerationId>) {
    v <= v' && forall g :: g in h' && g !in h ==> v < v'
  }

  ghost predicate RetsGrow(r: Rets, r': Rets) {
    forall g :: g in r ==>
      && g in r' && r'[g].op == r[g].op
      && (r[g].state != WaitingEligibility ==> r'[g].state != WaitingEligibility)
  }

  /** A stale coordinator's knowledge stays true across the step. */
  ghost predicate Grows(db: Db, hist: History, db': Db, hist': History) {
    && OpsGrow(db.operations, db'.operations)
    && GensGrow(db.generations, hist.installs, db'.generations, hist'.installs)
    && CreatorGrows(hist.creator, hist'.creator)
    && PointerGrows(db.pointer.version, hist.installs, db'.pointer.version, hist'.installs)
    && |db.journals| <= |db'.journals|
    && RetsGrow(db.retirements, db'.retirements)
  }

  lemma LocalStays(db: Db, hist: History, db': Db, hist': History, l: Local)
    requires Grows(db, hist, db', hist') && LocalOk(db, hist, l)
    ensures LocalOk(db', hist', l)
  {}

  ghost predicate Kept(s: System, db': Db, hist': History) {
    DbInv(db', hist') && Grows(s.db, s.hist, db', hist')
  }

  /** One coordinator moves to a good local state; everyone else keeps theirs. */
  lemma WithLocal(s: System, t: System, c: OwnerId, l: Local)
    requires Inv(s) && Kept(s, t.db, t.hist)
    requires t.locals == s.locals[c := l] && LocalOk(t.db, t.hist, l)
    ensures Inv(t)
  {
    forall d | d in t.locals ensures LocalOk(t.db, t.hist, t.locals[d]) {
      if d != c { LocalStays(s.db, s.hist, t.db, t.hist, s.locals[d]); }
    }
  }

  lemma SameLocals(s: System, t: System)
    requires Inv(s) && Kept(s, t.db, t.hist) && t.locals == s.locals
    ensures Inv(t)
  {
    forall d | d in t.locals ensures LocalOk(t.db, t.hist, t.locals[d]) {
      LocalStays(s.db, s.hist, t.db, t.hist, s.locals[d]);
    }
  }

  lemma KeepsFail(s: System, c: OwnerId)
    requires Inv(s)
    ensures Inv(Fail(s, c))
  {
    WithLocal(s, Fail(s, c), c, Idle);
  }

  // ------------------------------------------------------- framing of rows

  lemma OwnedStays(ops: Ops, gens: Gens, journals: seq<Journal>, hist: History, ops': Ops, gens': Gens, hist': History)
    requires Owned(ops, gens, journals, hist)
    requires OpsGrow(ops, ops') && GensGrow(gens, hist.installs, gens', hist'.installs)
    requires CreatorGrows(hist.creator, hist'.creator)
    ensures Owned(ops', gens', journals, hist')
  {
    forall k | 0 <= k < |journals| ensures JournalOwned(ops', gens', hist', journals[k]) {
      assert JournalOwned(ops, gens, hist, journals[k]);
    }
  }

  lemma OperationStays(op: Operation, id: OperationId, ops: Ops, gens: Gens, rets: Rets, hist: History, ops': Ops,
                       gens': Gens, rets': Rets, hist': History)
    requires OperationOk(op, id, ops, gens, rets, hist)
    requires OpsGrow(ops, ops') && GensGrow(gens, hist.installs, gens', hist'.installs)
    requires CreatorGrows(hist.creator, hist'.creator)
    requires op.kind == RetirementOp ==> op.candidate in rets' && rets'[op.candidate].op == id
    requires op.kind == RetirementOp && op.state == RetirementWaiting ==>
      rets'[op.candidate].state == WaitingEligibility
    ensures OperationOk(op, id, ops', gens', rets', hist')
  {}

  /** One operation row changes or is added; retirement rows and generations do not. */
  lemma OperationRow(s: System, db': Db, id: OperationId)
    requires DbInv(s.db, s.hist) && id in db'.operations
    requires db' == s.db.(operations := s.db.operations[id := db'.operations[id]])
    requires OpsGrow(s.db.operations, db'.operations)
    requires OperationOk(db'.operations[id], id, db'.operations, s.db.generations, s.db.retirements, s.hist)
    ensures Kept(s, db', s.hist)
  {
    OwnedStays(s.db.operations, s.db.generations, s.db.journals, s.hist, db'.operations, db'.generations, s.hist);
    forall other | other in db'.operations
      ensures OperationOk(db'.operations[other], other, db'.operations, db'.generations, db'.retirements, s.hist)
    {
      if other != id {
        OperationStays(s.db.operations[other], other, s.db.operations, s.db.generations, s.db.retirements, s.hist,
                       db'.operations, db'.generations, db'.retirements, s.hist);
      }
    }
    assert RetirementsOwned(db'.operations, db'.retirements) by {
      forall g | g in db'.retirements ensures RetirementOwned(db'.retirements[g], g, db'.operations) {
        assert RetirementOwned(s.db.retirements[g], g, s.db.operations);
      }
    }
  }

  /** Operations stay good when generations only gain standing. */
  lemma OperationsStay(s: System, gens': Gens, hist': History)
    requires Operations(s.db.operations, s.db.generations, s.db.retirements, s.hist)
    requires GensGrow(s.db.generations, s.hist.installs, gens', hist'.installs)
    requires CreatorGrows(s.hist.creator, hist'.creator)
    ensures Operations(s.db.operations, gens', s.db.retirements, hist')
  {
    forall id | id in s.db.operations
      ensures OperationOk(s.db.operations[id], id, s.db.operations, gens', s.db.retirements, hist')
    {
      OperationStays(s.db.operations[id], id, s.db.operations, s.db.generations, s.db.retirements, s.hist,
                     s.db.operations, gens', s.db.retirements, hist');
    }
  }

  predicate Building(state: GenState) { state in {Creating, Loading, CatchingUp, Validating} }

  lemma NotInstalled(gens: Gens, h: seq<GenerationId>, f: nat, g: GenerationId)
    requires Rows(gens, h, f)
    requires g in gens ==> gens[g].state !in {Ready, Serving, Retiring, Retired}
    ensures g !in h
  {}

  lemma RowsAt(gens: Gens, h: seq<GenerationId>, f: nat, g: GenerationId, row: Generation)
    requires Rows(gens, h, f)
    requires forall i :: 0 <= i < |h| && h[i] == g ==> InstalledRow(row, i, f)
    ensures Rows(gens[g := row], h, f)
  {}

  lemma ProtectionsAt(gens: Gens, p: Pointer, h: seq<GenerationId>, f: nat, g: GenerationId, row: Generation)
    requires f < |h| && Protections(gens, p, h, f) && ProtectionOk(row, g, h, f)
    requires row.protection == RollbackProtection <==> (g in gens && gens[g].protection == RollbackProtection)
    ensures Protections(gens[g := row], p, h, f)
  {}

  lemma SlotsStay(version: nat, journals: seq<Journal>, hist: History, hist': History)
    requires |hist.installer| == |hist.installs| && Slots(version, journals, hist)
    requires hist' == hist.(creator := hist'.creator)
    ensures Slots(version, journals, hist')
  {
    forall k | 0 <= k < |journals| ensures JournalSlot(version, hist', journals[k], k) {
      assert JournalSlot(version, hist, journals[k], k);
    }
  }

  /** A generation that is not READY or later moves while it is being built. */
  lemma BuildingRow(s: System, g: GenerationId, row: Generation, hist': History)
    requires DbInv(s.db, s.hist)
    requires hist' == s.hist.(creator := hist'.creator) && CreatorGrows(s.hist.creator, hist'.creator)
    requires row.protection == Unprotected && (Building(row.state) || row.state in {Ready, Failed})
    requires g in s.db.generations ==>
      (s.db.generations[g].protection == Unprotected
       && (Building(s.db.generations[g].state) || s.db.generations[g].state == Failed))
    requires Creators(s.db.operations, s.db.generations[g := row], hist'.creator)
    requires s.hist.installs[0] !in hist'.creator
    ensures Kept(s, s.db.(generations := s.db.generations[g := row]), hist')
  {
    var gens := s.db.generations;
    var gens' := gens[g := row];
    BuildingRegistry(gens, s.db.pointer, s.hist.installs, s.hist.finalized, s.db.retirements, g, row);
    OwnedStays(s.db.operations, gens, s.db.journals, s.hist, s.db.operations, gens', hist');
    OperationsStay(s, gens', hist');
    SlotsStay(s.db.pointer.version, s.db.journals, s.hist, hist');
  }

  lemma BuildingRegistry(gens: Gens, p: Pointer, h: seq<GenerationId>, f: nat, rets: Rets, g: GenerationId,
                         row: Generation)
    requires f < |h| && Rows(gens, h, f) && Protections(gens, p, h, f) && RetirementRows(gens, rets)
    requires row.protection == Unprotected && (Building(row.state) || row.state in {Ready, Failed})
    requires g in gens ==> gens[g].protection == Unprotected && (Building(gens[g].state) || gens[g].state == Failed)
    ensures Rows(gens[g := row], h, f) && Protections(gens[g := row], p, h, f)
    ensures RetirementRows(gens[g := row], rets) && GensGrow(gens, h, gens[g := row], h)
  {
    NotInstalled(gens, h, f, g);
    RowsAt(gens, h, f, g, row);
    ProtectionsAt(gens, p, h, f, g, row);
    assert g in rets && g in gens ==> RetirementRow(rets[g], gens[g]);
  }
}
