/** Promotion transactions keep the database invariant and extend its history. */
module CoordinatorPromotionSteps {
  import opened Wrappers
  import opened CoordinatorDb
  import opened CoordinatorProtocol
  import opened CoordinatorInvariants
  import opened CoordinatorPreservation

  lemma PrepareKept(s: System, id: OperationId, from: GenerationId, version: nat)
    requires DbInv(s.db, s.hist)
    requires Owns(s.db.operations, s.hist.creator, id) && s.db.operations[id].kind == PromotionOp
    requires Promotable(s.db.generations, s.hist.installs, s.db.operations[id].candidate)
    requires version <= s.db.pointer.version
    requires s.db.operations[id].candidate in s.hist.installs ==> version < s.db.pointer.version
    ensures var r := PreparePromotion(s.db, id, from, s.db.operations[id].candidate, version);
      r.Committed? ==> Kept(s, r.state, s.hist)
  {
    var r := PreparePromotion(s.db, id, from, s.db.operations[id].candidate, version);
    if r.Committed? {
      forall k | 0 <= k < |r.state.journals|
        ensures JournalOwned(s.db.operations, s.db.generations, s.hist, r.state.journals[k])
        ensures JournalSlot(s.db.pointer.version, s.hist, r.state.journals[k], k)
      {
        if k < |s.db.journals| {
          assert r.state.journals[k] == s.db.journals[k];
          assert JournalOwned(s.db.operations, s.db.generations, s.hist, s.db.journals[k]);
          assert JournalSlot(s.db.pointer.version, s.hist, s.db.journals[k], k);
        }
      }
    }
  }

  /** The history after journal `k` moved the pointer. */
  function Installed(hist: History, journals: seq<Journal>, k: nat): History
    requires k < |journals|
  {
    hist.(installs := hist.installs + [journals[k].to], installer := hist.installer + [k],
          slot := hist.slot[k := |hist.installs|])
  }

  /** A journal that can still move the pointer targets a generation never installed before. */
  lemma CasTarget(db: Db, hist: History, k: nat)
    requires DbInv(db, hist) && k < |db.journals| && db.journals[k].phase == Preparing
    requires db.pointer.version == db.journals[k].expected
    ensures db.journals[k].to !in hist.installs && db.journals[k].to in db.generations
    ensures db.generations[db.journals[k].to].state == Ready
    ensures db.generations[db.journals[k].to].protection == Unprotected
  {
    assert JournalSlot(db.pointer.version, hist, db.journals[k], k);
    assert JournalOwned(db.operations, db.generations, hist, db.journals[k]);
    assert ProtectionOk(db.generations[db.journals[k].to], db.journals[k].to, hist.installs, hist.finalized);
  }

  lemma ChainExtends(p: Pointer, hist: History, to: GenerationId, k: nat)
    requires Chain(p, hist) && to !in hist.installs
    ensures Chain(Pointer(to, Some(p.generation), p.version + 1),
                  hist.(installs := hist.installs + [to], installer := hist.installer + [k],
                        slot := hist.slot[k := |hist.installs|]))
  {
    var h, h' := hist.installs, hist.installs + [to];
    forall i, j | 0 <= i < j < |h'| ensures h'[i] != h'[j] {
      if j == |h| { assert h[i] in h; }
    }
  }

  lemma RegistryExtends(gens: Gens, p: Pointer, hist: History, to: GenerationId)
    requires Chain(p, hist) && Rows(gens, hist.installs, hist.finalized)
    requires Protections(gens, p, hist.installs, hist.finalized)
    requires to in gens && gens[to].state == Ready && gens[to].protection == Unprotected
    ensures Rows(gens, hist.installs + [to], hist.finalized)
    ensures Protections(gens, Pointer(to, Some(p.generation), p.version + 1), hist.installs + [to], hist.finalized)
  {
    var h, h', f := hist.installs, hist.installs + [to], hist.finalized;
    forall g | g in gens ensures ProtectionOk(gens[g], g, h', f) {
      assert ProtectionOk(gens[g], g, h, f);
    }
  }

  lemma SlotsExtend(db: Db, hist: History, k: nat)
    requires DbInv(db, hist) && k < |db.journals| && db.journals[k].phase == Preparing
    requires db.pointer.generation == db.journals[k].from && db.pointer.version == db.journals[k].expected
    requires db.journals[k].to !in hist.installs
    ensures Slots(db.pointer.version + 1,
                  db.journals[k := db.journals[k].(phase := PointerUpdated, resulting := Some(db.pointer.version + 1))],
                  Installed(hist, db.journals, k))
  {
    var hist' := Installed(hist, db.journals, k);
    var v' := db.pointer.version + 1;
    var journals' := db.journals[k := db.journals[k].(phase := PointerUpdated, resulting := Some(v'))];
    assert JournalSlot(db.pointer.version, hist, db.journals[k], k);
    forall m | 0 <= m < |journals'| ensures JournalSlot(v', hist', journals'[m], m) {
      assert JournalSlot(db.pointer.version, hist, db.journals[m], m);
    }
    forall i | 1 <= i < |hist'.installer|
      ensures hist'.installer[i] in hist'.slot && hist'.slot[hist'.installer[i]] == i
    {
      if i < |hist.installer| { assert hist.installer[i] in hist.slot; }
    }
  }

  lemma OwnedUpdate(ops: Ops, gens: Gens, journals: seq<Journal>, hist: History, k: nat, j: Journal)
    requires Owned(ops, gens, journals, hist) && k < |journals| && j.op == journals[k].op && j.to == journals[k].to
    ensures Owned(ops, gens, journals[k := j], hist)
  {
    assert JournalOwned(ops, gens, hist, journals[k]);
  }

  lemma CasKept(s: System, k: nat)
    requires DbInv(s.db, s.hist)
    ensures var r := CasPointer(s.db, k);
      r.Committed? ==>
        && k < |s.db.journals|
        && Kept(s, r.state, if s.db.journals[k].phase == Preparing then Installed(s.hist, s.db.journals, k) else s.hist)
  {
    var r := CasPointer(s.db, k);
    if r.Committed? && s.db.journals[k].phase == Preparing {
      var hist' := Installed(s.hist, s.db.journals, k);
      CasTarget(s.db, s.hist, k);
      ChainExtends(s.db.pointer, s.hist, s.db.journals[k].to, k);
      RegistryExtends(s.db.generations, s.db.pointer, s.hist, s.db.journals[k].to);
      SlotsExtend(s.db, s.hist, k);
      assert GensGrow(s.db.generations, s.hist.installs, s.db.generations, hist'.installs);
      OwnedStays(s.db.operations, s.db.generations, s.db.journals, s.hist, s.db.operations, s.db.generations, hist');
      OwnedUpdate(s.db.operations, s.db.generations, s.db.journals, hist', k, r.state.journals[k]);
      OperationsStay(s, s.db.generations, hist');
    }
  }

  lemma MarkKept(s: System, k: nat)
    requires DbInv(s.db, s.hist)
    ensures var r := MarkRouterVerified(s.db, k); r.Committed? ==> Kept(s, r.state, s.hist)
  {
    var r := MarkRouterVerified(s.db, k);
    if r.Committed? {
      OwnedUpdate(s.db.operations, s.db.generations, s.db.journals, s.hist, k, r.state.journals[k]);
      forall m | 0 <= m < |r.state.journals| ensures JournalSlot(s.db.pointer.version, s.hist, r.state.journals[m], m) {
        assert JournalSlot(s.db.pointer.version, s.hist, s.db.journals[m], m);
      }
    }
  }

  /** The finalised registry, row by row. */
  function FinalRow(row: Generation, g: GenerationId, from: GenerationId, to: GenerationId): Generation {
    var cleared := if row.protection in {ServingProtected, RollbackProtection} then
      row.(protection := Unprotected, version := row.version + 1) else row;
    if g == to then cleared.(state := Serving, protection := ServingProtected, version := cleared.version + 1)
    else if g == from then cleared.(state := Retiring, protection := RollbackProtection, version := cleared.version + 1)
    else cleared
  }

  lemma FinalRows(db: Db, k: nat)
    requires k < |db.journals| && db.journals[k].phase == RouterVerified
    requires FinalizePromotion(db, k).Committed?
    ensures var j := db.journals[k]; var r := FinalizePromotion(db, k).state;
      && j.from in db.generations && db.generations[j.from].state == Serving
      && j.to in db.generations && db.generations[j.to].state == Ready && j.from != j.to
      && r.generations.Keys == db.generations.Keys
      && (forall g :: g in db.generations ==> r.generations[g] == FinalRow(db.generations[g], g, j.from, j.to))
  {}

  /** Only the oldest journal past its CAS can be finalised: its source is the one serving generation. */
  lemma FinalSlot(db: Db, hist: History, k: nat)
    requires DbInv(db, hist) && k < |db.journals| && db.journals[k].phase == RouterVerified
    requires db.journals[k].from in db.generations && db.generations[db.journals[k].from].state == Serving
    ensures k in hist.slot && hist.slot[k] == hist.finalized + 1 < |hist.installs|
    ensures hist.installs[hist.finalized] == db.journals[k].from
    ensures hist.installs[hist.finalized + 1] == db.journals[k].to
  {
    assert JournalSlot(db.pointer.version, hist, db.journals[k], k);
    var i := hist.slot[k];
    assert InstalledRow(db.generations[hist.installs[i - 1]], i - 1, hist.finalized);
  }

  lemma RegistryFinalised(gens: Gens, gens': Gens, p: Pointer, hist: History)
    requires Chain(p, hist) && Rows(gens, hist.installs, hist.finalized)
    requires Protections(gens, p, hist.installs, hist.finalized)
    requires hist.finalized + 1 < |hist.installs|
    requires gens'.Keys == gens.Keys
    requires forall g :: g in gens ==>
      gens'[g] == FinalRow(gens[g], g, hist.installs[hist.finalized], hist.installs[hist.finalized + 1])
    ensures Rows(gens', hist.installs, hist.finalized + 1)
    ensures Protections(gens', p, hist.installs, hist.finalized + 1)
    ensures GensGrow(gens, hist.installs, gens', hist.installs)
  {
    var h, f := hist.installs, hist.finalized;
    forall i | 0 <= i < |h| ensures h[i] in gens' && InstalledRow(gens'[h[i]], i, f + 1) {
      assert InstalledRow(gens[h[i]], i, f);
    }
    forall g | g in gens' ensures ProtectionOk(gens'[g], g, h, f + 1) {
      assert ProtectionOk(gens[g], g, h, f);
    }
  }

  lemma SlotsFinalised(version: nat, journals: seq<Journal>, hist: History, k: nat)
    requires |hist.installer| == |hist.installs| && Slots(version, journals, hist)
    requires k < |journals| && journals[k].phase == RouterVerified
    requires k in hist.slot && hist.slot[k] == hist.finalized + 1
    ensures Slots(version, journals[k := journals[k].(phase := GenerationFinalized)],
                  hist.(finalized := hist.finalized + 1))
  {
    var journals', hist' := journals[k := journals[k].(phase := GenerationFinalized)],
      hist.(finalized := hist.finalized + 1);
    assert JournalSlot(version, hist, journals[k], k);
    forall m | 0 <= m < |journals'| ensures JournalSlot(version, hist', journals'[m], m) {
      assert JournalSlot(version, hist, journals[m], m);
    }
  }

  lemma RetirementsFinalised(gens: Gens, gens': Gens, rets: Rets, from: GenerationId, to: GenerationId)
    requires RetirementRows(gens, rets) && gens'.Keys == gens.Keys
    requires forall g :: g in gens ==> gens'[g] == FinalRow(gens[g], g, from, to)
    requires from in gens && gens[from].state == Serving && to in gens && gens[to].state == Ready
    ensures RetirementRows(gens', rets)
  {
    forall g | g in rets ensures g in gens' && RetirementRow(rets[g], gens'[g]) {
      assert RetirementRow(rets[g], gens[g]);
    }
  }

  lemma CreatorsFinalised(ops: Ops, gens: Gens, gens': Gens, creator: Creator, from: GenerationId, to: GenerationId)
    requires Creators(ops, gens, creator) && gens'.Keys == gens.Keys
    requires forall g :: g in gens ==> gens'[g] == FinalRow(gens[g], g, from, to)
    ensures Creators(ops, gens', creator)
  {}

  lemma FinalizedDb(s: System, k: nat, gens': Gens)
    requires DbInv(s.db, s.hist) && k < |s.db.journals| && s.db.journals[k].phase == RouterVerified
    requires k in s.hist.slot && s.hist.slot[k] == s.hist.finalized + 1 < |s.hist.installs|
    requires Rows(gens', s.hist.installs, s.hist.finalized + 1)
    requires Protections(gens', s.db.pointer, s.hist.installs, s.hist.finalized + 1)
    requires GensGrow(s.db.generations, s.hist.installs, gens', s.hist.installs)
    requires RetirementRows(gens', s.db.retirements) && Creators(s.db.operations, gens', s.hist.creator)
    ensures Kept(s, s.db.(generations := gens',
                          journals := s.db.journals[k := s.db.journals[k].(phase := GenerationFinalized)]),
                 s.hist.(finalized := s.hist.finalized + 1))
  {
    var hist' := s.hist.(finalized := s.hist.finalized + 1);
    SlotsFinalised(s.db.pointer.version, s.db.journals, s.hist, k);
    OwnedFinalised(s.db, s.hist, k, gens');
    OperationsStay(s, gens', hist');
  }

  lemma OwnedFinalised(db: Db, hist: History, k: nat, gens': Gens)
    requires Owned(db.operations, db.generations, db.journals, hist) && k < |db.journals|
    requires GensGrow(db.generations, hist.installs, gens', hist.installs)
    ensures Owned(db.operations, gens', db.journals[k := db.journals[k].(phase := GenerationFinalized)],
                  hist.(finalized := hist.finalized + 1))
  {
    var hist' := hist.(finalized := hist.finalized + 1);
    OwnedStays(db.operations, db.generations, db.journals, hist, db.operations, gens', hist');
    OwnedUpdate(db.operations, gens', db.journals, hist', k, db.journals[k].(phase := GenerationFinalized));
  }

  lemma FinalizeKept(s: System, k: nat)
    requires DbInv(s.db, s.hist)
    ensures var r := FinalizePromotion(s.db, k);
      r.Committed? ==> (k < |s.db.journals| &&
        Kept(s, r.state, if s.db.journals[k].phase == GenerationFinalized then s.hist
             else s.hist.(finalized := s.hist.finalized + 1)))
  {
    var r := FinalizePromotion(s.db, k);
    if r.Committed? && s.db.journals[k].phase == RouterVerified {
      var j, gens' := s.db.journals[k], r.state.generations;
      FinalRows(s.db, k);
      FinalSlot(s.db, s.hist, k);
      RegistryFinalised(s.db.generations, gens', s.db.pointer, s.hist);
      RetirementsFinalised(s.db.generations, gens', s.db.retirements, j.from, j.to);
      CreatorsFinalised(s.db.operations, s.db.generations, gens', s.hist.creator, j.from, j.to);
      FinalizedDb(s, k, gens');
    }
  }

  lemma ReleaseKept(s: System, serving: GenerationId, g: GenerationId, version: nat)
    requires DbInv(s.db, s.hist)
    ensures var r := ReleaseRollback(s.db, serving, g, version); r.Committed? ==> Kept(s, r.state, s.hist)
  {
    var r := ReleaseRollback(s.db, serving, g, version);
    if r.Committed? {
      var gens, gens' := s.db.generations, r.state.generations;
      var h, f := s.hist.installs, s.hist.finalized;
      assert ProtectionOk(gens[g], g, h, f);
      ReleasedRegistry(gens, s.db.pointer, s.hist, g, gens'[g]);
      OwnedStays(s.db.operations, gens, s.db.journals, s.hist, s.db.operations, gens', s.hist);
      OperationsStay(s, gens', s.hist);
      forall k | 0 <= k < |s.db.journals| ensures JournalSlot(r.state.pointer.version, s.hist, s.db.journals[k], k) {
        assert JournalSlot(s.db.pointer.version, s.hist, s.db.journals[k], k);
      }
    }
  }

  lemma ReleasedRegistry(gens: Gens, p: Pointer, hist: History, g: GenerationId, row: Generation)
    requires Chain(p, hist) && Rows(gens, hist.installs, hist.finalized)
    requires Protections(gens, p, hist.installs, hist.finalized)
    requires p.previous == Some(g) && g in gens && gens[g].protection == RollbackProtection
    requires row == gens[g].(protection := Unprotected, version := gens[g].version + 1)
    ensures Chain(p.(previous := None, version := p.version + 1), hist)
    ensures Rows(gens[g := row], hist.installs, hist.finalized)
    ensures Protections(gens[g := row], p.(previous := None, version := p.version + 1), hist.installs, hist.finalized)
    ensures GensGrow(gens, hist.installs, gens[g := row], hist.installs)
  {
    var h, f := hist.installs, hist.finalized;
    assert ProtectionOk(gens[g], g, h, f);
    assert InstalledRow(gens[h[|h| - 2]], |h| - 2, f);
    forall x | x in gens ensures ProtectionOk(gens[g := row][x], x, h, f) {
      assert ProtectionOk(gens[x], x, h, f);
    }
  }
}
