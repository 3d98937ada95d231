/** When each transaction of the two-slot deployment commits and what it writes, said column by column. */
module StandaloneConditions {
  import opened Wrappers
  import opened StandalonePromotion
  import opened StandaloneRebuild

  /** What the router accepts: waiting to serve, serving, or kept for rollback. */
  lemma RoutableExact(s: Slot)
    ensures Routable(s) <==>
      (s.state, s.protection) in {(Ready, NoProtection), (Serving, ServingProtection), (Retiring, RollbackProtection)}
  {}

  /** Only these columns of journal `i` are new. */
  predicate JournalSet(before: seq<Journal>, after: seq<Journal>, i: nat, phase: Phase, resulting: Option<nat>) {
    && i < |before| && |after| == |before|
    && (forall k :: 0 <= k < |before| && k != i ==> after[k] == before[k])
    && after[i] == Journal(before[i].from, before[i].to, phase, before[i].expected, resulting)
  }

  /** The pointer moves from the source and the version the journal names, and from no other. */
  lemma CasExact(db: Db, i: nat)
    requires i < |db.journals|
    ensures var r, j := Cas(db, i), db.journals[i];
      && (r.Committed? <==> j.phase != Preparing || (db.pointer.current, db.pointer.version) == (j.from, j.expected))
      && (r.Committed? && j.phase != Preparing ==> r.state == db)
      && (r.Committed? && j.phase == Preparing ==>
            && r.state == db.(pointer := r.state.pointer, journals := r.state.journals)
            && r.state.pointer == Pointer(j.to, Some(j.from), j.expected + 1)
            && JournalSet(db.journals, r.state.journals, i, PointerUpdated, Some(j.expected + 1)))
  {}

  lemma VerifyExact(db: Db, i: nat)
    requires i < |db.journals|
    ensures var r, j := MarkVerified(db, i), db.journals[i];
      && (r.Committed? <==> j.phase == PointerUpdated)
      && (r.Committed? ==>
            && r.state == db.(journals := r.state.journals)
            && JournalSet(db.journals, r.state.journals, i, RouterVerified, j.resulting))
  {}

  /** One more version for a protection that is taken off, one for the new one. */
  function Rewritten(s: Slot, state: State, protection: Protection): Slot {
    Slot(state, protection, s.lifecycleVersion + if s.protection == NoProtection then 1 else 2)
  }

  /** The source is kept for rollback and the target serves. */
  predicate Swapped(db: Db, t: Db, j: Journal) {
    && At(t, j.from) == Rewritten(At(db, j.from), Retiring, RollbackProtection)
    && At(t, j.to) == Rewritten(At(db, j.to), Serving, ServingProtection)
  }

  lemma FinalizeExact(db: Db, i: nat)
    requires i < |db.journals|
    ensures var r, j := Finalize(db, i), db.journals[i];
      && (r.Committed? <==>
            || j.phase == Finalized
            || (j.phase == RouterVerified && At(db, j.from).state == Serving
                && (Waits(At(db, j.to)) || Retained(At(db, j.to)))))
      && (r.Committed? && j.phase == Finalized ==> r.state == db)
      && (r.Committed? && j.phase == RouterVerified ==>
            && r.state.pointer == db.pointer && Swapped(db, r.state, j)
            && JournalSet(db.journals, r.state.journals, i, Finalized, j.resulting))
  {}

  /** A run is shown the serving slot only where the pointer and the rows agree on it. */
  lemma InspectExact(w: World, r: RunId)
    ensures var onA := w.db.pointer.current == GenA;
      var serving, idle := if onA then w.db.a else w.db.b, if onA then w.db.b else w.db.a;
      var t := Next(w, Inspect(r));
      if serving == Slot(Serving, ServingProtection, serving.lifecycleVersion) && idle.state != Serving
         && idle.protection != ServingProtection
      then
        t == w.(runs := t.runs) && t.runs.Keys == w.runs.Keys + {r}
        && (forall other :: other in w.runs && other != r ==> t.runs[other] == w.runs[other])
        && t.runs[r] == Run(Selection(w.db.pointer.current, if onA then GenB else GenA, w.db.pointer.version), false)
      else t == w
  {}

  /**
    A load empties the slot its run was shown, and only while the pointer still
    stands where the run saw it; a slot that serves is left alone.
   */
  lemma LoadExact(w: World, r: RunId)
    ensures var t := Next(w, LoadCommit(r));
      if r in w.runs && !w.runs[r].loading
         && (w.db.pointer.current, w.db.pointer.version) == (w.runs[r].sel.serving, w.runs[r].sel.version)
      then
        var slot := w.runs[r].sel.candidate;
        && At(t.db, slot) == (if At(w.db, slot).state == Serving then At(w.db, slot)
                              else Slot(Building, NoProtection, At(w.db, slot).lifecycleVersion + 1))
        && At(t.db, Other(slot)) == At(w.db, Other(slot))
        && t.db.pointer == w.db.pointer && t.db.journals == w.db.journals
        && t.runs == w.runs[r := Run(w.runs[r].sel, true)]
      else t == w
  {}

  /** A validation sets the state of the slot its run was shown, whatever has happened to the slot since. */
  lemma ValidateExact(w: World, r: RunId, valid: bool)
    ensures var t := Next(w, ValidateDone(r, valid));
      if r in w.runs && !w.runs[r].loading then
        var slot := w.runs[r].sel.candidate;
        && At(t.db, slot) == At(w.db, slot).(state := if valid then Ready else Failed)
        && At(t.db, Other(slot)) == At(w.db, Other(slot))
        && t.db.pointer == w.db.pointer && t.db.journals == w.db.journals && t.runs == w.runs - {r}
      else t == w
  {}
}
