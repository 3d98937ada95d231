/** The one-transaction promotion and rollback on the rows themselves. */
module ServingPointerRepository {
  import opened Wrappers
  import opened CoordinatorDb
  import opened ServingPointer

  type Gens = map<GenerationId, Generation>

  /** Exactly the pointer's generation serves, and exactly its previous one is kept for rollback. */
  ghost predicate Settled(pointer: Pointer, gens: Gens) {
    && pointer.generation in gens && pointer.previous != Some(pointer.generation)
    && (pointer.previous.Some? ==> pointer.previous.value in gens)
    && forall g :: g in gens ==> RowSettled(pointer, g, gens[g])
  }

  predicate RowSettled(pointer: Pointer, g: GenerationId, row: Generation) {
    && (row.state == Serving <==> g == pointer.generation)
    && (row.protection == ServingProtected <==> g == pointer.generation)
    && (row.protection == RollbackProtection <==> pointer.previous == Some(g))
    && (pointer.previous == Some(g) ==> row.state in {Retiring, Ready})
  }

  lemma PromoteSettles(db: Db, g: GenerationId, expectedGeneration: GenerationId, expectedVersion: nat)
    requires Settled(db.pointer, db.generations)
    ensures var r := AtomicPromote(db, g, expectedGeneration, expectedVersion);
      r.Committed? ==> Settled(r.state.pointer, r.state.generations) && r.state.generations.Keys == db.generations.Keys
  {}

  lemma RollbackSettles(db: Db, expectedVersion: nat)
    requires Settled(db.pointer, db.generations)
    ensures var r := AtomicRollback(db, expectedVersion);
      r.Committed? ==> (Settled(r.state.pointer, r.state.generations) && r.state.generations.Keys == db.generations.Keys
                        && forall version :: AtomicRollback(r.state, version).Aborted?)
  {}

  class Registry {
    var pointer: Pointer
    var generations: Gens

    ghost predicate Valid()
      reads this
    {
      Settled(pointer, generations)
    }

    /** The columns the two transactions read and write. */
    function Rows(): Db
      reads this
    {
      Db(0, map[], pointer, generations, [], map[], map[])
    }

    constructor (g: GenerationId, version: nat)
      ensures Valid() && pointer == Pointer(g, None, version) && generations.Keys == {g}
    {
      pointer, generations := Pointer(g, None, version),
        map[g := Generation(Serving, ServingProtected, 1, true, false)];
    }

    /** A validated READY generation takes over; the outgoing one becomes the way back. */
    method Promote(g: GenerationId, expectedGeneration: GenerationId, expectedVersion: nat) returns (ok: bool)
      requires Valid()
      modifies this
      ensures Valid()
      ensures ok <==> old(pointer.generation == expectedGeneration && pointer.version == expectedVersion
                          && g in generations && generations[g].state == Ready && generations[g].valid)
      ensures ok ==> pointer == Pointer(g, Some(expectedGeneration), expectedVersion + 1)
      ensures ok ==> generations.Keys == old(generations.Keys) && generations[expectedGeneration].state == Retiring
      ensures !ok ==> pointer == old(pointer) && generations == old(generations)
      ensures Rows() == After(old(Rows()), AtomicPromote(old(Rows()), g, expectedGeneration, expectedVersion))
    {
      PromoteSettles(Rows(), g, expectedGeneration, expectedVersion);
      ok := ExecPromote(g, expectedGeneration, expectedVersion);
    }

    method ExecPromote(g: GenerationId, expectedGeneration: GenerationId, expectedVersion: nat) returns (ok: bool)
      modifies this
      ensures ok == AtomicPromote(old(Rows()), g, expectedGeneration, expectedVersion).Committed?
      ensures Rows() == After(old(Rows()), AtomicPromote(old(Rows()), g, expectedGeneration, expectedVersion))
    {
      if pointer.version != expectedVersion || pointer.generation != expectedGeneration { return false; }
      if g !in generations || generations[g].state != Ready || !generations[g].valid { return false; }
      generations := Unprotect(generations);
      var current := pointer.generation;
      if current in generations && generations[current].state == Serving {
        generations := generations[current := generations[current].(state := Retiring, protection := RollbackProtection,
                                                                    version := generations[current].version + 1)];
      }
      generations := generations[g := generations[g].(state := Serving, protection := ServingProtected,
                                                      version := generations[g].version + 1)];
      pointer := Pointer(g, Some(pointer.generation), pointer.version + 1);
      return true;
    }

    /**
      The way back is taken once: afterwards the two generations have changed
      places and rolling back again is refused.
     */
    method Rollback(expectedVersion: nat) returns (ok: bool)
      requires Valid()
      modifies this
      ensures Valid()
      ensures ok
         <==> old(pointer.version == expectedVersion && pointer.previous.Some?
                  && generations[pointer.previous.value].state == Retiring)
      ensures ok ==>
        && old(pointer.previous.Some?)
        && pointer == Pointer(old(pointer.previous.value), Some(old(pointer.generation)), expectedVersion + 1)
      ensures ok ==> generations.Keys == old(generations.Keys) && generations[old(pointer.generation)].state == Ready
      ensures ok ==> forall version :: AtomicRollback(Rows(), version).Aborted?
      ensures !ok ==> pointer == old(pointer) && generations == old(generations)
      ensures Rows() == After(old(Rows()), AtomicRollback(old(Rows()), expectedVersion))
    {
      RollbackSettles(Rows(), expectedVersion);
      ok := ExecRollback(expectedVersion);
    }

    method ExecRollback(expectedVersion: nat) returns (ok: bool)
      modifies this
      ensures ok == AtomicRollback(old(Rows()), expectedVersion).Committed?
      ensures Rows() == After(old(Rows()), AtomicRollback(old(Rows()), expectedVersion))
    {
      if pointer.version != expectedVersion || pointer.previous.None? { return false; }
      var back, current := pointer.previous.value, pointer.generation;
      if back !in generations || generations[back].state != Retiring
        || generations[back].protection != RollbackProtection {
        return false;
      }
      generations := Unprotect(generations);
      if current in generations && generations[current].state == Serving
        && generations[current].protection == Unprotected {
        generations := generations[current := generations[current].(state := Ready, protection := RollbackProtection,
                                                                    version := generations[current].version + 1)];
      }
      if generations[back].protection == Unprotected {
        generations := generations[back := generations[back].(state := Serving, protection := ServingProtected,
                                                              version := generations[back].version + 1)];
      }
      pointer := Pointer(back, Some(current), pointer.version + 1);
      return true;
    }
  }
}
