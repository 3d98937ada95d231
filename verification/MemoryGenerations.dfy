/** The in-memory generation backend: rows changed in place, one of them serving, promotions that can be undone. */
module MemoryGenerations {
  import opened Wrappers

  datatype State = Creating | Loading | CatchingUp | Validating | Ready | Serving | Retiring | Retired | Failed
  datatype Entry = Entry(revision: nat, value: string)
  type Data = map<string, Entry>
  datatype Row = Row(state: State, valid: bool, serving: bool, data: Data)
  datatype PromotionState = Standing | RolledBack
  datatype Promotion = Promotion(from: Option<string>, to: string, state: PromotionState)
  datatype Event = Event(position: nat, entityId: string, entry: Entry)

  /** Everything the backend stores. */
  datatype Store = Store(rows: map<string, Row>, active: Option<string>, promotions: map<nat, Promotion>)

  // ------------------------------------------------------ specification

  function Put(s: Store, id: string, row: Row): Store { s.(rows := s.rows[id := row]) }

  function Promoted(s: Store, id: string, expected: Option<string>, pid: nat): Outcome<Store> {
    if id !in s.rows then Aborted("GENERATION_NOT_FOUND")
    else if !s.rows[id].state.Ready? then Aborted("GENERATION_NOT_READY")
    else if s.active != expected then Aborted("SERVING_GENERATION_CONFLICT")
    else if s.active.Some? && s.active.value !in s.rows then Aborted("GENERATION_NOT_FOUND")
    else
      var before := if s.active.Some? then
        Put(s, s.active.value, s.rows[s.active.value].(state := Retiring, serving := false)) else s;
      Committed(Store(
        before.rows[id := before.rows[id].(state := Serving, serving := true)],
        Some(id),
        s.promotions[pid := Promotion(s.active, id, Standing)]))
  }

  predicate RollbackAllowed(s: Store, pid: nat) {
    pid in s.promotions && s.promotions[pid].state.Standing? && s.active == Some(s.promotions[pid].to)
  }

  /**
    What a rollback leaves behind, and whether it went through: the row it left
    is changed before the source is looked up.
   */
  function Rolled(s: Store, pid: nat): (Store, bool) {
    if !RollbackAllowed(s, pid) || s.promotions[pid].to !in s.rows then (s, false)
    else
      var p := s.promotions[pid];
      var left := Put(s, p.to, s.rows[p.to].(state := Ready, serving := false));
      if p.from.Some? && p.from.value !in left.rows then (left, false)
      else
        var back := if p.from.Some? then
          Put(left, p.from.value, left.rows[p.from.value].(state := Serving, serving := true)) else left;
        (Store(back.rows, p.from, s.promotions[pid := p.(state := RolledBack)]), true)
  }

  predicate Validatable(row: Row) {
    (row.state.Ready? && row.valid) || row.state.Loading? || row.state.CatchingUp? || row.state.Validating?
  }

  // ---------------------------------------------------------- invariant

  /** Exactly the active row is serving. */
  ghost predicate OneServing(s: Store) {
    && (s.active.Some? ==> s.active.value in s.rows)
    && (forall id :: id in s.rows ==> (s.rows[id].serving <==> s.active == Some(id)))
    && (forall id :: id in s.rows ==> (s.rows[id].serving <==> s.rows[id].state.Serving?))
  }

  /** A promotion keeps exactly the active row serving. */
  lemma PromotedKeeps(s: Store, id: string, expected: Option<string>, pid: nat)
    requires OneServing(s)
    ensures Promoted(s, id, expected, pid).Committed? ==> OneServing(Promoted(s, id, expected, pid).state)
    ensures s.active.Some? ==> s.active.value in s.rows
  {}

  /** The generation a rollback would put back is still there. */
  predicate SourceThere(s: Store, pid: nat) {
    RollbackAllowed(s, pid) && s.promotions[pid].from.Some? ==> s.promotions[pid].from.value in s.rows
  }

  /** A rollback keeps one serving row exactly if the source of the promotion still exists. */
  lemma RollbackKeepsIff(s: Store, pid: nat)
    requires OneServing(s)
    ensures OneServing(Rolled(s, pid).0) <==> SourceThere(s, pid)
  {
    if !SourceThere(s, pid) {
      var to := s.promotions[pid].to;
      assert to in Rolled(s, pid).0.rows && !Rolled(s, pid).0.rows[to].serving;
    }
  }

  /** A rollback right after its promotion restores every row and the active generation. */
  lemma RollbackRestores(s: Store, id: string, pid: nat)
    requires OneServing(s) && Promoted(s, id, s.active, pid).Committed?
    ensures var back := Rolled(Promoted(s, id, s.active, pid).state, pid);
      back.1 && back.0.rows == s.rows && back.0.active == s.active
  {}

  /** Promotions one after another, each under its own identifier. */
  function PromoteAll(s: Store, steps: seq<(string, nat)>): Option<Store>
    decreases |steps|
  {
    if steps == [] then Some(s)
    else
      var next := Promoted(s, steps[0].0, s.active, steps[0].1);
      if next.Aborted? then None else PromoteAll(next.state, steps[1..])
  }

  /** Rollbacks in the opposite order. */
  function RollbackAll(s: Store, steps: seq<(string, nat)>): (Store, bool)
    decreases |steps|
  {
    if steps == [] then (s, true)
    else
      var later := RollbackAll(s, steps[1..]);
      if !later.1 then later else Rolled(later.0, steps[0].1)
  }

  ghost predicate DistinctIds(steps: seq<(string, nat)>) {
    forall i, j :: 0 <= i < j < |steps| ==> steps[i].1 != steps[j].1
  }

  /** A rollback only looks at, and only changes, the record of its own promotion. */
  lemma RolledFrame(s: Store, t: Store, pid: nat)
    requires s.rows == t.rows && s.active == t.active && pid in s.promotions && pid in t.promotions
    requires s.promotions[pid] == t.promotions[pid]
    ensures Rolled(s, pid).1 == Rolled(t, pid).1 && Rolled(s, pid).0.rows == Rolled(t, pid).0.rows
    ensures Rolled(s, pid).0.active == Rolled(t, pid).0.active
  {}

  lemma {:induction false} RollbackAllKeepsOthers(s: Store, steps: seq<(string, nat)>, pid: nat)
    requires pid in s.promotions && forall i :: 0 <= i < |steps| ==> steps[i].1 != pid
    ensures pid in RollbackAll(s, steps).0.promotions && RollbackAll(s, steps).0.promotions[pid] == s.promotions[pid]
    decreases |steps|
  {
    if steps != [] { RollbackAllKeepsOthers(s, steps[1..], pid); }
  }

  lemma {:induction false} PromoteAllKeepsOthers(s: Store, steps: seq<(string, nat)>, pid: nat)
    requires PromoteAll(s, steps).Some? && pid in s.promotions && forall i :: 0 <= i < |steps| ==> steps[i].1 != pid
    ensures pid in PromoteAll(s, steps).value.promotions
    ensures PromoteAll(s, steps).value.promotions[pid] == s.promotions[pid]
    decreases |steps|
  {
    if steps != [] { PromoteAllKeepsOthers(Promoted(s, steps[0].0, s.active, steps[0].1).state, steps[1..], pid); }
  }

  /**
    Last in, first out: any number of promotions rolled back in reverse restores
    states, serving flags and data exactly.
   */
  lemma {:induction false} LastInFirstOut(s: Store, steps: seq<(string, nat)>)
    requires OneServing(s) && DistinctIds(steps) && PromoteAll(s, steps).Some?
    ensures var back := RollbackAll(PromoteAll(s, steps).value, steps);
      back.1 && back.0.rows == s.rows && back.0.active == s.active
    decreases |steps|
  {
    if steps != [] {
      var id, pid := steps[0].0, steps[0].1;
      var next := Promoted(s, id, s.active, pid).state;
      var top := PromoteAll(s, steps).value;
      PromotedKeeps(s, id, s.active, pid);
      LastInFirstOut(next, steps[1..]);
      PromoteAllKeepsOthers(next, steps[1..], pid);
      RollbackAllKeepsOthers(top, steps[1..], pid);
      var later := RollbackAll(top, steps[1..]).0;
      RolledFrame(later, next, pid);
      RollbackRestores(s, id, pid);
    }
  }

  // ------------------------------------------------------ mixed operations

  datatype Op =
    | CreateOp(id: string)
    | LoadOp(id: string, snapshot: Data)
    | ChangeOp(id: string, entityId: string, entry: Entry)
    | ForgetOp(id: string, entityId: string)
    | ValidateOp(id: string)
    | PromoteOp(id: string, expected: Option<string>, pid: nat)
    | RollbackOp(pid: nat)
    | RetireOp(id: string)
    | DeleteOp(id: string)

  predicate Mutable(row: Row) { row.state.Loading? || row.state.CatchingUp? }

  predicate Retirable(row: Row) { !row.serving && (row.state.Ready? || row.state.Retiring?) }

  predicate Deletable(row: Row) { !row.serving && (row.state.Retired? || row.state.Failed?) }

  /** An operation that raises before it writes leaves everything as it was. */
  function Applied(s: Store, op: Op): Store {
    match op
    case CreateOp(id) => if id in s.rows then s else Put(s, id, Row(Creating, false, false, map[]))
    case LoadOp(id, snapshot) =>
      if id in s.rows && s.rows[id].state.Creating? then
        Put(s, id, s.rows[id].(state := Loading, data := snapshot)) else s
    case ChangeOp(id, entityId, entry) =>
      if id in s.rows && Mutable(s.rows[id])
      then
        Put(s, id, s.rows[id].(state := CatchingUp, valid := false, data := s.rows[id].data[entityId := entry])) else s
    case ForgetOp(id, entityId) =>
      if id in s.rows && Mutable(s.rows[id]) then Put(s, id, s.rows[id].(data := s.rows[id].data - {entityId})) else s
    case ValidateOp(id) =>
      if id in s.rows && Validatable(s.rows[id]) then Put(s, id, s.rows[id].(state := Ready, valid := true)) else s
    case PromoteOp(id, expected, pid) =>
      (match Promoted(s, id, expected, pid) case Committed(t) => t case Aborted(_) => s)
    case RollbackOp(pid) => Rolled(s, pid).0
    case RetireOp(id) =>
      if id in s.rows && Retirable(s.rows[id])
      then Put(s, id, s.rows[id].(state := if s.rows[id].state.Ready? then Failed else Retired)) else s
    case DeleteOp(id) => if id in s.rows && Deletable(s.rows[id]) then s.(rows := s.rows - {id}) else s
  }

  function RunOps(s: Store, ops: seq<Op>): Store
    decreases |ops|
  {
    if ops == [] then s else RunOps(Applied(s, ops[0]), ops[1..])
  }

  lemma AppliedKeeps(s: Store, op: Op)
    requires OneServing(s) && !op.RollbackOp?
    ensures OneServing(Applied(s, op))
  {
    if op.PromoteOp? { PromotedKeeps(s, op.id, op.expected, op.pid); }
  }

  predicate FindsSource(s: Store, op: Op) { op.RollbackOp? ==> SourceThere(s, op.pid) }

  ghost predicate AlwaysOneServing(s: Store, ops: seq<Op>)
    decreases |ops|
  {
    OneServing(s) && (ops != [] ==> AlwaysOneServing(Applied(s, ops[0]), ops[1..]))
  }

  ghost predicate AlwaysFindsSource(s: Store, ops: seq<Op>)
    decreases |ops|
  {
    ops != [] ==> FindsSource(s, ops[0]) && AlwaysFindsSource(Applied(s, ops[0]), ops[1..])
  }

  /**
    Over any run: exactly one row serves, the active one, in every state, if and
    only if every rollback finds its source.
   */
  lemma {:induction false} OneServingIff(s: Store, ops: seq<Op>)
    requires OneServing(s)
    ensures AlwaysOneServing(s, ops) <==> AlwaysFindsSource(s, ops)
    decreases |ops|
  {
    if ops != [] {
      var t := Applied(s, ops[0]);
      if ops[0].RollbackOp? { RollbackKeepsIff(s, ops[0].pid); } else { AppliedKeeps(s, ops[0]); }
      if OneServing(t) { OneServingIff(t, ops[1..]); }
      else { assert !AlwaysOneServing(t, ops[1..]); }
    }
  }

  /** A caller that never deletes the source of a standing promotion always has one serving row. */
  predicate SparesSources(s: Store, op: Op) {
    op.DeleteOp? ==>
      forall pid :: pid in s.promotions && s.promotions[pid].state.Standing? ==> s.promotions[pid].from != Some(op.id)
  }

  ghost predicate AlwaysSpares(s: Store, ops: seq<Op>)
    decreases |ops|
  {
    ops != [] ==> SparesSources(s, ops[0]) && AlwaysSpares(Applied(s, ops[0]), ops[1..])
  }

  ghost predicate SourcesKept(s: Store) {
    forall pid :: pid in s.promotions && s.promotions[pid].state.Standing? && s.promotions[pid].from.Some? ==>
      s.promotions[pid].from.value in s.rows
  }

  lemma {:induction false} SparingServesOne(s: Store, ops: seq<Op>)
    requires OneServing(s) && SourcesKept(s) && AlwaysSpares(s, ops)
    ensures AlwaysOneServing(s, ops)
    decreases |ops|
  {
    if ops != [] {
      if ops[0].RollbackOp? { RollbackKeepsIff(s, ops[0].pid); } else { AppliedKeeps(s, ops[0]); }
      SparingServesOne(Applied(s, ops[0]), ops[1..]);
    }
  }

  // ------------------------------------------------- what is served stays

  /** When an operation on a row goes through, by the columns of the row. */
  lemma GoesThrough(row: Row)
    ensures Mutable(row) <==> row.state in {Loading, CatchingUp}
    ensures Validatable(row) <==> row.state in {Loading, CatchingUp, Validating} || (row.state == Ready && row.valid)
    ensures Retirable(row) <==> row.state in {Ready, Retiring} && !row.serving
    ensures Deletable(row) <==> row.state in {Retired, Failed} && !row.serving
  {}

  /** What the operations of a build write, column by column. */
  lemma BuildWrites(s: Store, id: string, entityId: string, entry: Entry, snapshot: Data)
    requires id in s.rows
    ensures var row := s.rows[id];
      && Applied(s, CreateOp(id)) == s
      && (row.state == Creating ==>
            Applied(s, LoadOp(id, snapshot)) == Put(s, id, Row(Loading, row.valid, row.serving, snapshot)))
      && (row.state in {Loading, CatchingUp} ==>
            Applied(s, ChangeOp(id, entityId, entry))
            == Put(s, id, Row(CatchingUp, false, row.serving, row.data[entityId := entry])))
      && (row.state in {Loading, CatchingUp} ==>
            Applied(s, ForgetOp(id, entityId))
            == Put(s, id, Row(row.state, row.valid, row.serving, row.data - {entityId})))
      && (row.state in {Loading, CatchingUp, Validating} ==>
            Applied(s, ValidateOp(id)) == Put(s, id, Row(Ready, true, row.serving, row.data)))
  {}

  /** A promotion is rolled back once: its record is used up, until the same identifier is promoted again. */
  lemma {:induction false} RolledBackOnce(s: Store, ops: seq<Op>, pid: nat)
    requires pid in s.promotions && s.promotions[pid].state == RolledBack
    requires forall i :: 0 <= i < |ops| && ops[i].PromoteOp? ==> ops[i].pid != pid
    ensures Rolled(RunOps(s, ops), pid) == (RunOps(s, ops), false)
    decreases |ops|
  {
    if ops != [] { RolledBackOnce(Applied(s, ops[0]), ops[1..], pid); }
  }

  lemma RollbackUsesUp(s: Store, pid: nat)
    requires Rolled(s, pid).1
    ensures pid in Rolled(s, pid).0.promotions && Rolled(s, pid).0.promotions[pid].state == RolledBack
  {}

  /** The generation is past its build. */
  predicate Built(s: Store, id: string) {
    id in s.rows && s.rows[id].state in {Ready, Serving, Retiring, Retired, Failed}
  }

  /** Once a generation is built nothing changes its data, short of deleting it. */
  lemma {:induction false} BuiltDataKept(s: Store, ops: seq<Op>, id: string)
    requires Built(s, id) && DeleteOp(id) !in ops
    ensures Built(RunOps(s, ops), id) && RunOps(s, ops).rows[id].data == s.rows[id].data
    ensures RunOps(s, ops).rows[id].valid == s.rows[id].valid
    decreases |ops|
  {
    if ops != [] {
      BuiltStep(s, ops[0], id);
      BuiltDataKept(Applied(s, ops[0]), ops[1..], id);
    }
  }

  lemma BuiltStep(s: Store, op: Op, id: string)
    requires Built(s, id) && op != DeleteOp(id)
    ensures Built(Applied(s, op), id) && Applied(s, op).rows[id].data == s.rows[id].data
    ensures Applied(s, op).rows[id].valid == s.rows[id].valid
  {}

  /** Whatever is ready or serving has been validated. */
  ghost predicate ServesValid(s: Store) {
    forall id :: id in s.rows && s.rows[id].state in {Ready, Serving} ==> s.rows[id].valid
  }

  lemma AppliedKeepsValid(s: Store, op: Op)
    requires ServesValid(s) && !op.RollbackOp?
    ensures ServesValid(Applied(s, op))
  {}

  /** The rollback does not go through, or what it puts back is validated. */
  predicate SourceValid(s: Store, pid: nat) {
    RollbackAllowed(s, pid) && s.promotions[pid].to in s.rows && s.promotions[pid].from.Some?
    && s.promotions[pid].from.value in s.rows ==>
      s.rows[s.promotions[pid].from.value].valid
  }

  lemma RollbackValidIff(s: Store, pid: nat)
    requires ServesValid(s)
    requires RollbackAllowed(s, pid) && s.promotions[pid].to in s.rows ==> s.rows[s.promotions[pid].to].valid
    ensures ServesValid(Rolled(s, pid).0) <==> SourceValid(s, pid)
  {
    if !SourceValid(s, pid) {
      var from := s.promotions[pid].from.value;
      assert from in Rolled(s, pid).0.rows && Rolled(s, pid).0.rows[from].state == Serving;
    }
  }

  ghost predicate AlwaysServesValid(s: Store, ops: seq<Op>)
    decreases |ops|
  {
    ServesValid(s) && (ops != [] ==> AlwaysServesValid(Applied(s, ops[0]), ops[1..]))
  }

  ghost predicate AlwaysSourceValid(s: Store, ops: seq<Op>)
    decreases |ops|
  {
    ops != [] ==>
      (ops[0].RollbackOp? ==> SourceValid(s, ops[0].pid)) && AlwaysSourceValid(Applied(s, ops[0]), ops[1..])
  }

  /**
    Over any run that keeps one row serving: only validated rows are ready or
    serving, in every state, if and only if every rollback finds its source
    validated.
   */
  lemma {:induction false} ServesValidIff(s: Store, ops: seq<Op>)
    requires OneServing(s) && ServesValid(s) && AlwaysFindsSource(s, ops)
    ensures AlwaysServesValid(s, ops) <==> AlwaysSourceValid(s, ops)
    decreases |ops|
  {
    if ops != [] {
      var t := Applied(s, ops[0]);
      if ops[0].RollbackOp? {
        RollbackKeepsIff(s, ops[0].pid);
        RollbackValidIff(s, ops[0].pid);
      } else {
        AppliedKeeps(s, ops[0]);
        AppliedKeepsValid(s, ops[0]);
      }
      if ServesValid(t) { ServesValidIff(t, ops[1..]); }
      else { assert !AlwaysServesValid(t, ops[1..]); }
    }
  }

  // ---------------------------------------------------------- catch-up

  /** A snapshot overwritten by events, in order. */
  function Overwritten(data: Data, events: seq<Event>): Data
    decreases |events|
  {
    if events == [] then data else Overwritten(data[events[0].entityId := events[0].entry], events[1..])
  }

  lemma {:induction false} OverwrittenSnoc(data: Data, events: seq<Event>, e: Event)
    ensures Overwritten(data, events + [e]) == Overwritten(data, events)[e.entityId := e.entry]
    decreases |events|
  {
    if events == [] {
      assert [e][1..] == [];
      assert [] + [e] == [e];
    } else {
      assert (events + [e])[1..] == events[1..] + [e] && (events + [e])[0] == events[0];
      OverwrittenSnoc(data[events[0].entityId := events[0].entry], events[1..], e);
    }
  }

  /** The last event of an entity decides its entry. */
  lemma {:induction false} LastEventWins(data: Data, events: seq<Event>, i: nat)
    requires i < |events| && forall j :: i < j < |events| ==> events[j].entityId != events[i].entityId
    ensures events[i].entityId in Overwritten(data, events)
    ensures Overwritten(data, events)[events[i].entityId] == events[i].entry
    decreases |events|
  {
    if i == 0 {
      Untouched(data[events[0].entityId := events[0].entry], events[1..], events[0].entityId);
    } else {
      LastEventWins(data[events[0].entityId := events[0].entry], events[1..], i - 1);
    }
  }

  lemma {:induction false} Untouched(data: Data, events: seq<Event>, id: string)
    requires forall j :: 0 <= j < |events| ==> events[j].entityId != id
    ensures id in Overwritten(data, events) <==> id in data
    ensures id in data ==> Overwritten(data, events)[id] == data[id]
    decreases |events|
  {
    if events != [] { Untouched(data[events[0].entityId := events[0].entry], events[1..], id); }
  }

  lemma SliceSnoc(log: seq<Event>, lo: nat, hi: nat)
    requires lo <= hi < |log|
    ensures log[lo..hi + 1] == log[lo..hi] + [log[hi]]
  {}

  class MemoryGenerationBackend {
    var generations: map<string, Row>
    var active: Option<string>
    var promotions: map<nat, Promotion>

    constructor ()
      ensures Contents() == Store(map[], None, map[]) && Valid()
    {
      generations, active, promotions := map[], None, map[];
    }

    function Contents(): Store
      reads this
    {
      Store(generations, active, promotions)
    }

    ghost predicate Valid()
      reads this
    {
      OneServing(Contents())
    }

    method Create(id: string) returns (ok: bool)
      modifies this
      ensures old(Valid()) ==> Valid()
      ensures ok == (id !in old(generations))
      ensures Contents() == Applied(old(Contents()), CreateOp(id))
    {
      if id in generations { return false; }
      generations := generations[id := Row(Creating, false, false, map[])];
      return true;
    }

    method ApplyChange(id: string, entityId: string, entry: Entry) returns (ok: bool)
      modifies this
      ensures old(Valid()) ==> Valid()
      ensures ok == (id in old(generations) && Mutable(old(generations)[id]))
      ensures Contents() == Applied(old(Contents()), ChangeOp(id, entityId, entry))
    {
      if id !in generations { return false; }
      var row := generations[id];
      if !row.state.Loading? && !row.state.CatchingUp? { return false; }
      generations := generations[id := row.(state := CatchingUp, valid := false, data := row.data[entityId := entry])];
      return true;
    }

    method DeleteEntity(id: string, entityId: string) returns (ok: bool)
      modifies this
      ensures old(Valid()) ==> Valid()
      ensures ok == (id in old(generations) && Mutable(old(generations)[id]))
      ensures Contents() == Applied(old(Contents()), ForgetOp(id, entityId))
    {
      if id !in generations { return false; }
      var row := generations[id];
      if !row.state.Loading? && !row.state.CatchingUp? { return false; }
      generations := generations[id := row.(data := row.data - {entityId})];
      return true;
    }

    method Load(id: string, snapshot: Data) returns (ok: bool)
      modifies this
      ensures old(Valid()) ==> Valid()
      ensures ok == (id in old(generations) && old(generations)[id].state.Creating?)
      ensures Contents() == Applied(old(Contents()), LoadOp(id, snapshot))
    {
      if id !in generations || !generations[id].state.Creating? { return false; }
      generations := generations[id := generations[id].(state := Loading, data := snapshot)];
      return true;
    }

    method Validate(id: string) returns (ok: bool)
      modifies this
      ensures old(Valid()) ==> Valid()
      ensures ok == (id in old(generations) && Validatable(old(generations)[id]))
      ensures Contents() == Applied(old(Contents()), ValidateOp(id))
    {
      if id !in generations { return false; }
      var row := generations[id];
      if row.state.Ready? && row.valid {
        assert generations == generations[id := row.(state := Ready, valid := true)];
        return true;
      }
      if !row.state.Loading? && !row.state.CatchingUp? && !row.state.Validating? { return false; }
      generations := generations[id := row.(state := Ready, valid := true)];
      return true;
    }

    /** Retiring a generation that was never served, or one that has been replaced. */
    method Retire(id: string) returns (ok: bool)
      modifies this
      ensures old(Valid()) ==> Valid()
      ensures ok == (id in old(generations) && Retirable(old(generations)[id]))
      ensures ok ==>
        Contents() == Put(old(Contents()), id,
                          old(generations)[id].(state := if old(generations)[id].state.Ready? then Failed else Retired))
      ensures Contents() == Applied(old(Contents()), RetireOp(id))
    {
      if id !in generations || generations[id].serving { return false; }
      var row := generations[id];
      if !row.state.Ready? && !row.state.Retiring? { return false; }
      generations := generations[id := row.(state := if row.state.Ready? then Failed else Retired)];
      return true;
    }

    method Delete(id: string) returns (ok: bool)
      modifies this
      ensures old(Valid()) ==> Valid()
      ensures ok == (id in old(generations) && Deletable(old(generations)[id]))
      ensures ok ==> Contents() == old(Contents()).(rows := old(generations) - {id})
      ensures Contents() == Applied(old(Contents()), DeleteOp(id))
    {
      if id !in generations || generations[id].serving { return false; }
      if !generations[id].state.Retired? && !generations[id].state.Failed? { return false; }
      generations := generations - {id};
      return true;
    }

    method Promote(id: string, expected: Option<string>, pid: nat) returns (ok: bool)
      modifies this
      ensures old(Valid()) ==>
        Valid() && ok == (id in old(generations) && old(generations)[id].state.Ready? && old(active) == expected)
      ensures ok == Promoted(old(Contents()), id, expected, pid).Committed?
      ensures Contents() == if ok then Promoted(old(Contents()), id, expected, pid).state else old(Contents())
      ensures Contents() == Applied(old(Contents()), PromoteOp(id, expected, pid))
    {
      if Valid() { PromotedKeeps(Contents(), id, expected, pid); }
      if id !in generations || !generations[id].state.Ready? || active != expected { return false; }
      var previous := active;
      if previous.Some? {
        if previous.value !in generations { return false; }
        generations := generations[previous.value := generations[previous.value].(state := Retiring, serving := false)];
      }
      generations := generations[id := generations[id].(state := Serving, serving := true)];
      active := Some(id);
      promotions := promotions[pid := Promotion(previous, id, Standing)];
      return true;
    }

    /** The source of a rolled-back promotion is looked up only after the current row has already been changed. */
    method Rollback(pid: nat) returns (ok: bool)
      modifies this
      ensures old(Valid()) ==> (Valid() <==> old(SourceThere(Contents(), pid)))
      ensures old(Valid()) ==> ok == old(RollbackAllowed(Contents(), pid) && SourceThere(Contents(), pid))
      ensures Contents() == Rolled(old(Contents()), pid).0 && ok == Rolled(old(Contents()), pid).1
    {
      if Valid() { RollbackKeepsIff(Contents(), pid); }
      if pid !in promotions || !promotions[pid].state.Standing? || active != Some(promotions[pid].to) { return false; }
      var p := promotions[pid];
      if p.to !in generations { return false; }
      generations := generations[p.to := generations[p.to].(state := Ready, serving := false)];
      if p.from.Some? {
        if p.from.value !in generations { return false; }
        generations := generations[p.from.value := generations[p.from.value].(state := Serving, serving := true)];
      }
      active := p.from;
      promotions := promotions[pid := p.(state := RolledBack)];
      return true;
    }

    /**
     * `catchUp` over a finite log read in batches: it ends, the candidate holds its snapshot overwritten by a run
     * of the log
     * in order, and no other generation, and so no serving data, is touched.
     */
    method CatchUp(id: string, log: seq<Event>, start: nat, end: Option<nat>, batchSize: nat) returns (passed: nat)
      requires Valid() && Open(id)
      requires batchSize > 0 && start <= |log| && (end.Some? ==> end.value <= |log|)
      modifies this
      ensures Valid() && active == old(active) && promotions == old(promotions)
      ensures start <= passed <= |log| && (end.None? ==> passed == |log|) && (end.Some? ==> end.value <= passed)
      ensures id in generations && generations[id].data == Overwritten(old(generations)[id].data, log[start..passed])
      ensures forall other :: other != id ==> (other in generations <==> other in old(generations))
      ensures forall other :: other != id && other in generations ==> generations[other] == old(generations)[other]
    {
      passed := start;
      assert log[start..start] == [];
      while end.None? || passed < end.value
        invariant Open(id) && Valid() && active == old(active) && promotions == old(promotions)
        invariant start <= passed <= |log|
        invariant generations[id].data == Overwritten(old(generations)[id].data, log[start..passed])
        invariant forall other :: other != id ==> (other in generations <==> other in old(generations))
        invariant forall other :: other != id && other in generations ==> generations[other] == old(generations)[other]
        decreases |log| - passed
      {
        var hi := if passed + batchSize < |log| then passed + batchSize else |log|;
        if hi == passed { break; }
        passed := ApplyBatch(id, log, start, passed, hi, old(generations)[id].data);
      }
    }

    ghost predicate Open(id: string)
      reads this
    {
      id in generations && Mutable(generations[id])
    }

    method ApplyBatch(id: string, log: seq<Event>, start: nat, lo: nat, hi: nat, ghost base: Data) returns (passed: nat)
      requires Valid() && Open(id) && start <= lo < hi <= |log|
      requires generations[id].data == Overwritten(base, log[start..lo])
      modifies this
      ensures Valid() && Open(id) && passed == hi && active == old(active) && promotions == old(promotions)
      ensures generations[id].data == Overwritten(base, log[start..hi])
      ensures forall other :: other != id ==> (other in generations <==> other in old(generations))
      ensures forall other :: other != id && other in generations ==> generations[other] == old(generations)[other]
    {
      passed := lo;
      while passed < hi
        invariant lo <= passed <= hi && Valid() && Open(id) && active == old(active) && promotions == old(promotions)
        invariant generations[id].data == Overwritten(base, log[start..passed])
        invariant forall other :: other != id ==> (other in generations <==> other in old(generations))
        invariant forall other :: other != id && other in generations ==> generations[other] == old(generations)[other]
      {
        OverwrittenSnoc(base, log[start..passed], log[passed]);
        SliceSnoc(log, start, passed);
        var ok := ApplyChange(id, log[passed].entityId, log[passed].entry);
        passed := passed + 1;
      }
    }
  }

  const READY := Row(Ready, true, false, map[])

  method Build(backend: MemoryGenerationBackend, id: string)
    requires id !in backend.generations
    modifies backend
    ensures backend.Contents() == Put(old(backend.Contents()), id, READY)
  {
    var ok := backend.Create(id);
    ok := backend.Load(id, map[]);
    ok := backend.Validate(id);
  }

  /** `gen-b` has replaced `gen-a` under promotion 1. */
  method Replace() returns (backend: MemoryGenerationBackend)
    ensures fresh(backend) && backend.active == Some("gen-b")
    ensures backend.generations
      == map["gen-a" := READY.(state := Retiring), "gen-b" := READY.(state := Serving, serving := true)]
    ensures 1 in backend.promotions && backend.promotions[1] == Promotion(Some("gen-a"), "gen-b", Standing)
  {
    backend := new MemoryGenerationBackend();
    Build(backend, "gen-a");
    Build(backend, "gen-b");
    assert backend.Contents() == Store(map["gen-a" := READY, "gen-b" := READY], None, map[]);
    var ok := backend.Promote("gen-a", None, 0);
    ok := backend.Promote("gen-b", Some("gen-a"), 1);
  }

  /**
    The run in which it fails: the way back is deleted, then taken. No row
    serves, and the active name stands at a READY one.
   */
  method RollBackToDeleted() returns (backend: MemoryGenerationBackend)
    ensures fresh(backend) && !backend.Valid() && backend.active == Some("gen-b")
    ensures forall id :: id in backend.generations ==> !backend.generations[id].serving
  {
    backend := Replace();
    var ok := backend.Retire("gen-a");
    ok := backend.Delete("gen-a");
    assert backend.generations == map["gen-b" := READY.(state := Serving, serving := true)];
    ok := backend.Rollback(1);
  }

  /**
    A second way to lose what is served: the way back is deleted and its name
    used again. The rollback goes through, and a generation serves that was
    never loaded or validated.
   */
  method RollBackToReused() returns (backend: MemoryGenerationBackend)
    ensures fresh(backend) && backend.Valid() && backend.active == Some("gen-a")
    ensures "gen-a" in backend.generations && backend.generations["gen-a"] == Row(Serving, false, true, map[])
  {
    backend := Replace();
    var ok := backend.Retire("gen-a");
    ok := backend.Delete("gen-a");
    ok := backend.Create("gen-a");
    assert backend.generations
      == map["gen-a" := Row(Creating, false, false, map[]), "gen-b" := READY.(state := Serving, serving := true)];
    ok := backend.Rollback(1);
  }
}
