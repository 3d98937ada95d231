/**
  The two-slot promotion while rebuilds of the idle slot go on beside it: a
  promotion process, any number of rebuild and validation runs, every database
  transaction of theirs one action.
 */
module StandaloneRebuild {
  import opened Wrappers
  import opened StandalonePromotion

  /** What `inspect` told a run. */
  datatype Selection = Selection(serving: SlotId, candidate: SlotId, version: nat)
  datatype Run = Run(sel: Selection, loading: bool)
  type RunId = nat

  /** `checked` is the journal the promotion process is about to insert. */
  datatype World = World(db: Db, checked: Option<Journal>, runs: map<RunId, Run>)

  datatype Act =
    | Check(mode: Mode, evidence: Evidence)
    | Insert
    | Forget
    | Advance
    | Inspect(r: RunId)
    | LoadCommit(r: RunId)
    | LoadDone(r: RunId)
    | ValidateDone(r: RunId, valid: bool)

  // ------------------------------------------------------------- actions

  /** The transaction of the oldest pending journal's phase; a conflict changes nothing. */
  function Advanced(db: Db): Db {
    var p := Pending(db.journals);
    if p.None? then db
    else
      var step := match db.journals[p.value].phase
        case Preparing => Cas(db, p.value)
        case PointerUpdated => MarkVerified(db, p.value)
        case _ => Finalize(db, p.value);
      match step case Committed(next) => next case Aborted(_) => db
  }

  /** The guard of `inspect`: the pointer's slot is the one that serves, and the other is idle. */
  predicate Inspectable(db: Db) {
    var other := At(db, Other(db.pointer.current));
    Served(At(db, db.pointer.current)) && !other.state.Serving? && !other.protection.ServingProtection?
  }

  /** The guard of the load transaction. */
  predicate Loadable(w: World, r: RunId) {
    r in w.runs && !w.runs[r].loading
    && w.db.pointer.current == w.runs[r].sel.serving && w.db.pointer.version == w.runs[r].sel.version
  }

  function Emptied(slot: Slot): Slot {
    if slot.state.Serving? then slot else Slot(Building, NoProtection, slot.lifecycleVersion + 1)
  }

  function SetState(db: Db, s: SlotId, state: State): Db { Put(db, s, At(db, s).(state := state)) }

  function Next(w: World, a: Act): World {
    match a
    case Check(mode, evidence) =>
      if Pending(w.db.journals).None? && w.checked.None? && Precondition(w.db, mode, evidence).Committed?
      then w.(checked := Some(Precondition(w.db, mode, evidence).state)) else w
    case Insert =>
      if w.checked.Some? then w.(db := w.db.(journals := w.db.journals + [w.checked.value]), checked := None) else w
    case Forget => w.(checked := None)
    case Advance => w.(db := Advanced(w.db))
    case Inspect(r) =>
      var serving := w.db.pointer.current;
      if Inspectable(w.db) then
        w.(runs := w.runs[r := Run(Selection(serving, Other(serving), w.db.pointer.version), false)]) else w
    case LoadCommit(r) =>
      if Loadable(w, r) then
        var s := w.runs[r].sel.candidate;
        w.(db := Put(w.db, s, Emptied(At(w.db, s))), runs := w.runs[r := w.runs[r].(loading := true)])
      else w
    case LoadDone(r) =>
      if r in w.runs && w.runs[r].loading then
        w.(db := SetState(w.db, w.runs[r].sel.candidate, Building), runs := w.runs - {r}) else w
    case ValidateDone(r, valid) =>
      if r in w.runs && !w.runs[r].loading
      then
        w.(db := SetState(w.db, w.runs[r].sel.candidate, if valid then Ready else Failed), runs := w.runs - {r}) else w
  }

  function Play(w: World, acts: seq<Act>): World
    decreases |acts|
  {
    if acts == [] then w else Play(Next(w, acts[0]), acts[1..])
  }

  // ------------------------------------------ what no interleaving can break

  predicate InFlight(j: Journal) { j.phase.PointerUpdated? || j.phase.RouterVerified? }

  /** The journal that is checked or under way. */
  function Current(w: World): Option<Journal> {
    var n := |w.db.journals|;
    if n > 0 && !w.db.journals[n - 1].phase.Finalized? then Some(w.db.journals[n - 1]) else w.checked
  }

  /** The target of a journal never serves before its finalisation, whoever writes to it. */
  ghost predicate JournalOk(db: Db, runs: map<RunId, Run>, j: Journal) {
    && !j.phase.Finalized? && j.to == Other(j.from) && !At(db, j.to).state.Serving?
    && (j.phase.Preparing? ==> db.pointer.current == j.from && db.pointer.version == j.expected)
    && (InFlight(j) ==> db.pointer.current == j.to && forall r :: r in runs ==>
        runs[r].sel.version < db.pointer.version)
  }

  ghost predicate RunsOk(version: nat, runs: map<RunId, Run>) {
    forall r :: r in runs ==> runs[r].sel.version <= version && runs[r].sel.candidate == Other(runs[r].sel.serving)
  }

  ghost predicate Base(w: World) {
    var n := |w.db.journals|;
    && (n > 0 ==> AllFinal(w.db.journals[..n - 1]))
    && (w.checked.Some? ==> w.checked.value.phase.Preparing? && (n > 0 ==> w.db.journals[n - 1].phase.Finalized?))
    && (Current(w).Some? ==> JournalOk(w.db, w.runs, Current(w).value))
    && RunsOk(w.db.pointer.version, w.runs)
  }

  /** With every earlier journal final, the oldest pending one is the last. */
  lemma PendingLast(js: seq<Journal>)
    requires |js| > 0 ==> AllFinal(js[..|js| - 1])
    ensures Pending(js) == if |js| > 0 && !js[|js| - 1].phase.Finalized? then Some(|js| - 1) else None
  {
    PendingExact(js);
    if |js| > 0 { assert forall i :: 0 <= i < |js| - 1 ==> js[i] == js[..|js| - 1][i]; }
  }

  lemma AdvanceBase(w: World)
    requires Base(w)
    ensures Base(Next(w, Advance))
  {
    PendingLast(w.db.journals);
    var n := |w.db.journals|;
    if Pending(w.db.journals).Some? && Advanced(w.db) != w.db {
      var j := Advanced(w.db).journals[n - 1];
      LastKept(w.db.journals, j);
      assert Advanced(w.db).journals == w.db.journals[n - 1 := j];
    }
  }

  lemma InsertBase(w: World)
    requires Base(w)
    ensures Base(Next(w, Insert))
  {
    if w.checked.Some? {
      var js := w.db.journals + [w.checked.value];
      assert js[..|js| - 1] == w.db.journals;
      if w.db.journals != [] {
        assert forall i :: 0 <= i < |w.db.journals| - 1 ==> w.db.journals[i] == w.db.journals[..|w.db.journals| - 1][i];
      }
    }
  }

  lemma CheckBase(w: World, mode: Mode, evidence: Evidence)
    requires Base(w)
    ensures Base(Next(w, Check(mode, evidence)))
  {
    PendingLast(w.db.journals);
  }

  lemma NextBase(w: World, a: Act)
    requires Base(w)
    ensures Base(Next(w, a))
  {
    match a
    case Check(mode, evidence) => CheckBase(w, mode, evidence);
    case Insert => InsertBase(w);
    case Advance => AdvanceBase(w);
    case Forget =>
    case Inspect(r) =>
    case LoadCommit(r) =>
    case LoadDone(r) =>
    case ValidateDone(r, valid) =>
  }

  lemma {:induction false} PlayBase(w: World, acts: seq<Act>)
    requires Base(w)
    ensures Base(Play(w, acts))
    decreases |acts|
  {
    if acts != [] {
      NextBase(w, acts[0]);
      PlayBase(Next(w, acts[0]), acts[1..]);
    }
  }

  /** Two slots, one of them serving, no journal and no run. */
  predicate Fresh(w: World) {
    w.db.journals == [] && w.checked.None? && w.runs == map[] && Inspectable(w.db)
  }

  /**
    Whatever the interleaving, no load gets in between the pointer move and
    the finalisation: neither a run that inspected before the move nor one
    that starts after it passes the load's guard.
   */
  lemma LoadRefusedInFlight(start: World, acts: seq<Act>, r: RunId)
    requires Fresh(start)
    requires var w := Play(start, acts); Current(w).Some? && InFlight(Current(w).value)
    ensures var w := Play(start, acts); Next(w, LoadCommit(r)) == w && Next(w, Inspect(r)) == w
  {
    PlayBase(start, acts);
  }

  // ------------------------------------------------ when the pointer stays lit

  predicate Lit(db: Db) { Routable(At(db, db.pointer.current)) }

  /**
    No rebuild writes to a slot that a journal is about to promote, or to the
    slot that the serving pointer stands at.
   */
  predicate Calm(w: World, a: Act) {
    && (a.LoadCommit? && Loadable(w, a.r) ==> Current(w).None?)
    && ((a.LoadDone? || a.ValidateDone?) && a.r in w.runs ==>
        Current(w).None? && w.runs[a.r].sel.candidate != w.db.pointer.current)
  }

  ghost predicate AlwaysCalm(w: World, acts: seq<Act>)
    decreases |acts|
  {
    acts != [] ==> Calm(w, acts[0]) && AlwaysCalm(Next(w, acts[0]), acts[1..])
  }

  ghost predicate AlwaysLit(w: World, acts: seq<Act>)
    decreases |acts|
  {
    Lit(w.db) && (acts != [] ==> AlwaysLit(Next(w, acts[0]), acts[1..]))
  }

  /** A checked journal is as good as an inserted one. */
  ghost predicate Held(w: World) {
    Inv(w.db) && (w.checked.Some? ==> UnderWay(w.db, w.checked.value))
  }

  lemma InsertHeld(w: World)
    requires Base(w) && Held(w)
    ensures Held(Next(w, Insert))
  {
    if w.checked.Some? {
      var js := w.db.journals + [w.checked.value];
      assert js[..|js| - 1] == w.db.journals;
    }
  }

  lemma AdvanceHeld(w: World)
    requires Base(w) && Held(w)
    ensures Held(Next(w, Advance))
  {
    PendingLast(w.db.journals);
    if Pending(w.db.journals).Some? { StepKeeps(w.db); }
  }

  lemma CheckHeld(w: World, mode: Mode, evidence: Evidence)
    requires Base(w) && Held(w)
    ensures Held(Next(w, Check(mode, evidence)))
  {
    PendingLast(w.db.journals);
    PendingIsLast(w.db);
  }

  /** The ordinary rebuild of the idle slot keeps the promotion's invariant. */
  lemma IdleWriteKeeps(db: Db, slot: Slot)
    requires Inv(db) && Pending(db.journals).None? && !slot.state.Serving?
    ensures Inv(Put(db, Other(db.pointer.current), slot))
  {
    PendingIsLast(db);
  }

  lemma WriteHeld(w: World, a: Act)
    requires Base(w) && Held(w) && Calm(w, a) && (a.LoadCommit? || a.LoadDone? || a.ValidateDone?)
    ensures Held(Next(w, a))
  {
    if Next(w, a) != w {
      PendingLast(w.db.journals);
      var idle := Other(w.db.pointer.current);
      IdleWriteKeeps(w.db, At(Next(w, a).db, idle));
    }
  }

  lemma NextHeld(w: World, a: Act)
    requires Base(w) && Held(w) && Calm(w, a)
    ensures Held(Next(w, a))
  {
    match a
    case Check(mode, evidence) => CheckHeld(w, mode, evidence);
    case Insert => InsertHeld(w);
    case Advance => AdvanceHeld(w);
    case Forget =>
    case Inspect(r) =>
    case LoadCommit(r) => WriteHeld(w, a);
    case LoadDone(r) => WriteHeld(w, a);
    case ValidateDone(r, valid) => WriteHeld(w, a);
  }

  lemma {:induction false} HeldLit(w: World, acts: seq<Act>)
    requires Base(w) && Held(w) && AlwaysCalm(w, acts)
    ensures AlwaysLit(w, acts)
    decreases |acts|
  {
    NeverDark(w.db);
    if acts != [] {
      NextBase(w, acts[0]);
      NextHeld(w, acts[0]);
      HeldLit(Next(w, acts[0]), acts[1..]);
    }
  }

  /**
    As long as no rebuild commits under a journal that is checked or
    preparing, and no late write lands on the pointer's slot, the pointer's
    target is routable in every state of the run.
   */
  lemma NeverDarkWhenCalm(start: World, acts: seq<Act>)
    requires Fresh(start) && AlwaysCalm(start, acts)
    ensures AlwaysLit(start, acts)
  {
    HeldLit(start, acts);
  }

  /** The exact moments: a compare-and-set onto a slot the router refuses, or a late write to the pointer's slot. */
  predicate Kind(w: World, a: Act) {
    && (a.Advance? && Current(w).Some? && w.checked.None? && Current(w).value.phase.Preparing? ==>
        Routable(At(w.db, Current(w).value.to)))
    && (a.LoadDone? && a.r in w.runs && w.runs[a.r].loading ==> w.runs[a.r].sel.candidate != w.db.pointer.current)
    && (a.ValidateDone? && a.r in w.runs && !w.runs[a.r].loading
        && w.runs[a.r].sel.candidate == w.db.pointer.current ==>
          a.valid && At(w.db, w.db.pointer.current).protection.NoProtection?)
  }

  ghost predicate AlwaysKind(w: World, acts: seq<Act>)
    decreases |acts|
  {
    acts != [] ==> Kind(w, acts[0]) && AlwaysKind(Next(w, acts[0]), acts[1..])
  }

  lemma AdvanceLitIff(w: World)
    requires Base(w) && Lit(w.db)
    ensures Lit(Next(w, Advance).db) <==> Kind(w, Advance)
  {
    PendingLast(w.db.journals);
  }

  lemma NextLitIff(w: World, a: Act)
    requires Base(w) && Lit(w.db)
    ensures Lit(Next(w, a).db) <==> Kind(w, a)
  {
    if a.Advance? { AdvanceLitIff(w); }
  }

  /** Over every run the pointer's target stays routable if and only if none of these moments occurs. */
  lemma {:induction false} LitIff(w: World, acts: seq<Act>)
    requires Base(w) && Lit(w.db)
    ensures AlwaysLit(w, acts) <==> AlwaysKind(w, acts)
    decreases |acts|
  {
    if acts != [] {
      NextLitIff(w, acts[0]);
      NextBase(w, acts[0]);
      var t := Next(w, acts[0]);
      if Lit(t.db) { LitIff(t, acts[1..]); } else { assert !AlwaysLit(t, acts[1..]); }
    }
  }

  lemma RunLitIff(start: World, acts: seq<Act>)
    requires Fresh(start)
    ensures AlwaysLit(start, acts) <==> AlwaysKind(start, acts)
  {
    LitIff(start, acts);
  }

  // ----------------------------------------------------------- dark runs

  const DARK_LOAD := [Inspect(0), Check(Promote, Evidence(true, true)), Insert, LoadCommit(0), Advance]

  /**
    A rebuild that inspected before the journal was written commits while it is
    preparing: the promotion then moves to an empty slot.
   */
  lemma RebuiltCandidateGoesDark(start: World)
    requires Fresh(start) && start.db.pointer.current == GenA && Eligible(start.db.b, Promote)
    ensures !Lit(Play(start, DARK_LOAD).db)
  {
    var a := Next(start, Inspect(0));
    var b := Next(a, Check(Promote, Evidence(true, true)));
    var c := Next(b, Insert);
    var d := Next(c, LoadCommit(0));
    assert c.db.journals == [Journal(GenA, GenB, Preparing, start.db.pointer.version, None)];
    assert d.db.b.state == Building && Pending(d.db.journals) == Some(0);
    var e := Next(d, Advance);
    assert e.db.pointer.current == GenB && !Lit(e.db);
    FivePlays(start, DARK_LOAD);
  }

  lemma FivePlays(w: World, acts: seq<Act>)
    requires |acts| == 5
    ensures Play(w, acts) == Next(Next(Next(Next(Next(w, acts[0]), acts[1]), acts[2]), acts[3]), acts[4])
  {
    var a := Next(w, acts[0]);
    var b := Next(a, acts[1]);
    var c := Next(b, acts[2]);
    var d := Next(c, acts[3]);
    PlayTail(w, acts, 0, w);
    PlayTail(w, acts, 1, a);
    PlayTail(w, acts, 2, b);
    PlayTail(w, acts, 3, c);
    PlayTail(w, acts, 4, d);
  }

  lemma PlayTail(w: World, acts: seq<Act>, i: nat, u: World)
    requires i < |acts| && Play(w, acts) == Play(u, acts[i..])
    ensures Play(w, acts) == Play(Next(u, acts[i]), acts[i + 1..])
  {
    assert acts[i..][0] == acts[i] && acts[i..][1..] == acts[i + 1..];
  }

  const LATE_VALIDATE := [Inspect(0), Check(Promote, Evidence(true, true)), Insert, Advance, Advance, Advance,
                          ValidateDone(0, true)]

  /** A validation that inspected before the promotion writes READY over the slot that serves by now. */
  lemma LateValidationGoesDark(start: World)
    requires Fresh(start) && start.db.pointer.current == GenA && Eligible(start.db.b, Promote)
    ensures !Lit(Play(start, LATE_VALIDATE).db)
  {
    var f := Promoted(start);
    var acts := LATE_VALIDATE;
    assert acts[..5] + acts[5..] == acts;
    PlayConcat(start, acts[..5], acts[5..]);
    FivePlays(start, acts[..5]);
    assert acts[5..] == [Advance, ValidateDone(0, true)];
    PlayTail(start, acts, 5, Play(start, acts[..5]));
    PlayTail(start, acts, 6, f);
  }

  /** After the promotion, with the run that inspected before it still open. */
  lemma Promoted(start: World) returns (f: World)
    requires Fresh(start) && start.db.pointer.current == GenA && Eligible(start.db.b, Promote)
    ensures f == Next(Next(Next(Next(Next(Next(start, Inspect(0)), Check(Promote, Evidence(true, true))), Insert),
                                Advance), Advance), Advance)
    ensures f.db.pointer.current == GenB && f.db.b.state == Serving && f.db.b.protection == ServingProtection
    ensures 0 in f.runs && f.runs[0] == Run(Selection(GenA, GenB, start.db.pointer.version), false)
  {
    var c := Next(Next(Next(start, Inspect(0)), Check(Promote, Evidence(true, true))), Insert);
    assert c.db.journals == [Journal(GenA, GenB, Preparing, start.db.pointer.version, None)];
    var d := Next(c, Advance);
    assert d.db.journals[0].phase == PointerUpdated && Pending(d.db.journals) == Some(0);
    var e := Next(d, Advance);
    assert e.db.journals[0].phase == RouterVerified && Pending(e.db.journals) == Some(0);
    f := Next(e, Advance);
  }

  lemma {:induction false} PlayConcat(w: World, first: seq<Act>, second: seq<Act>)
    ensures Play(w, first + second) == Play(Play(w, first), second)
    decreases |first|
  {
    if first == [] { assert first + second == second; }
    else {
      assert (first + second)[1..] == first[1..] + second;
      PlayConcat(Next(w, first[0]), first[1..], second);
    }
  }
}
