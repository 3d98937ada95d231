/**
  Physical deletion completes when nobody interferes: what
  ClusterDeletionTheorems says of PHYSICALLY_DELETED is said of something.
 */
module ClusterDeletionProgress {
  import opened Wrappers
  import opened CoordinatorDb
  import opened CoordinatorProtocol
  import opened CoordinatorDeletion
  import W = CoordinatorWitness
  import opened ClusterDeletion
  import opened ClusterDeletionSafety

  // ----------------------------------------------------------------- runs

  ghost predicate Gets(w: World, w': World) { exists events :: Play(w, events) == w' }

  lemma NextGets(w: World, ev: Event)
    ensures Gets(w, Next(w, ev))
  {
    assert [ev][1..] == [];
    assert Play(w, [ev]) == Play(Next(w, ev), [ev][1..]);
  }

  lemma {:induction false} PlayAppend(w: World, first: seq<Event>, second: seq<Event>)
    ensures Play(w, first + second) == Play(Play(w, first), second)
    decreases |first|
  {
    if first == [] { assert first + second == second; }
    else {
      assert (first + second)[1..] == first[1..] + second;
      PlayAppend(Next(w, first[0]), first[1..], second);
    }
  }

  lemma Then(w: World, u: World, v: World)
    requires Gets(w, u) && Gets(u, v)
    ensures Gets(w, v)
  {
    var first :| Play(w, first) == u;
    var second :| Play(u, second) == v;
    PlayAppend(w, first, second);
  }

  // ------------------------------------------------- an undisturbed driver

  /** The driver of `e` has its coordinator at the deletion calls, with live authority. */
  predicate Empowered(w: World, e: Epoch, pc: Pc) {
    && e in w.drivers
    && var dr := w.drivers[e];
       var l := LocalOf(w.sys, dr.owner);
       && l.Busy? && l.op == e.op && l.fence == e.fence && l.pc == pc
       && Authorized(w.sys.db, e.op, dr.g, dr.owner, e.fence, e.token)
  }

  function DeletingPc(w: World, e: Epoch): Pc
    requires e in w.drivers
  {
    Deleting(w.drivers[e].g, e.token)
  }

  /** `w` with another journal, cluster, list of deletions and stage of driver `e`. */
  function At(w: World, e: Epoch, a: Attempts, c: Cluster, deletions: seq<Deletion>, stage: Stage): World
    requires e in w.drivers
  {
    World(w.sys.(db := w.sys.db.(attempts := a)), c, w.drivers[e := w.drivers[e].(stage := stage)], deletions)
  }

  predicate Row(w: World, e: Epoch, a: Attempts, role: Role, state: AttemptState)
    requires e in w.drivers
  {
    KeyOf(e, role) in a && a[KeyOf(e, role)].uid == For(w.drivers[e].plan, role).uid && a[KeyOf(e, role)].state == state
  }

  function Advanced(e: Epoch, a: Attempts, role: Role, to: AttemptState): Attempts
    requires KeyOf(e, role) in a
  {
    a[KeyOf(e, role) := a[KeyOf(e, role)].(state := to)]
  }

  lemma DriveGets(w: World, e: Epoch, flag: bool, w': World)
    requires e in w.drivers && Attached(w.sys, e, w.drivers[e]) && StepDriver(w, e, flag) == w'
    ensures Gets(w, w')
  {
    NextGets(w, Drive(e, flag));
  }

  lemma RecordCommits(s: System, c: OwnerId, l: Local, e: Epoch, role: Role, to: AttemptState)
    requires LocalOf(s, c) == l && l.Busy? && l.pc.Deleting? && e == Epoch(l.op, l.fence, l.pc.token)
    requires Holds(s.db, l.op, c, l.fence) && KeyOf(e, role) in s.db.attempts
    requires to in {DeleteIntent, DeleteAccepted, AbsentConfirmed}
    requires Rank(s.db.attempts[KeyOf(e, role)].state) + 1 == Rank(to)
    ensures StepDeleting(s, c, l, RecordChoice(role, s.db.attempts[KeyOf(e, role)].uid, to))
         == s.(db := s.db.(attempts := Advanced(e, s.db.attempts, role, to)))
  {
    var uid := s.db.attempts[KeyOf(e, role)].uid;
    var from := if to == DeleteIntent then {FenceMarked, DeleteIntent}
      else if to == DeleteAccepted then {DeleteIntent, DeleteAccepted} else {DeleteAccepted, AbsentConfirmed};
    var r := SetAttemptState(s.db, l.op, c, l.fence, l.pc.token, Some(role), Some(uid), from, to);
    assert Matches(s.db, KeyOf(e, role), l.op, l.fence, l.pc.token, Some(role), Some(uid), from);
    SetOne(s.db, l.op, c, l.fence, l.pc.token, role, uid, from, to);
    assert StepDeleting(s, c, l, RecordChoice(role, uid, to)) == Await(s, c, r, l.pc);
    assert s.locals[c := l] == s.locals;
  }

  /** One record of one role's progress. */
  lemma RecordGets(w: World, e: Epoch, a: Attempts, c: Cluster, deletions: seq<Deletion>, role: Role, now: AttemptState,
                   to: AttemptState, stage: Stage)
    requires e in w.drivers && Empowered(w, e, DeletingPc(w, e)) && Row(w, e, a, role, now)
    requires (now == FenceMarked && to == DeleteIntent && stage == ToIntend(role))
          || (now == DeleteIntent && to == DeleteAccepted && stage == ToAccept(role))
          || (now == DeleteAccepted && to == AbsentConfirmed && stage == ToConfirm(role))
    ensures Gets(At(w, e, a, c, deletions, stage),
                 At(w, e, Advanced(e, a, role, to), c, deletions, AfterRecord(role, to)))
  {
    var u := At(w, e, a, c, deletions, stage);
    var dr := w.drivers[e];
    var l := LocalOf(u.sys, dr.owner);
    var ch := RecordChoice(role, For(dr.plan, role).uid, to);
    var t := StepDeleting(u.sys, dr.owner, l, ch);
    RecordCommits(u.sys, dr.owner, l, e, role, to);
    CalledAt(w, e, a, c, deletions, stage, Advanced(e, a, role, to), AfterRecord(role, to));
    assert CoordinatorStep(u.sys, dr.owner, ch) == t;
    DriveGets(u, e, true, Called(u, e, t, AfterRecord(role, to)));
  }

  lemma CalledAt(w: World, e: Epoch, a: Attempts, c: Cluster, deletions: seq<Deletion>, stage: Stage, a': Attempts,
                 next: Stage)
    requires e in w.drivers && LocalOf(w.sys, w.drivers[e].owner).Busy?
    ensures var u := At(w, e, a, c, deletions, stage);
      Called(u, e, u.sys.(db := u.sys.db.(attempts := a')), next) == At(w, e, a', c, deletions, next)
  {}

  /** A stage that neither calls the database nor touches the cluster. */
  lemma PassGets(w: World, e: Epoch, a: Attempts, c: Cluster, deletions: seq<Deletion>, stage: Stage, next: Stage)
    requires e in w.drivers && Empowered(w, e, DeletingPc(w, e)) && stage !in {ToPatch, ToReread, ToRecord, ToFence}
    requires var u := At(w, e, a, c, deletions, stage); StepDriver(u, e, true) == Go(u, e, next)
    ensures Gets(At(w, e, a, c, deletions, stage), At(w, e, a, c, deletions, next))
  {
    var u := At(w, e, a, c, deletions, stage);
    assert Go(u, e, next) == At(w, e, a, c, deletions, next);
    DriveGets(u, e, true, Go(u, e, next));
  }

  function Without(c: Cluster, slot: Slot): Cluster { c.(items := c.items - {slot}) }

  lemma RemoveGets(w: World, e: Epoch, a: Attempts, c: Cluster, deletions: seq<Deletion>, role: Role)
    returns (deletions': seq<Deletion>)
    requires e in w.drivers && Empowered(w, e, DeletingPc(w, e))
    requires SameResource(c.items, Slot(w.drivers[e].g, role), For(w.drivers[e].plan, role))
    ensures Gets(At(w, e, a, c, deletions, ToRemove(role)),
                 At(w, e, a, Without(c, Slot(w.drivers[e].g, role)), deletions', ToAccept(role)))
  {
    var u := At(w, e, a, c, deletions, ToRemove(role));
    var dr := w.drivers[e];
    deletions' := deletions + [Deletion(e, Slot(dr.g, role), For(dr.plan, role).uid, dr.bornAt)];
    var v := At(w, e, a, Without(c, Slot(dr.g, role)), deletions', ToAccept(role));
    assert StepRemove(u, e, role, true) == v;
    DriveGets(u, e, true, v);
  }

  lemma TurnGets(w: World, e: Epoch, a: Attempts, c: Cluster, deletions: seq<Deletion>, role: Role)
    requires e in w.drivers && Empowered(w, e, DeletingPc(w, e)) && !For(w.drivers[e].plan, role).absent
    requires role == Pvc ==> MarkedBy(c.items, w.drivers[e].g, e)
    ensures Gets(At(w, e, a, c, deletions, Turn(role)), At(w, e, a, c, deletions, ToIntend(role)))
  {
    PassGets(w, e, a, c, deletions, Turn(role), ToIntend(role));
  }

  lemma WaitGets(w: World, e: Epoch, a: Attempts, c: Cluster, deletions: seq<Deletion>, role: Role)
    requires e in w.drivers && Empowered(w, e, DeletingPc(w, e)) && Slot(w.drivers[e].g, role) !in c.items
    ensures Gets(At(w, e, a, c, deletions, ToWait(role)), At(w, e, a, c, deletions, ToConfirm(role)))
  {
    PassGets(w, e, a, c, deletions, ToWait(role), ToConfirm(role));
  }

  /** One resource: intent, delete, acceptance, absence. */
  lemma RoleGets(w: World, e: Epoch, a: Attempts, c: Cluster, deletions: seq<Deletion>, role: Role)
    returns (a': Attempts, deletions': seq<Deletion>)
    requires e in w.drivers && Empowered(w, e, DeletingPc(w, e)) && Row(w, e, a, role, FenceMarked)
    requires !For(w.drivers[e].plan, role).absent
    requires SameResource(c.items, Slot(w.drivers[e].g, role), For(w.drivers[e].plan, role))
    requires role == Pvc ==> MarkedBy(c.items, w.drivers[e].g, e)
    ensures Gets(At(w, e, a, c, deletions, Turn(role)),
                 At(w, e, a', Without(c, Slot(w.drivers[e].g, role)), deletions', After(role)))
    ensures a' == Advanced(e, a, role, AbsentConfirmed)
  {
    var start := At(w, e, a, c, deletions, Turn(role));
    var c' := Without(c, Slot(w.drivers[e].g, role));
    TurnGets(w, e, a, c, deletions, role);
    RecordGets(w, e, a, c, deletions, role, FenceMarked, DeleteIntent, ToIntend(role));
    var a1 := Advanced(e, a, role, DeleteIntent);
    Then(start, At(w, e, a, c, deletions, ToIntend(role)), At(w, e, a1, c, deletions, ToRemove(role)));
    deletions' := RemoveGets(w, e, a1, c, deletions, role);
    Then(start, At(w, e, a1, c, deletions, ToRemove(role)), At(w, e, a1, c', deletions', ToAccept(role)));
    a' := FinishRole(w, e, a1, c', deletions', role);
    Then(start, At(w, e, a1, c', deletions', ToAccept(role)), At(w, e, a', c', deletions', After(role)));
  }

  lemma FinishRole(w: World, e: Epoch, a: Attempts, c: Cluster, deletions: seq<Deletion>, role: Role)
    returns (a': Attempts)
    requires e in w.drivers && Empowered(w, e, DeletingPc(w, e)) && Row(w, e, a, role, DeleteIntent)
    requires Slot(w.drivers[e].g, role) !in c.items
    ensures Gets(At(w, e, a, c, deletions, ToAccept(role)), At(w, e, a', c, deletions, After(role)))
    ensures a' == Advanced(e, a, role, AbsentConfirmed)
  {
    var start := At(w, e, a, c, deletions, ToAccept(role));
    RecordGets(w, e, a, c, deletions, role, DeleteIntent, DeleteAccepted, ToAccept(role));
    var a2 := Advanced(e, a, role, DeleteAccepted);
    WaitGets(w, e, a2, c, deletions, role);
    Then(start, At(w, e, a2, c, deletions, ToWait(role)), At(w, e, a2, c, deletions, ToConfirm(role)));
    RecordGets(w, e, a2, c, deletions, role, DeleteAccepted, AbsentConfirmed, ToConfirm(role));
    a' := Advanced(e, a2, role, AbsentConfirmed);
    assert a' == Advanced(e, a, role, AbsentConfirmed);
    Then(start, At(w, e, a2, c, deletions, ToConfirm(role)), At(w, e, a', c, deletions, After(role)));
  }

  /** The plan still describes every resource of the generation. */
  predicate Fits(w: World, e: Epoch, c: Cluster)
    requires e in w.drivers
  {
    forall role ::
      && !For(w.drivers[e].plan, role).absent
      && SameResource(c.items, Slot(w.drivers[e].g, role), For(w.drivers[e].plan, role))
  }

  function Emptied(c: Cluster, g: GenerationId): Cluster {
    Without(Without(Without(c, Slot(g, Workload)), Slot(g, Pvc)), Slot(g, Service))
  }

  /** All three resources, one after the other. */
  lemma RolesGet(w: World, e: Epoch, a: Attempts, c: Cluster, deletions: seq<Deletion>)
    returns (a': Attempts, deletions': seq<Deletion>)
    requires e in w.drivers && Empowered(w, e, DeletingPc(w, e)) && Fits(w, e, c)
    requires MarkedBy(c.items, w.drivers[e].g, e)
    requires forall role :: Row(w, e, a, role, FenceMarked)
    ensures Gets(At(w, e, a, c, deletions, Turn(Workload)),
                 At(w, e, a', Emptied(c, w.drivers[e].g), deletions', Finished))
    ensures AllAbsent(a', e.op, e.fence, e.token)
  {
    var g := w.drivers[e].g;
    var start := At(w, e, a, c, deletions, Turn(Workload));
    assert Row(w, e, a, Workload, FenceMarked) && Row(w, e, a, Pvc, FenceMarked) && Row(w, e, a, Service, FenceMarked);
    var a1, d1 := RoleGets(w, e, a, c, deletions, Workload);
    var c1 := Without(c, Slot(g, Workload));
    var a2, d2 := RoleGets(w, e, a1, c1, d1, Pvc);
    Then(start, At(w, e, a1, c1, d1, Turn(Pvc)), At(w, e, a2, Without(c1, Slot(g, Pvc)), d2, Turn(Service)));
    a', deletions' := RoleGets(w, e, a2, Without(c1, Slot(g, Pvc)), d2, Service);
    Then(start, At(w, e, a2, Without(c1, Slot(g, Pvc)), d2, Turn(Service)),
         At(w, e, a', Emptied(c, g), deletions', Finished));
    AllRoles(e, a, a1, a2, a');
  }

  lemma AllRoles(e: Epoch, a: Attempts, a1: Attempts, a2: Attempts, a3: Attempts)
    requires KeyOf(e, Workload) in a && KeyOf(e, Pvc) in a && KeyOf(e, Service) in a
    requires a1 == Advanced(e, a, Workload, AbsentConfirmed) && a2 == Advanced(e, a1, Pvc, AbsentConfirmed)
    requires a3 == Advanced(e, a2, Service, AbsentConfirmed)
    ensures AllAbsent(a3, e.op, e.fence, e.token)
  {
    forall role: Role
      ensures AttemptKey(e.op, e.fence, e.token, role) in a3
      ensures a3[AttemptKey(e.op, e.fence, e.token, role)].state == AbsentConfirmed
    {
      match role case Workload => case Pvc => case Service =>
    }
  }

  // ------------------------------------------------------------ preparation

  function Checked(w: World, e: Epoch): World
    requires e in w.drivers
  {
    w.(drivers := w.drivers[e := w.drivers[e].(preflighted := true, stage := Turn(Workload))])
  }

  /** Authority and identity are found as planned. */
  lemma PreflightGets(w: World, e: Epoch)
    requires e in w.drivers && w.drivers[e].stage == ToVerify && Empowered(w, e, DeletingPc(w, e))
    requires Fits(w, e, w.cluster) && MarkedBy(w.cluster.items, w.drivers[e].g, e)
    ensures Gets(w, Checked(w, e))
  {
    var dr, a, c := w.drivers[e], w.sys.db.attempts, w.cluster;
    var u := At(w, e, a, c, w.deletions, ToVerify);
    assert u == w;
    var w1, w2, w3 := At(w, e, a, c, w.deletions, ToCheck(Workload)), At(w, e, a, c, w.deletions, ToCheck(Pvc)),
      At(w, e, a, c, w.deletions, ToCheck(Service));
    PassGets(w, e, a, c, w.deletions, ToVerify, ToCheck(Workload));
    PassGets(w, e, a, c, w.deletions, ToCheck(Workload), ToCheck(Pvc));
    Then(w, w1, w2);
    PassGets(w, e, a, c, w.deletions, ToCheck(Pvc), ToCheck(Service));
    Then(w, w2, w3);
    LastCheck(w, e);
    Then(w, w3, Checked(w, e));
  }

  lemma LastCheck(w: World, e: Epoch)
    requires e in w.drivers && Empowered(w, e, DeletingPc(w, e)) && Fits(w, e, w.cluster)
    ensures Gets(At(w, e, w.sys.db.attempts, w.cluster, w.deletions, ToCheck(Service)), Checked(w, e))
  {
    var u := At(w, e, w.sys.db.attempts, w.cluster, w.deletions, ToCheck(Service));
    assert For(w.drivers[e].plan, Service) == w.drivers[e].plan.service;
    assert StepCheck(u, e) == Checked(w, e);
    DriveGets(u, e, true, Checked(w, e));
  }

  lemma ConfirmGets(w: World, e: Epoch) returns (w': World)
    requires e in w.drivers && w.drivers[e].stage == Finished && Empowered(w, e, DeletingPc(w, e))
    requires AllAbsent(w.sys.db.attempts, e.op, e.fence, e.token)
    ensures Gets(w, w') && w'.cluster == w.cluster
    ensures w.drivers[e].g in w'.sys.db.retirements && w'.sys.db.retirements[w.drivers[e].g].state == PhysicallyDeleted
  {
    var dr := w.drivers[e];
    var l := LocalOf(w.sys, dr.owner);
    var t := StepDeleting(w.sys, dr.owner, l, Bare());
    assert CoordinatorStep(w.sys, dr.owner, Bare()) == t;
    w' := Called(w, e, t, Finished);
    DriveGets(w, e, true, w');
  }

  /** From a recorded plan to PHYSICALLY_DELETED. */
  lemma DeletionGets(w: World, e: Epoch) returns (w': World)
    requires e in w.drivers && w.drivers[e].stage == ToVerify && Empowered(w, e, DeletingPc(w, e))
    requires Fits(w, e, w.cluster) && MarkedBy(w.cluster.items, w.drivers[e].g, e)
    requires forall role :: Row(w, e, w.sys.db.attempts, role, FenceMarked)
    ensures Gets(w, w') && w'.cluster == Emptied(w.cluster, w.drivers[e].g)
    ensures w.drivers[e].g in w'.sys.db.retirements && w'.sys.db.retirements[w.drivers[e].g].state == PhysicallyDeleted
  {
    PreflightGets(w, e);
    var u := Checked(w, e);
    assert u == At(u, e, u.sys.db.attempts, u.cluster, u.deletions, Turn(Workload));
    forall role
      ensures Row(u, e, u.sys.db.attempts, role, FenceMarked)
    {
      assert Row(w, e, w.sys.db.attempts, role, FenceMarked);
    }
    var a', d' := RolesGet(u, e, u.sys.db.attempts, u.cluster, u.deletions);
    var v := At(u, e, a', Emptied(u.cluster, u.drivers[e].g), d', Finished);
    Then(w, u, v);
    w' := ConfirmGets(v, e);
    Then(w, v, w');
  }

  // ----------------------------------------------------- plan and journal

  /** Every resource of `g` is there and owned. */
  predicate Present(items: Items, g: GenerationId) {
    forall role :: Slot(g, role) in items && items[Slot(g, role)].owned
  }

  lemma BeginGets(w: World, c: OwnerId, g: GenerationId, e: Epoch) returns (w': World)
    requires LocalOf(w.sys, c).Busy? && LocalOf(w.sys, c).pc == RecordPlan(g, e.token) && LocalOf(w.sys, c).op == e.op
    requires LocalOf(w.sys, c).fence == e.fence
    requires Authorized(w.sys.db, e.op, g, c, e.fence, e.token) && e !in w.drivers && Present(w.cluster.items, g)
    ensures Gets(w, w') && w'.sys == w.sys && w'.cluster == w.cluster
    ensures e in w'.drivers && w'.drivers[e].stage == ToPatch && w'.drivers[e].g == g
    ensures Empowered(w', e, RecordPlan(g, e.token)) && Fits(w', e, w'.cluster)
  {
    NextGets(w, Begin(c, map[]));
    w' := StepBegin(w, c, map[]);
    var items := w.cluster.items;
    assert Slot(g, Workload) in items && Slot(g, Pvc) in items && Slot(g, Service) in items;
    var plan := PlanAll(items, map[], g);
    assert plan.Some? && w'.drivers[e] == Driver(c, g, plan.value, w.cluster.nextUid, false, ToPatch);
    forall role ensures !For(plan.value, role).absent && SameResource(items, Slot(g, role), For(plan.value, role)) {
      assert Slot(g, role) in items && items[Slot(g, role)].owned;
    }
  }

  /** The driver owns the Service's marker, and its plan fits the cluster with it. */
  predicate MarkerSet(w: World, w': World, e: Epoch) {
    && e in w.drivers && e in w'.drivers && w'.sys == w.sys && w'.cluster.items.Keys == w.cluster.items.Keys
    && (forall x :: x in w.cluster.items && x != Slot(w.drivers[e].g, Service) ==>
        w'.cluster.items[x] == w.cluster.items[x])
    && w'.drivers[e].owner == w.drivers[e].owner && w'.drivers[e].g == w.drivers[e].g
    && w'.drivers[e].stage == ToRecord && Fits(w', e, w'.cluster) && MarkedBy(w'.cluster.items, w.drivers[e].g, e)
  }

  lemma MarkGets(w: World, e: Epoch) returns (w': World)
    requires e in w.drivers && w.drivers[e].stage == ToPatch && Empowered(w, e, RecordPlan(w.drivers[e].g, e.token))
    requires Fits(w, e, w.cluster)
    ensures Gets(w, w') && MarkerSet(w, w', e)
  {
    assert For(w.drivers[e].plan, Service) == w.drivers[e].plan.service;
    var u := StepMark(w, e);
    DriveGets(w, e, true, u);
    if w.cluster.items[Slot(w.drivers[e].g, Service)].marker == Some(e) {
      w' := u;
    } else {
      w' := RereadGets(w, u, e);
      Then(w, u, w');
    }
  }

  lemma RereadGets(w: World, u: World, e: Epoch) returns (w': World)
    requires e in w.drivers && w.drivers[e].stage == ToPatch && Empowered(w, e, RecordPlan(w.drivers[e].g, e.token))
    requires Fits(w, e, w.cluster)
    requires u == StepMark(w, e) && For(w.drivers[e].plan, Service) == w.drivers[e].plan.service
    requires w.cluster.items[Slot(w.drivers[e].g, Service)].marker != Some(e)
    ensures Gets(u, w') && MarkerSet(w, w', e)
  {
    w' := StepMark(u, e);
    DriveGets(u, e, true, w');
    var g := w.drivers[e].g;
    forall role
      ensures !For(w'.drivers[e].plan, role).absent
      ensures SameResource(w'.cluster.items, Slot(g, role), For(w'.drivers[e].plan, role))
    {
      assert SameResource(w.cluster.items, Slot(g, role), For(w.drivers[e].plan, role))
        && !For(w.drivers[e].plan, role).absent;
    }
  }

  /** What the two journal calls leave alone. */
  predicate Journalled(w: World, w': World, e: Epoch, stage: Stage, state: AttemptState) {
    && e in w.drivers && e in w'.drivers && w'.drivers[e] == w.drivers[e].(stage := stage) && w'.cluster == w.cluster
    && forall role :: Row(w', e, w'.sys.db.attempts, role, state)
  }

  lemma PlanGets(w: World, e: Epoch) returns (w': World)
    requires e in w.drivers && w.drivers[e].stage == ToRecord && Empowered(w, e, RecordPlan(w.drivers[e].g, e.token))
    requires forall role :: KeyOf(e, role) !in w.sys.db.attempts
    requires Complete(w.drivers[e].plan)
    ensures Gets(w, w') && Journalled(w, w', e, ToFence, Planned)
    ensures Empowered(w', e, CoordinatorProtocol.MarkFence(w.drivers[e].g, e.token))
  {
    var dr := w.drivers[e];
    var l := LocalOf(w.sys, dr.owner);
    var ch := PlanChoice(dr.plan);
    var r := RecordDeletionPlan(w.sys.db, l.op, dr.g, dr.owner, l.fence, e.token, ch.plan);
    var t := Await(w.sys, dr.owner, r, CoordinatorProtocol.MarkFence(dr.g, e.token));
    assert CoordinatorStep(w.sys, dr.owner, ch) == t;
    w' := Called(w, e, t, ToFence);
    DriveGets(w, e, true, w');
    forall role ensures Row(w', e, w'.sys.db.attempts, role, Planned) {
      assert role in ch.plan && KeyOf(e, role) !in w.sys.db.attempts;
    }
  }

  lemma FenceGets(w: World, e: Epoch) returns (w': World)
    requires e in w.drivers && w.drivers[e].stage == ToFence
    requires Empowered(w, e, CoordinatorProtocol.MarkFence(w.drivers[e].g, e.token))
    requires forall role :: Row(w, e, w.sys.db.attempts, role, Planned)
    ensures Gets(w, w') && Journalled(w, w', e, ToVerify, FenceMarked)
    ensures Empowered(w', e, DeletingPc(w', e))
  {
    var dr := w.drivers[e];
    var l := LocalOf(w.sys, dr.owner);
    var from := {Planned, FenceMarked};
    var r := SetAttemptState(w.sys.db, l.op, dr.owner, l.fence, e.token, None, None, from, FenceMarked);
    forall role
      ensures KeyOf(e, role) in w.sys.db.attempts
      ensures Matches(w.sys.db, KeyOf(e, role), l.op, l.fence, e.token, None, None, from)
    {
      assert Row(w, e, w.sys.db.attempts, role, Planned);
    }
    assert Matches(w.sys.db, KeyOf(e, Service), l.op, l.fence, e.token, None, None, from);
    var t := Await(w.sys, dr.owner, r, Deleting(dr.g, e.token));
    assert CoordinatorStep(w.sys, dr.owner, Bare()) == t;
    w' := Called(w, e, t, ToVerify);
    DriveGets(w, e, true, w');
    forall role ensures Row(w', e, w'.sys.db.attempts, role, FenceMarked) {
      assert Row(w, e, w.sys.db.attempts, role, Planned);
      assert Matches(w.sys.db, KeyOf(e, role), l.op, l.fence, e.token, None, None, from);
    }
  }

  /**
    A coordinator with live authority over a generation whose three resources
    are all there and owned brings it to PHYSICALLY_DELETED if nobody
    interferes, and leaves the rest of the cluster's names alone.
   */
  lemma UndisturbedDeletionCompletes(w: World, c: OwnerId, g: GenerationId, e: Epoch) returns (w': World)
    requires Sound(w) && LocalOf(w.sys, c).Busy? && LocalOf(w.sys, c).pc == RecordPlan(g, e.token)
    requires LocalOf(w.sys, c).op == e.op && LocalOf(w.sys, c).fence == e.fence
    requires Authorized(w.sys.db, e.op, g, c, e.fence, e.token) && e !in w.drivers && Present(w.cluster.items, g)
    ensures Gets(w, w')
    ensures g in w'.sys.db.retirements && w'.sys.db.retirements[g].state == PhysicallyDeleted
    ensures w'.cluster.items.Keys == w.cluster.items.Keys - {Slot(g, Workload), Slot(g, Pvc), Slot(g, Service)}
  {
    NoRows(w, e);
    w' := AuthorisedGets(w, c, g, e);
  }

  lemma AuthorisedGets(w: World, c: OwnerId, g: GenerationId, e: Epoch) returns (w': World)
    requires LocalOf(w.sys, c).Busy? && LocalOf(w.sys, c).pc == RecordPlan(g, e.token)
    requires LocalOf(w.sys, c).op == e.op && LocalOf(w.sys, c).fence == e.fence
    requires Authorized(w.sys.db, e.op, g, c, e.fence, e.token) && e !in w.drivers && Present(w.cluster.items, g)
    requires forall role :: KeyOf(e, role) !in w.sys.db.attempts
    ensures Gets(w, w')
    ensures g in w'.sys.db.retirements && w'.sys.db.retirements[g].state == PhysicallyDeleted
    ensures w'.cluster.items.Keys == w.cluster.items.Keys - {Slot(g, Workload), Slot(g, Pvc), Slot(g, Service)}
  {
    var a := BeginGets(w, c, g, e);
    var b := MarkGets(a, e);
    Then(w, a, b);
    w' := MarkedGets(b, e);
    Then(w, b, w');
  }

  lemma NoRows(w: World, e: Epoch)
    requires CoreOf(w) && e !in w.drivers
    ensures forall role :: KeyOf(e, role) !in w.sys.db.attempts
  {
    forall key | key in w.sys.db.attempts ensures EpochOf(key) in w.drivers {
      assert RowOk(w.cluster, w.drivers, key, w.sys.db.attempts[key]);
    }
    assert forall role :: EpochOf(KeyOf(e, role)) == e;
  }

  lemma MarkedGets(w: World, e: Epoch) returns (w': World)
    requires e in w.drivers && w.drivers[e].stage == ToRecord && Empowered(w, e, RecordPlan(w.drivers[e].g, e.token))
    requires Fits(w, e, w.cluster) && MarkedBy(w.cluster.items, w.drivers[e].g, e)
    requires forall role :: KeyOf(e, role) !in w.sys.db.attempts
    ensures Gets(w, w') && w'.cluster == Emptied(w.cluster, w.drivers[e].g)
    ensures w.drivers[e].g in w'.sys.db.retirements && w'.sys.db.retirements[w.drivers[e].g].state == PhysicallyDeleted
  {
    var plan := w.drivers[e].plan;
    assert !For(plan, Workload).absent && !For(plan, Pvc).absent && !For(plan, Service).absent;
    var a := PlanGets(w, e);
    var b := FenceGets(a, e);
    Then(w, a, b);
    w' := DeletionGets(b, e);
    Then(w, b, w');
  }

  // --------------------------------------------------------- a run from the start

  /** A quiet run of the coordinators is a run of the world. */
  lemma {:induction false} Lift(w: World, actions: seq<Action>)
    requires W.Quiet(w.sys, actions)
    ensures Gets(w, w.(sys := Run(w.sys, actions)))
    decreases |actions|
  {
    if actions == [] {
      assert Play(w, []) == w;
    } else {
      var u := w.(sys := Step(w.sys, actions[0]));
      NextGets(w, Coordinate(actions[0]));
      Lift(u, actions[1..]);
      Then(w, u, w.(sys := Run(w.sys, actions)));
    }
  }

  /** From a bootstrapped source, a failed generation's resources can go all the way to PHYSICALLY_DELETED. */
  lemma DeletionHappens(start: World) returns (w: World)
    requires Genesis(start) && start.sys == Initial("gen-a", 1) && Present(start.cluster.items, "gen-b")
    ensures Gets(start, w) && "gen-b" in w.sys.db.retirements
    ensures w.sys.db.retirements["gen-b"].state == PhysicallyDeleted
  {
    var s := W.AuthorityArises();
    var actions :| W.Leads(start.sys, s, actions);
    Lift(start, actions);
    var u := start.(sys := s);
    var events :| Play(start, events) == u;
    PlayedSound(start, events);
    w := UndisturbedDeletionCompletes(u, 7, "gen-b", Epoch(2, LocalOf(s, 7).fence, 0));
    Then(start, u, w);
  }
}
