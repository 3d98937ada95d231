/** What physical deletion guarantees in every run of coordinators, drivers and cluster together. */
module ClusterDeletionSafety {
  import opened Wrappers
  import opened CoordinatorDb
  import opened CoordinatorProtocol
  import opened CoordinatorFrames
  import opened CoordinatorInvariants
  import opened CoordinatorSafety
  import opened CoordinatorTheorems
  import opened CoordinatorDeletion
  import opened ClusterDeletion

  /** `uid` was given out, and names nothing in the cluster any more. */
  ghost predicate Gone(c: Cluster, uid: nat) {
    uid < c.nextUid && forall x :: x in c.items ==> c.items[x].uid != uid
  }

  /** `uid` was given out, and names at most the item in `slot`. */
  ghost predicate Home(c: Cluster, slot: Slot, uid: nat) {
    uid < c.nextUid && forall x :: x in c.items && c.items[x].uid == uid ==> x == slot
  }

  function Rank(state: AttemptState): nat {
    match state
    case Planned => 0
    case FenceMarked => 1
    case DeleteIntent => 2
    case DeleteAccepted => 3
    case AbsentConfirmed => 4
  }

  function KeyOf(e: Epoch, role: Role): AttemptKey { AttemptKey(e.op, e.fence, e.token, role) }

  function EpochOf(key: AttemptKey): Epoch { Epoch(key.op, key.fence, key.token) }

  predicate Intended(attempts: Attempts, key: AttemptKey, uid: nat, rank: nat) {
    key in attempts && attempts[key].uid == uid && Rank(attempts[key].state) >= rank
  }

  /** The roles are deleted in order: workload, volume claim, Service. */
  predicate Earlier(r: Role, role: Role) { (r.Workload? && !role.Workload?) || (r.Pvc? && role.Service?) }

  ghost predicate EarlierGone(attempts: Attempts, e: Epoch, role: Role) {
    forall r :: Earlier(r, role) ==> KeyOf(e, r) in attempts && attempts[KeyOf(e, r)].state == AbsentConfirmed
  }

  // ----------------------------------------------------------- invariant

  predicate BeforeReread(stage: Stage) { stage.ToPatch? || stage.ToReread? }

  /** The plan is final, and may be in the journal. */
  predicate Recorded(stage: Stage) { !BeforeReread(stage) && !stage.ToRecord? }

  predicate AtRole(stage: Stage, role: Role) {
    && (stage.Turn? || stage.ToIntend? || stage.ToRemove? || stage.ToAccept? || stage.ToWait? || stage.ToConfirm?)
    && stage.role == role
  }

  predicate AfterPreflight(stage: Stage) { stage.Finished? || exists role :: AtRole(stage, role) }

  /** A journal row belongs to the one driver of its epoch and its state is true of the cluster. */
  ghost predicate RowOk(c: Cluster, drivers: map<Epoch, Driver>, key: AttemptKey, row: Attempt) {
    var e := EpochOf(key);
    && e in drivers && Recorded(drivers[e].stage)
    && row.uid == For(drivers[e].plan, key.role).uid
    && Complete(drivers[e].plan)
    && (row.state == AbsentConfirmed ==> Gone(c, row.uid))
  }

  ghost predicate RowsOk(c: Cluster, drivers: map<Epoch, Driver>, attempts: Attempts) {
    forall key :: key in attempts ==> RowOk(c, drivers, key, attempts[key])
  }

  /**
    A delete that happened was announced for that very uid, by a driver past its
    preflight, for a resource it had planned, in role order.
   */
  ghost predicate Announced(attempts: Attempts, drivers: map<Epoch, Driver>, d: Deletion) {
    && Intended(attempts, KeyOf(d.epoch, d.slot.role), d.uid, 2)
    && d.epoch in drivers && drivers[d.epoch].preflighted
    && drivers[d.epoch].g == d.slot.g && drivers[d.epoch].bornAt == d.bornAt && d.uid < d.bornAt
    && EarlierGone(attempts, d.epoch, d.slot.role)
  }

  ghost predicate AllAnnounced(attempts: Attempts, drivers: map<Epoch, Driver>, deletions: seq<Deletion>) {
    forall i :: 0 <= i < |deletions| ==> Announced(attempts, drivers, deletions[i])
  }

  /** The version the driver holds for the Service is one at which the Service carried its own marker. */
  predicate HoldsMarkedVersion(c: Cluster, e: Epoch, dr: Driver) {
    var slot := Slot(dr.g, Service);
    && dr.plan.service.version < c.nextVersion
    && (slot in c.items && c.items[slot].version == dr.plan.service.version ==> c.items[slot].marker == Some(e))
  }

  ghost predicate PlanOk(c: Cluster, dr: Driver) {
    && dr.bornAt <= c.nextUid
    && forall r :: !For(dr.plan, r).absent ==>
      For(dr.plan, r).uid < dr.bornAt && Home(c, Slot(dr.g, r), For(dr.plan, r).uid)
  }

  ghost predicate StageOk(c: Cluster, attempts: Attempts, e: Epoch, dr: Driver) {
    && (AfterPreflight(dr.stage) ==> dr.preflighted)
    && (dr.preflighted && !dr.stage.Stopped? ==> AfterPreflight(dr.stage))
    && (!BeforeReread(dr.stage) && !dr.stage.Stopped? ==> HoldsMarkedVersion(c, e, dr))
    && (forall role :: AtRole(dr.stage, role) ==> EarlierGone(attempts, e, role))
    && (Recorded(dr.stage) && !dr.stage.Stopped? ==> Complete(dr.plan))
    && (dr.stage.ToRemove? ==> Intended(attempts, KeyOf(e, dr.stage.role), For(dr.plan, dr.stage.role).uid, 2))
    && (dr.stage.ToConfirm? ==> Gone(c, For(dr.plan, dr.stage.role).uid))
  }

  ghost predicate DriversOk(c: Cluster, attempts: Attempts, drivers: map<Epoch, Driver>) {
    forall e :: e in drivers ==> PlanOk(c, drivers[e]) && StageOk(c, attempts, e, drivers[e])
  }

  /** Every driver works on the retirement row of its own operation. */
  ghost predicate Targets(rets: Rets, drivers: map<Epoch, Driver>) {
    forall e :: e in drivers ==> CleanupTarget(rets, e.op, drivers[e].g)
  }

  /** The part of the invariant that speaks of cluster, journal and drivers. */
  ghost predicate Core(c: Cluster, a: Attempts, drivers: map<Epoch, Driver>, deletions: seq<Deletion>) {
    && Numbered(c)
    && RowsOk(c, drivers, a)
    && AllAnnounced(a, drivers, deletions)
    && DriversOk(c, a, drivers)
  }

  ghost predicate CoreOf(w: World) { Core(w.cluster, w.sys.db.attempts, w.drivers, w.deletions) }

  ghost predicate Sound(w: World) {
    Inv(w.sys) && Targets(w.sys.db.retirements, w.drivers) && CoreOf(w)
  }

  // ---------------------------------------------- how the parts may move

  /** Uids and versions are never reused, and a version stands for one content. */
  ghost predicate ClusterMoves(c: Cluster, c': Cluster) {
    && c.nextUid <= c'.nextUid && c.nextVersion <= c'.nextVersion
    && forall x :: x in c'.items ==>
         || (x in c.items && c'.items[x] == c.items[x])
         || (c'.items[x].version >= c.nextVersion
             && ((x in c.items && c'.items[x].uid == c.items[x].uid) || c'.items[x].uid >= c.nextUid))
  }

  /** Rows are added and advance; their uid stays. */
  ghost predicate AttemptsMove(a: Attempts, a': Attempts) {
    forall key :: key in a ==> key in a' && a'[key].uid == a[key].uid && Rank(a'[key].state) >= Rank(a[key].state)
  }

  /** The driver of an epoch keeps its owner, generation and planned uids, and a recorded plan does not change. */
  ghost predicate SameWork(dr: Driver, dr': Driver) {
    && dr'.owner == dr.owner && dr'.g == dr.g && dr'.bornAt == dr.bornAt && (dr.preflighted ==> dr'.preflighted)
    && (forall r :: For(dr'.plan, r).uid == For(dr.plan, r).uid && For(dr'.plan, r).absent == For(dr.plan, r).absent)
    && Complete(dr'.plan) == Complete(dr.plan)
    && (Recorded(dr.stage) ==> Recorded(dr'.stage))
  }

  lemma GoneStays(c: Cluster, c': Cluster, uid: nat)
    requires ClusterMoves(c, c') && Gone(c, uid)
    ensures Gone(c', uid)
  {}

  lemma HomeStays(c: Cluster, c': Cluster, slot: Slot, uid: nat)
    requires ClusterMoves(c, c') && Home(c, slot, uid)
    ensures Home(c', slot, uid)
  {}

  lemma EarlierStays(a: Attempts, a': Attempts, e: Epoch, role: Role)
    requires AttemptsMove(a, a') && EarlierGone(a, e, role)
    ensures EarlierGone(a', e, role)
  {}

  lemma PlanStays(c: Cluster, c': Cluster, dr: Driver, dr': Driver)
    requires ClusterMoves(c, c') && PlanOk(c, dr) && SameWork(dr, dr')
    ensures PlanOk(c', dr')
  {
    forall r | !For(dr'.plan, r).absent
      ensures For(dr'.plan, r).uid < dr'.bornAt && Home(c', Slot(dr'.g, r), For(dr'.plan, r).uid)
    {
      assert !For(dr.plan, r).absent;
      HomeStays(c, c', Slot(dr.g, r), For(dr.plan, r).uid);
    }
  }

  lemma StageStays(c: Cluster, c': Cluster, a: Attempts, a': Attempts, e: Epoch, dr: Driver)
    requires ClusterMoves(c, c') && AttemptsMove(a, a') && StageOk(c, a, e, dr)
    ensures StageOk(c', a', e, dr)
  {
    if dr.stage.ToConfirm? { GoneStays(c, c', For(dr.plan, dr.stage.role).uid); }
    forall role | AtRole(dr.stage, role) ensures EarlierGone(a', e, role) { EarlierStays(a, a', e, role); }
  }

  lemma RowsStay(c: Cluster, c': Cluster, a: Attempts, drivers: map<Epoch, Driver>, e: Epoch, dr: Driver)
    requires ClusterMoves(c, c') && RowsOk(c, drivers, a)
    requires e in drivers ==> SameWork(drivers[e], dr)
    ensures RowsOk(c', drivers[e := dr], a)
  {
    forall key | key in a ensures RowOk(c', drivers[e := dr], key, a[key]) {
      assert RowOk(c, drivers, key, a[key]);
      if a[key].state == AbsentConfirmed { GoneStays(c, c', a[key].uid); }
    }
  }

  lemma AnnouncedStays(a: Attempts, a': Attempts, drivers: map<Epoch, Driver>, e: Epoch, dr: Driver,
                       deletions: seq<Deletion>)
    requires AttemptsMove(a, a') && AllAnnounced(a, drivers, deletions)
    requires e in drivers ==> SameWork(drivers[e], dr)
    ensures AllAnnounced(a', drivers[e := dr], deletions)
  {
    forall i | 0 <= i < |deletions| ensures Announced(a', drivers[e := dr], deletions[i]) {
      assert Announced(a, drivers, deletions[i]);
      EarlierStays(a, a', deletions[i].epoch, deletions[i].slot.role);
    }
  }

  lemma DriversStay(c: Cluster, c': Cluster, a: Attempts, a': Attempts, drivers: map<Epoch, Driver>, e: Epoch,
                    dr: Driver)
    requires ClusterMoves(c, c') && AttemptsMove(a, a') && DriversOk(c, a, drivers)
    requires PlanOk(c', dr) && StageOk(c', a', e, dr)
    ensures DriversOk(c', a', drivers[e := dr])
  {
    forall f | f in drivers && f != e ensures PlanOk(c', drivers[f]) && StageOk(c', a', f, drivers[f]) {
      PlanStays(c, c', drivers[f], drivers[f]);
      StageStays(c, c', a, a', f, drivers[f]);
    }
  }

  /** A step of driver `e` to `dr`, with whatever it did to cluster, journal and deletions. */
  lemma Together(c: Cluster, c': Cluster, a: Attempts, a': Attempts, drivers: map<Epoch, Driver>, e: Epoch, dr: Driver,
                 deletions: seq<Deletion>, deletions': seq<Deletion>)
    requires Core(c, a, drivers, deletions) && Numbered(c') && ClusterMoves(c, c') && AttemptsMove(a, a')
    requires e in drivers && SameWork(drivers[e], dr)
    requires RowsOk(c', drivers[e := dr], a') && StageOk(c', a', e, dr)
    requires deletions' == deletions
      || (|deletions'| == |deletions| + 1 && deletions'[..|deletions|] == deletions
          && Announced(a', drivers[e := dr], deletions'[|deletions|]))
    ensures Core(c', a', drivers[e := dr], deletions')
  {
    AnnouncedStays(a, a', drivers, e, dr, deletions);
    PlanStays(c, c', drivers[e], dr);
    DriversStay(c, c', a, a', drivers, e, dr);
    AllStay(a', drivers[e := dr], deletions, deletions');
  }

  lemma AllStay(a: Attempts, drivers: map<Epoch, Driver>, deletions: seq<Deletion>, deletions': seq<Deletion>)
    requires AllAnnounced(a, drivers, deletions)
    requires deletions' == deletions
      || (|deletions'| == |deletions| + 1 && deletions'[..|deletions|] == deletions
          && Announced(a, drivers, deletions'[|deletions|]))
    ensures AllAnnounced(a, drivers, deletions')
  {
    forall i | 0 <= i < |deletions'| ensures Announced(a, drivers, deletions'[i]) {
      if i < |deletions| { assert deletions'[i] == deletions'[..|deletions|][i]; }
    }
  }

  // ------------------------------------- steps without a database call

  /** A driver step that leaves cluster and journal alone. */
  lemma GoKeeps(w: World, e: Epoch, dr: Driver)
    requires CoreOf(w) && e in w.drivers && SameWork(w.drivers[e], dr)
    requires StageOk(w.cluster, w.sys.db.attempts, e, dr)
    ensures CoreOf(Put(w, e, dr))
  {
    RowsStay(w.cluster, w.cluster, w.sys.db.attempts, w.drivers, e, dr);
    Together(w.cluster, w.cluster, w.sys.db.attempts, w.sys.db.attempts, w.drivers, e, dr, w.deletions, w.deletions);
  }

  lemma StopKeeps(w: World, e: Epoch)
    requires CoreOf(w) && e in w.drivers
    ensures CoreOf(Stop(w, e))
  {
    GoKeeps(w, e, w.drivers[e].(stage := Stopped));
    assert Stop(w, e).sys.db == w.sys.db;
  }

  // ------------------------------------------------------ the driver's calls

  /** One attempt row moves from the state before `to`, or stays there. */
  predicate Advances(a: Attempts, a': Attempts, key: AttemptKey, uid: nat, to: AttemptState) {
    && key in a && a[key].uid == uid && (a[key].state == to || Rank(a[key].state) + 1 == Rank(to))
    && a' == a[key := a[key].(state := to)]
  }

  lemma SetOne(db: Db, id: OperationId, owner: OwnerId, fence: nat, token: Token, role: Role, uid: nat,
               from: set<AttemptState>, to: AttemptState)
    requires to in {DeleteIntent, DeleteAccepted, AbsentConfirmed}
    requires forall state :: state in from ==> state == to || Rank(state) + 1 == Rank(to)
    ensures var r := SetAttemptState(db, id, owner, fence, token, Some(role), Some(uid), from, to);
      r.Committed? ==> Advances(db.attempts, r.state.attempts, AttemptKey(id, fence, token, role), uid, to)
  {
    var r := SetAttemptState(db, id, owner, fence, token, Some(role), Some(uid), from, to);
    if r.Committed? {
      var key := AttemptKey(id, fence, token, role);
      assert forall k :: k in db.attempts && Matches(db, k, id, fence, token, Some(role), Some(uid), from) ==> k == key;
      assert r.state.attempts == db.attempts[key := db.attempts[key].(state := to)];
    }
  }

  lemma RecordCall(s: System, c: OwnerId, l: Local, role: Role, uid: nat, to: AttemptState)
    requires LocalOf(s, c) == l && l.Busy? && l.pc.Deleting?
    requires to in {DeleteIntent, DeleteAccepted, AbsentConfirmed}
    ensures var t := StepDeleting(s, c, l, RecordChoice(role, uid, to));
      if LocalOf(t, c).Busy? then
        Advances(s.db.attempts, t.db.attempts, AttemptKey(l.op, l.fence, l.pc.token, role), uid, to)
      else t.db.attempts == s.db.attempts
  {
    var from := if to == DeleteIntent then {FenceMarked, DeleteIntent}
      else if to == DeleteAccepted then {DeleteIntent, DeleteAccepted} else {DeleteAccepted, AbsentConfirmed};
    var r := SetAttemptState(s.db, l.op, c, l.fence, l.pc.token, Some(role), Some(uid), from, to);
    SetOne(s.db, l.op, c, l.fence, l.pc.token, role, uid, from, to);
    assert StepDeleting(s, c, l, RecordChoice(role, uid, to)) == Await(s, c, r, l.pc);
    AwaitFrame(s, c, l, r, l.pc);
  }

  lemma AdvanceMoves(a: Attempts, a': Attempts, key: AttemptKey, uid: nat, to: AttemptState)
    requires Advances(a, a', key, uid, to)
    ensures AttemptsMove(a, a') && Intended(a', key, uid, Rank(to))
  {}

  lemma AdvanceRows(c: Cluster, drivers: map<Epoch, Driver>, a: Attempts, a': Attempts, key: AttemptKey, uid: nat,
                    to: AttemptState)
    requires RowsOk(c, drivers, a) && Advances(a, a', key, uid, to)
    requires to in {DeleteIntent, DeleteAccepted, AbsentConfirmed}
    requires to == AbsentConfirmed ==> Gone(c, uid)
    ensures RowsOk(c, drivers, a')
  {
    forall k | k in a' ensures RowOk(c, drivers, k, a'[k]) {
      assert RowOk(c, drivers, k, a[k]);
    }
  }

  /** Where an advanced row leads the driver. */
  function AfterRecord(role: Role, to: AttemptState): Stage {
    match to case DeleteIntent => ToRemove(role) case DeleteAccepted => ToWait(role) case _ => After(role)
  }

  lemma RecordStage(c: Cluster, a: Attempts, a': Attempts, e: Epoch, dr: Driver, role: Role, to: AttemptState)
    requires StageOk(c, a, e, dr) && AtRole(dr.stage, role)
    requires Advances(a, a', KeyOf(e, role), For(dr.plan, role).uid, to)
    requires to in {DeleteIntent, DeleteAccepted, AbsentConfirmed}
    ensures StageOk(c, a', e, dr.(stage := AfterRecord(role, to)))
  {
    AdvanceMoves(a, a', KeyOf(e, role), For(dr.plan, role).uid, to);
    EarlierStays(a, a', e, role);
    var stage := AfterRecord(role, to);
    forall r | AtRole(stage, r) ensures EarlierGone(a', e, r) {
      if to == AbsentConfirmed { NextRole(a', e, role, r); }
    }
    assert HoldsMarkedVersion(c, e, dr);
    assert stage.Finished? || AtRole(stage, stage.role);
  }

  /** Confirming one role completes what the next role waits for. */
  lemma NextRole(a: Attempts, e: Epoch, role: Role, next: Role)
    requires EarlierGone(a, e, role) && KeyOf(e, role) in a && a[KeyOf(e, role)].state == AbsentConfirmed
    requires After(role) == Turn(next)
    ensures EarlierGone(a, e, next)
  {
    forall r | Earlier(r, next) ensures KeyOf(e, r) in a && a[KeyOf(e, r)].state == AbsentConfirmed {
      assert r == role || Earlier(r, role);
    }
  }

  /** A call that raised stops the driver and changed no row. */
  lemma FailedCallKeeps(w: World, e: Epoch, t: System, next: Stage)
    requires CoreOf(w) && e in w.drivers && t.db.attempts == w.sys.db.attempts && LocalOf(t, w.drivers[e].owner).Idle?
    ensures CoreOf(Called(w, e, t, next))
  {
    GoKeeps(w, e, w.drivers[e].(stage := Stopped));
  }

  /** A call that committed took the driver on. */
  lemma CommittedCallKeeps(w: World, e: Epoch, t: System, next: Stage)
    requires CoreOf(w) && e in w.drivers && LocalOf(t, w.drivers[e].owner).Busy?
    requires SameWork(w.drivers[e], w.drivers[e].(stage := next)) && AttemptsMove(w.sys.db.attempts, t.db.attempts)
    requires RowsOk(w.cluster, w.drivers[e := w.drivers[e].(stage := next)], t.db.attempts)
    requires StageOk(w.cluster, t.db.attempts, e, w.drivers[e].(stage := next))
    ensures CoreOf(Called(w, e, t, next))
  {
    Together(w.cluster, w.cluster, w.sys.db.attempts, t.db.attempts, w.drivers, e, w.drivers[e].(stage := next),
             w.deletions, w.deletions);
  }

  lemma AdvancedKeeps(w: World, e: Epoch, role: Role, to: AttemptState, t: System)
    requires CoreOf(w) && e in w.drivers && AtRole(w.drivers[e].stage, role)
    requires to in {DeleteIntent, DeleteAccepted, AbsentConfirmed}
    requires to == AbsentConfirmed ==> w.drivers[e].stage == ToConfirm(role)
    requires LocalOf(t, w.drivers[e].owner).Busy?
    requires Advances(w.sys.db.attempts, t.db.attempts, KeyOf(e, role), For(w.drivers[e].plan, role).uid, to)
    ensures CoreOf(Called(w, e, t, AfterRecord(role, to)))
  {
    var dr := w.drivers[e];
    var next := AfterRecord(role, to);
    AdvanceMoves(w.sys.db.attempts, t.db.attempts, KeyOf(e, role), For(dr.plan, role).uid, to);
    AdvanceRows(w.cluster, w.drivers, w.sys.db.attempts, t.db.attempts, KeyOf(e, role), For(dr.plan, role).uid, to);
    RowsStay(w.cluster, w.cluster, t.db.attempts, w.drivers, e, dr.(stage := next));
    RecordStage(w.cluster, w.sys.db.attempts, t.db.attempts, e, dr, role, to);
    CommittedCallKeeps(w, e, t, next);
  }

  lemma RecordKeeps(w: World, e: Epoch, role: Role, to: AttemptState)
    requires CoreOf(w) && e in w.drivers && Attached(w.sys, e, w.drivers[e]) && AtRole(w.drivers[e].stage, role)
    requires to in {DeleteIntent, DeleteAccepted, AbsentConfirmed}
    requires to == AbsentConfirmed ==> w.drivers[e].stage == ToConfirm(role)
    ensures CoreOf(Call(w, e, RecordChoice(role, For(w.drivers[e].plan, role).uid, to), AfterRecord(role, to)))
  {
    var dr := w.drivers[e];
    var ch := RecordChoice(role, For(dr.plan, role).uid, to);
    var l := LocalOf(w.sys, dr.owner);
    var t := StepDeleting(w.sys, dr.owner, l, ch);
    RecordCall(w.sys, dr.owner, l, role, For(dr.plan, role).uid, to);
    assert CoordinatorStep(w.sys, dr.owner, ch) == t;
    RecordedKeeps(w, e, role, to, t);
  }

  lemma RecordedKeeps(w: World, e: Epoch, role: Role, to: AttemptState, t: System)
    requires CoreOf(w) && e in w.drivers && AtRole(w.drivers[e].stage, role)
    requires to in {DeleteIntent, DeleteAccepted, AbsentConfirmed}
    requires to == AbsentConfirmed ==> w.drivers[e].stage == ToConfirm(role)
    requires if LocalOf(t, w.drivers[e].owner).Busy?
      then Advances(w.sys.db.attempts, t.db.attempts, KeyOf(e, role), For(w.drivers[e].plan, role).uid, to)
      else t.db.attempts == w.sys.db.attempts
    ensures CoreOf(Called(w, e, t, AfterRecord(role, to)))
  {
    if LocalOf(t, w.drivers[e].owner).Idle? { FailedCallKeeps(w, e, t, AfterRecord(role, to)); }
    else { AdvancedKeeps(w, e, role, to, t); }
  }

  /** The rows a plan adds to the journal. */
  predicate PlanAdded(a: Attempts, a': Attempts, e: Epoch, plan: DeletePlan) {
    && (forall key :: key in a ==> key in a' && a'[key] == a[key])
    && (forall key :: key in a' && key !in a ==>
          EpochOf(key) == e && a'[key].uid == For(plan, key.role).uid && a'[key].state == Planned)
  }

  lemma PlanCall(s: System, c: OwnerId, l: Local, plan: DeletePlan)
    requires LocalOf(s, c) == l && l.Busy? && l.pc.RecordPlan?
    ensures var t := CoordinatorStep(s, c, PlanChoice(plan));
      if LocalOf(t, c).Busy? then PlanAdded(s.db.attempts, t.db.attempts, Epoch(l.op, l.fence, l.pc.token), plan)
      else t.db.attempts == s.db.attempts
  {
    var r := RecordDeletionPlan(s.db, l.op, l.pc.g, c, l.fence, l.pc.token, PlanChoice(plan).plan);
    AwaitFrame(s, c, l, r, CoordinatorProtocol.MarkFence(l.pc.g, l.pc.token));
  }

  lemma PlanRows(c: Cluster, drivers: map<Epoch, Driver>, a: Attempts, a': Attempts, e: Epoch, dr: Driver)
    requires RowsOk(c, drivers, a) && e in drivers && PlanAdded(a, a', e, drivers[e].plan) && Complete(drivers[e].plan)
    requires dr == drivers[e].(stage := ToFence)
    ensures RowsOk(c, drivers[e := dr], a')
  {
    forall key | key in a' ensures RowOk(c, drivers[e := dr], key, a'[key]) {
      if key in a { assert RowOk(c, drivers, key, a[key]); }
    }
  }

  lemma PlannedKeeps(w: World, e: Epoch, t: System)
    requires CoreOf(w) && e in w.drivers && w.drivers[e].stage.ToRecord? && LocalOf(t, w.drivers[e].owner).Busy?
    requires PlanAdded(w.sys.db.attempts, t.db.attempts, e, w.drivers[e].plan) && Complete(w.drivers[e].plan)
    ensures CoreOf(Called(w, e, t, ToFence))
  {
    PlanRows(w.cluster, w.drivers, w.sys.db.attempts, t.db.attempts, e, w.drivers[e].(stage := ToFence));
    assert HoldsMarkedVersion(w.cluster, e, w.drivers[e]);
    CommittedCallKeeps(w, e, t, ToFence);
  }

  lemma PlanKeeps(w: World, e: Epoch)
    requires CoreOf(w) && e in w.drivers && Attached(w.sys, e, w.drivers[e]) && w.drivers[e].stage.ToRecord?
    requires Complete(w.drivers[e].plan)
    ensures CoreOf(Call(w, e, PlanChoice(w.drivers[e].plan), ToFence))
  {
    var dr := w.drivers[e];
    var t := CoordinatorStep(w.sys, dr.owner, PlanChoice(dr.plan));
    PlanCall(w.sys, dr.owner, LocalOf(w.sys, dr.owner), dr.plan);
    if LocalOf(t, dr.owner).Idle? { FailedCallKeeps(w, e, t, ToFence); } else { PlannedKeeps(w, e, t); }
  }

  /** Rows that were planned are now marked. */
  predicate Marked(a: Attempts, a': Attempts) {
    && a'.Keys == a.Keys
    && forall key :: key in a ==>
      a'[key] == a[key] || (Rank(a[key].state) <= 1 && a'[key] == a[key].(state := FenceMarked))
  }

  lemma SetMarks(db: Db, id: OperationId, owner: OwnerId, fence: nat, token: Token)
    ensures var r := SetAttemptState(db, id, owner, fence, token, None, None, {Planned, FenceMarked}, FenceMarked);
      r.Committed? ==> Marked(db.attempts, r.state.attempts)
  {}

  lemma FenceCall(s: System, c: OwnerId, l: Local)
    requires LocalOf(s, c) == l && l.Busy? && l.pc.MarkFence?
    ensures var t := CoordinatorStep(s, c, Bare());
      if LocalOf(t, c).Busy? then Marked(s.db.attempts, t.db.attempts) else t.db.attempts == s.db.attempts
  {
    var r := SetAttemptState(s.db, l.op, c, l.fence, l.pc.token, None, None, {Planned, FenceMarked}, FenceMarked);
    SetMarks(s.db, l.op, c, l.fence, l.pc.token);
    AwaitFrame(s, c, l, r, Deleting(l.pc.g, l.pc.token));
  }

  lemma MarkedMoves(c: Cluster, drivers: map<Epoch, Driver>, a: Attempts, a': Attempts)
    requires RowsOk(c, drivers, a) && Marked(a, a')
    ensures AttemptsMove(a, a') && RowsOk(c, drivers, a')
  {
    forall key | key in a' ensures RowOk(c, drivers, key, a'[key]) { assert RowOk(c, drivers, key, a[key]); }
  }

  lemma FencedKeeps(w: World, e: Epoch, t: System)
    requires CoreOf(w) && e in w.drivers && w.drivers[e].stage.ToFence? && LocalOf(t, w.drivers[e].owner).Busy?
    requires Marked(w.sys.db.attempts, t.db.attempts)
    ensures CoreOf(Called(w, e, t, ToVerify))
  {
    MarkedMoves(w.cluster, w.drivers, w.sys.db.attempts, t.db.attempts);
    RowsStay(w.cluster, w.cluster, t.db.attempts, w.drivers, e, w.drivers[e].(stage := ToVerify));
    assert HoldsMarkedVersion(w.cluster, e, w.drivers[e]);
    CommittedCallKeeps(w, e, t, ToVerify);
  }

  lemma FenceKeeps(w: World, e: Epoch)
    requires CoreOf(w) && e in w.drivers && Attached(w.sys, e, w.drivers[e]) && w.drivers[e].stage.ToFence?
    ensures CoreOf(Call(w, e, Bare(), ToVerify))
  {
    var t := CoordinatorStep(w.sys, w.drivers[e].owner, Bare());
    FenceCall(w.sys, w.drivers[e].owner, LocalOf(w.sys, w.drivers[e].owner));
    if LocalOf(t, w.drivers[e].owner).Idle? { FailedCallKeeps(w, e, t, ToVerify); } else { FencedKeeps(w, e, t); }
  }

  lemma FinishedKeeps(w: World, e: Epoch, t: System)
    requires CoreOf(w) && e in w.drivers && w.drivers[e].stage.Finished? && t.db.attempts == w.sys.db.attempts
    ensures CoreOf(Called(w, e, t, Finished))
  {
    GoKeeps(w, e, w.drivers[e].(stage := if LocalOf(t, w.drivers[e].owner).Busy? then Finished else Stopped));
  }

  lemma FinishKeeps(w: World, e: Epoch)
    requires CoreOf(w) && e in w.drivers && Attached(w.sys, e, w.drivers[e]) && w.drivers[e].stage.Finished?
    ensures CoreOf(Call(w, e, Bare(), Finished))
  {
    var c := w.drivers[e].owner;
    DeletingFrame(w.sys, c, LocalOf(w.sys, c), Bare());
    FinishedKeeps(w, e, StepDeleting(w.sys, c, LocalOf(w.sys, c), Bare()));
    assert CoordinatorStep(w.sys, c, Bare()) == StepDeleting(w.sys, c, LocalOf(w.sys, c), Bare());
  }

  // ---------------------------------------------------- the cluster's part

  lemma PatchMoves(c: Cluster, slot: Slot, item: Item)
    requires Numbered(c) && slot in c.items && item.uid == c.items[slot].uid && item.version == c.nextVersion
    ensures var c' := c.(items := c.items[slot := item], nextVersion := c.nextVersion + 1);
      ClusterMoves(c, c') && Numbered(c')
  {}

  lemma DeleteMoves(c: Cluster, slot: Slot, uid: nat, version: nat, atOnce: bool)
    requires Numbered(c) && DeleteItem(c, slot, uid, version, atOnce).Some?
    ensures ClusterMoves(c, DeleteItem(c, slot, uid, version, atOnce).value)
    ensures Numbered(DeleteItem(c, slot, uid, version, atOnce).value)
  {
    if !atOnce { PatchMoves(c, slot, c.items[slot].(terminating := true, version := c.nextVersion)); }
  }

  lemma PatchKeeps(w: World, e: Epoch)
    requires CoreOf(w) && e in w.drivers && w.drivers[e].stage.ToPatch?
    ensures CoreOf(StepMark(w, e))
  {
    var dr, c := w.drivers[e], w.cluster;
    var slot := Slot(dr.g, Service);
    if dr.plan.service.absent || !SameResource(c.items, slot, dr.plan.service) { StopKeeps(w, e); }
    else if c.items[slot].marker == Some(e) { GoKeeps(w, e, dr.(stage := ToRecord)); }
    else {
      PatchMoves(c, slot, c.items[slot].(marker := Some(e), version := c.nextVersion));
      RowsStay(c, StepMark(w, e).cluster, w.sys.db.attempts, w.drivers, e, dr.(stage := ToReread));
      Together(c, StepMark(w, e).cluster, w.sys.db.attempts, w.sys.db.attempts, w.drivers, e, dr.(stage := ToReread),
               w.deletions, w.deletions);
    }
  }

  lemma RereadKeeps(w: World, e: Epoch)
    requires CoreOf(w) && e in w.drivers && w.drivers[e].stage.ToReread?
    ensures CoreOf(StepMark(w, e))
  {
    var dr, c := w.drivers[e], w.cluster;
    if !MarkedBy(c.items, dr.g, e) { StopKeeps(w, e); }
    else {
      var slot := Slot(dr.g, Service);
      var marked := dr.plan.service.(version := c.items[slot].version);
      var dr' := dr.(plan := dr.plan.(service := marked), stage := ToRecord);
      GoKeeps(w, e, dr');
    }
  }

  lemma CheckKeeps(w: World, e: Epoch)
    requires CoreOf(w) && e in w.drivers && w.drivers[e].stage.ToCheck?
    ensures CoreOf(StepCheck(w, e))
  {
    var dr := w.drivers[e];
    var role := dr.stage.role;
    assert HoldsMarkedVersion(w.cluster, e, dr);
    if !For(dr.plan, role).absent && !SameResource(w.cluster.items, Slot(dr.g, role), For(dr.plan, role)) {
      StopKeeps(w, e);
    }
    else {
      assert role == Service ==> AtRole(Turn(Workload), Workload) && EarlierGone(w.sys.db.attempts, e, Workload);
      GoKeeps(w, e, StepCheck(w, e).drivers[e]);
    }
  }

  lemma VerifyKeeps(w: World, e: Epoch)
    requires CoreOf(w) && e in w.drivers && w.drivers[e].stage.ToVerify?
    ensures CoreOf(StepVerify(w, e))
  {
    if StepVerify(w, e) == Stop(w, e) { StopKeeps(w, e); }
    else { GoKeeps(w, e, w.drivers[e].(stage := ToCheck(Workload))); }
  }

  lemma TurnKeeps(w: World, e: Epoch, role: Role)
    requires CoreOf(w) && e in w.drivers && w.drivers[e].stage == Turn(role)
    ensures CoreOf(StepTurn(w, e, role))
  {
    assert AtRole(w.drivers[e].stage, role) && EarlierGone(w.sys.db.attempts, e, role);
    if StepTurn(w, e, role) == Stop(w, e) { StopKeeps(w, e); }
    else {
      var stage := StepTurn(w, e, role).drivers[e].stage;
      assert AtRole(stage, role);
      GoKeeps(w, e, w.drivers[e].(stage := stage));
    }
  }

  lemma WaitKeeps(w: World, e: Epoch, role: Role, giveUp: bool)
    requires CoreOf(w) && e in w.drivers && w.drivers[e].stage == ToWait(role)
    ensures CoreOf(StepWait(w, e, role, giveUp))
  {
    var dr := w.drivers[e];
    var slot := Slot(dr.g, role);
    assert AtRole(dr.stage, role) && EarlierGone(w.sys.db.attempts, e, role);
    if slot !in w.cluster.items || w.cluster.items[slot].uid != For(dr.plan, role).uid {
      assert Home(w.cluster, slot, For(dr.plan, role).uid);
      assert AtRole(ToConfirm(role), role);
      GoKeeps(w, e, dr.(stage := ToConfirm(role)));
    } else if giveUp {
      StopKeeps(w, e);
    }
  }

  lemma RemoveStage(c: Cluster, c': Cluster, a: Attempts, e: Epoch, dr: Driver, role: Role)
    requires ClusterMoves(c, c') && StageOk(c, a, e, dr) && dr.stage == ToRemove(role)
    ensures StageOk(c', a, e, dr.(stage := ToAccept(role)))
  {
    assert AtRole(dr.stage, role);
    StageStays(c, c', a, a, e, dr);
    assert AtRole(ToAccept(role), role);
  }

  lemma RemoveKeeps(w: World, e: Epoch, role: Role, atOnce: bool)
    requires CoreOf(w) && e in w.drivers && w.drivers[e].stage == ToRemove(role)
    ensures CoreOf(StepRemove(w, e, role, atOnce))
  {
    var dr := w.drivers[e];
    var slot, r := Slot(dr.g, role), For(dr.plan, role);
    if DeleteItem(w.cluster, slot, r.uid, r.version, atOnce).None? {
      StopKeeps(w, e);
    } else {
      var w' := StepRemove(w, e, role, atOnce);
      var dr' := dr.(stage := ToAccept(role));
      DeleteMoves(w.cluster, slot, r.uid, r.version, atOnce);
      RowsStay(w.cluster, w'.cluster, w.sys.db.attempts, w.drivers, e, dr');
      RemoveStage(w.cluster, w'.cluster, w.sys.db.attempts, e, dr, role);
      RemoveAnnounced(w, e, role, w'.drivers);
      assert w'.deletions[..|w.deletions|] == w.deletions;
      Together(w.cluster, w'.cluster, w.sys.db.attempts, w.sys.db.attempts, w.drivers, e, dr', w.deletions,
               w'.deletions);
    }
  }

  lemma RemoveAnnounced(w: World, e: Epoch, role: Role, drivers': map<Epoch, Driver>)
    requires CoreOf(w) && e in w.drivers && w.drivers[e].stage == ToRemove(role)
    requires drivers' == w.drivers[e := w.drivers[e].(stage := ToAccept(role))]
    ensures Announced(w.sys.db.attempts, drivers',
                      Deletion(e, Slot(w.drivers[e].g, role), For(w.drivers[e].plan, role).uid, w.drivers[e].bornAt))
  {
    assert AtRole(w.drivers[e].stage, role);
  }

  // ----------------------------------------------------------- every event

  predicate InPreflight(stage: Stage) { !Recorded(stage) || stage.ToFence? || stage.ToVerify? || stage.ToCheck? }

  /** The steps before the first delete. */
  lemma PrepareKeeps(w: World, e: Epoch, flag: bool)
    requires CoreOf(w) && e in w.drivers && Attached(w.sys, e, w.drivers[e])
    requires InPreflight(w.drivers[e].stage)
    ensures CoreOf(StepDriver(w, e, flag))
  {
    match w.drivers[e].stage
    case ToPatch => PatchKeeps(w, e);
    case ToReread => RereadKeeps(w, e);
    case ToRecord => if Complete(w.drivers[e].plan) { PlanKeeps(w, e); } else { StopKeeps(w, e); }
    case ToFence => FenceKeeps(w, e);
    case ToVerify => VerifyKeeps(w, e);
    case ToCheck(_) => CheckKeeps(w, e);
  }

  predicate Records(stage: Stage) { stage.ToIntend? || stage.ToAccept? || stage.ToConfirm? }

  function RecordOf(stage: Stage): AttemptState {
    if stage.ToIntend? then DeleteIntent else if stage.ToAccept? then DeleteAccepted else AbsentConfirmed
  }

  lemma RecordIs(w: World, e: Epoch, role: Role, flag: bool)
    requires e in w.drivers && AtRole(w.drivers[e].stage, role) && Records(w.drivers[e].stage)
    ensures var to := RecordOf(w.drivers[e].stage);
      StepDriver(w, e, flag) == Call(w, e, RecordChoice(role, For(w.drivers[e].plan, role).uid, to),
                                     AfterRecord(role, to))
  {}

  /** The journal records of one resource's deletion. */
  lemma RecordsKeep(w: World, e: Epoch, role: Role, flag: bool)
    requires CoreOf(w) && e in w.drivers && Attached(w.sys, e, w.drivers[e])
    requires AtRole(w.drivers[e].stage, role) && Records(w.drivers[e].stage)
    ensures CoreOf(StepDriver(w, e, flag))
  {
    RecordIs(w, e, role, flag);
    RecordKeeps(w, e, role, RecordOf(w.drivers[e].stage));
  }

  /** Its other steps. */
  lemma RoleKeeps(w: World, e: Epoch, role: Role, flag: bool)
    requires CoreOf(w) && e in w.drivers && AtRole(w.drivers[e].stage, role) && !Records(w.drivers[e].stage)
    ensures CoreOf(StepDriver(w, e, flag))
  {
    match w.drivers[e].stage
    case Turn(_) => TurnKeeps(w, e, role);
    case ToRemove(_) => RemoveKeeps(w, e, role, flag);
    case ToWait(_) => WaitKeeps(w, e, role, flag);
  }

  lemma DriveKeeps(w: World, e: Epoch, flag: bool)
    requires CoreOf(w) && e in w.drivers && Attached(w.sys, e, w.drivers[e])
    ensures CoreOf(StepDriver(w, e, flag))
  {
    var stage := w.drivers[e].stage;
    if InPreflight(stage) { PrepareKeeps(w, e, flag); }
    else if stage.Finished? { FinishKeeps(w, e); }
    else if Records(stage) { RecordsKeep(w, e, stage.role, flag); }
    else if !stage.Stopped? { RoleKeeps(w, e, stage.role, flag); }
  }

  lemma ClusterKeeps(w: World, c': Cluster)
    requires CoreOf(w) && ClusterMoves(w.cluster, c') && Numbered(c')
    ensures CoreOf(w.(cluster := c'))
  {
    var a := w.sys.db.attempts;
    forall key | key in a ensures RowOk(c', w.drivers, key, a[key]) {
      assert RowOk(w.cluster, w.drivers, key, a[key]);
      if a[key].state == AbsentConfirmed { GoneStays(w.cluster, c', a[key].uid); }
    }
    forall e | e in w.drivers ensures PlanOk(c', w.drivers[e]) && StageOk(c', a, e, w.drivers[e]) {
      PlanStays(w.cluster, c', w.drivers[e], w.drivers[e]);
      StageStays(w.cluster, c', a, a, e, w.drivers[e]);
    }
  }

  lemma PlannedHome(c: Cluster, evidence: map<Role, nat>, slot: Slot)
    requires Numbered(c)
    ensures var r := PlanResource(c.items, evidence, slot);
      r.Some? && !r.value.absent ==> r.value.uid < c.nextUid && Home(c, slot, r.value.uid)
  {}

  lemma NewPlanOk(c: Cluster, evidence: map<Role, nat>, owner: OwnerId, g: GenerationId)
    requires Numbered(c) && PlanAll(c.items, evidence, g).Some?
    ensures PlanOk(c, Driver(owner, g, PlanAll(c.items, evidence, g).value, c.nextUid, false, ToPatch))
  {
    PlannedHome(c, evidence, Slot(g, Workload));
    PlannedHome(c, evidence, Slot(g, Pvc));
    PlannedHome(c, evidence, Slot(g, Service));
  }

  lemma NewDriver(w: World, e: Epoch, dr: Driver)
    requires CoreOf(w) && e !in w.drivers && PlanOk(w.cluster, dr) && dr.stage == ToPatch && !dr.preflighted
    ensures CoreOf(Put(w, e, dr))
  {
    RowsStay(w.cluster, w.cluster, w.sys.db.attempts, w.drivers, e, dr);
    AnnouncedStays(w.sys.db.attempts, w.sys.db.attempts, w.drivers, e, dr, w.deletions);
    DriversStay(w.cluster, w.cluster, w.sys.db.attempts, w.sys.db.attempts, w.drivers, e, dr);
  }

  lemma BeginKeeps(w: World, c: OwnerId, evidence: map<Role, nat>)
    requires CoreOf(w)
    ensures CoreOf(StepBegin(w, c, evidence))
  {
    var l := LocalOf(w.sys, c);
    if l.Busy? && l.pc.RecordPlan? && Epoch(l.op, l.fence, l.pc.token) !in w.drivers
      && PlanAll(w.cluster.items, evidence, l.pc.g).Some? {
      NewPlanOk(w.cluster, evidence, c, l.pc.g);
      NewDriver(w, Epoch(l.op, l.fence, l.pc.token),
                Driver(c, l.pc.g, PlanAll(w.cluster.items, evidence, l.pc.g).value, w.cluster.nextUid, false, ToPatch));
    }
  }

  lemma OutsideMoves(c: Cluster, slot: Slot, owned: bool)
    requires Numbered(c)
    ensures var c' := c.(items := c.items - {slot}); ClusterMoves(c, c') && Numbered(c')
    ensures slot !in c.items ==>
      (var c' := Cluster(c.items[slot := Item(c.nextUid, c.nextVersion, owned, None, false)], c.nextUid + 1,
                         c.nextVersion + 1);
       ClusterMoves(c, c') && Numbered(c'))
  {}

  lemma CoordinateAttempts(s: System, a: Action)
    requires !DriverCall(s, a)
    ensures Step(s, a).db.attempts == s.db.attempts
  {
    if a.Proceed? && LocalOf(s, a.c).Busy? { CallFrame(s, a.c, LocalOf(s, a.c), a.choice); }
  }

  lemma EventCore(w: World, ev: Event)
    requires CoreOf(w)
    ensures CoreOf(Next(w, ev))
  {
    match ev
    case Coordinate(a) => if !DriverCall(w.sys, a) { CoordinateAttempts(w.sys, a); }
    case Begin(c, evidence) => BeginKeeps(w, c, evidence);
    case Drive(e, flag) => if e in w.drivers && Attached(w.sys, e, w.drivers[e]) { DriveKeeps(w, e, flag); }
    case Vanish(slot) => OutsideMoves(w.cluster, slot, true); ClusterKeeps(w, Next(w, ev).cluster);
    case Create(slot, owned) =>
      if slot !in w.cluster.items { OutsideMoves(w.cluster, slot, owned); ClusterKeeps(w, Next(w, ev).cluster); }
    case Touch(slot) =>
      if slot in w.cluster.items {
        PatchMoves(w.cluster, slot, w.cluster.items[slot].(version := w.cluster.nextVersion));
        ClusterKeeps(w, Next(w, ev).cluster);
      }
  }

  // ------------------------------------------------ the coordinators' part

  /** Every event is at most one step of the coordinators: whatever holds of their runs holds here. */
  lemma NextSys(w: World, ev: Event) returns (actions: seq<Action>)
    ensures Next(w, ev).sys == Run(w.sys, actions) && |actions| <= 1
  {
    var w' := Next(w, ev);
    actions := [];
    if ev.Coordinate? && !DriverCall(w.sys, ev.a) {
      actions := [ev.a];
      OneStep(w.sys, ev.a);
    } else if ev.Begin? && w'.sys != w.sys {
      actions := [Crashed(ev.c)];
      OneStep(w.sys, Crashed(ev.c));
    } else if ev.Drive? && ev.e in w.drivers && w'.sys != w.sys {
      var a := DriveSys(w, ev.e, ev.flag);
      actions := [a];
      OneStep(w.sys, a);
    }
  }

  lemma OneStep(s: System, a: Action)
    ensures Run(s, [a]) == Step(s, a)
  {
    assert Run(Step(s, a), [a][1..]) == Step(s, a);
  }

  /** What a driver step does to the coordinators: nothing, a call of its owner, or an error of its owner. */
  lemma DriveSys(w: World, e: Epoch, flag: bool) returns (a: Action)
    requires e in w.drivers && StepDriver(w, e, flag).sys != w.sys
    ensures StepDriver(w, e, flag).sys == Step(w.sys, a)
  {
    var sys, c := StepDriver(w, e, flag).sys, w.drivers[e].owner;
    if sys == Fail(w.sys, c) { a := Crashed(c); } else { a := Proceed(c, CallOf(w.drivers[e])); }
  }

  function CallOf(dr: Driver): Choice {
    match dr.stage
    case ToRecord => PlanChoice(dr.plan)
    case ToIntend(role) => RecordChoice(role, For(dr.plan, role).uid, DeleteIntent)
    case ToAccept(role) => RecordChoice(role, For(dr.plan, role).uid, DeleteAccepted)
    case ToConfirm(role) => RecordChoice(role, For(dr.plan, role).uid, AbsentConfirmed)
    case _ => Bare()
  }

  lemma EventTargets(w: World, ev: Event)
    requires Inv(w.sys) && Targets(w.sys.db.retirements, w.drivers)
    ensures Inv(Next(w, ev).sys) && Targets(Next(w, ev).sys.db.retirements, Next(w, ev).drivers)
  {
    var w' := Next(w, ev);
    var actions := NextSys(w, ev);
    KeepsRun(w.sys, actions);
    forall e | e in w'.drivers ensures CleanupTarget(w'.sys.db.retirements, e.op, w'.drivers[e].g) {
      if e in w.drivers {
        SameTarget(w, ev, e);
        RunKeepsTarget(w.sys, actions, e.op, w.drivers[e].g);
      } else {
        NewTarget(w, ev, e);
      }
    }
  }

  lemma SameTarget(w: World, ev: Event, e: Epoch)
    requires e in w.drivers
    ensures e in Next(w, ev).drivers && Next(w, ev).drivers[e].g == w.drivers[e].g
  {
    if ev.Drive? && ev.e in w.drivers { DriveShape(w, ev.e, ev.flag); }
  }

  /**
    A driver's step moves that driver only; once its marker is read back its
    plan is fixed, and once stopped it stays so.
   */
  ghost predicate OneDriver(w: World, w': World, e: Epoch) {
    && e in w.drivers && e in w'.drivers && w'.drivers == w.drivers[e := w'.drivers[e]]
    && w'.drivers[e].g == w.drivers[e].g
    && (!BeforeReread(w.drivers[e].stage) ==>
        !BeforeReread(w'.drivers[e].stage) && w'.drivers[e].plan == w.drivers[e].plan)
    && (w.drivers[e].stage.Stopped? ==> w'.drivers[e].stage.Stopped?)
  }

  lemma MarkShape(w: World, e: Epoch)
    requires e in w.drivers && BeforeReread(w.drivers[e].stage)
    ensures OneDriver(w, StepMark(w, e), e)
  {}

  lemma CalledShape(w: World, e: Epoch, t: System, next: Stage)
    requires e in w.drivers && !BeforeReread(next) && !w.drivers[e].stage.Stopped?
    ensures OneDriver(w, Called(w, e, t, next), e)
  {}

  lemma PreflightShape(w: World, e: Epoch)
    requires e in w.drivers
    ensures w.drivers[e].stage.ToVerify? ==> OneDriver(w, StepVerify(w, e), e)
    ensures w.drivers[e].stage.ToCheck? ==> OneDriver(w, StepCheck(w, e), e)
  {}

  lemma RoleShape(w: World, e: Epoch, role: Role, flag: bool)
    requires e in w.drivers
    ensures w.drivers[e].stage == Turn(role) ==> OneDriver(w, StepTurn(w, e, role), e)
    ensures w.drivers[e].stage == ToRemove(role) ==> OneDriver(w, StepRemove(w, e, role, flag), e)
    ensures w.drivers[e].stage == ToWait(role) ==> OneDriver(w, StepWait(w, e, role, flag), e)
  {}

  lemma DriveShape(w: World, e: Epoch, flag: bool)
    requires e in w.drivers
    ensures OneDriver(w, StepDriver(w, e, flag), e)
  {
    var dr := w.drivers[e];
    var t := CoordinatorStep(w.sys, dr.owner, CallOf(dr));
    match dr.stage
    case ToPatch => MarkShape(w, e);
    case ToReread => MarkShape(w, e);
    case ToRecord => CalledShape(w, e, t, ToFence);
    case ToFence => CalledShape(w, e, t, ToVerify);
    case ToVerify => PreflightShape(w, e);
    case ToCheck(_) => PreflightShape(w, e);
    case Turn(role) => RoleShape(w, e, role, flag);
    case ToIntend(role) => CalledShape(w, e, t, ToRemove(role));
    case ToRemove(role) => RoleShape(w, e, role, flag);
    case ToAccept(role) => CalledShape(w, e, t, ToWait(role));
    case ToWait(role) => RoleShape(w, e, role, flag);
    case ToConfirm(role) => CalledShape(w, e, t, After(role));
    case Finished => CalledShape(w, e, t, Finished);
    case Stopped =>
  }

  lemma NewTarget(w: World, ev: Event, e: Epoch)
    requires Inv(w.sys) && e !in w.drivers && e in Next(w, ev).drivers
    ensures CleanupTarget(Next(w, ev).sys.db.retirements, e.op, Next(w, ev).drivers[e].g)
  {
    if ev.Drive? && ev.e in w.drivers { DriveShape(w, ev.e, ev.flag); }
    BeginTarget(w, ev.c, ev.evidence, e);
  }

  lemma BeginTarget(w: World, c: OwnerId, evidence: map<Role, nat>, e: Epoch)
    requires Inv(w.sys) && e !in w.drivers && e in StepBegin(w, c, evidence).drivers
    ensures CleanupTarget(StepBegin(w, c, evidence).sys.db.retirements, e.op, StepBegin(w, c, evidence).drivers[e].g)
  {
    BusyOk(w.sys, c, LocalOf(w.sys, c));
  }

  lemma EventKeeps(w: World, ev: Event)
    requires Sound(w)
    ensures Sound(Next(w, ev))
  {
    EventCore(w, ev);
    EventTargets(w, ev);
  }

  lemma {:induction false} PlayKeeps(w: World, events: seq<Event>)
    requires Sound(w)
    ensures Sound(Play(w, events))
    decreases |events|
  {
    if events != [] {
      EventKeeps(w, events[0]);
      PlayKeeps(Next(w, events[0]), events[1..]);
    }
  }

  lemma PlayedSound(start: World, events: seq<Event>)
    requires Genesis(start)
    ensures Sound(Play(start, events))
  {
    var g: GenerationId, version: nat :| start.sys == Initial(g, version);
    InitialInv(g, version);
    PlayKeeps(start, events);
  }

  lemma {:induction false} PlayReachable(w: World, events: seq<Event>)
    requires Reachable(w.sys)
    ensures Reachable(Play(w, events).sys)
    decreases |events|
  {
    if events != [] {
      var actions := NextSys(w, events[0]);
      ReachableRun(w.sys, actions);
      PlayReachable(Next(w, events[0]), events[1..]);
    }
  }
}
