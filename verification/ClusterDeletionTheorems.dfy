/** Theorems about physical deletion, over every run of coordinators, drivers and cluster. */
module ClusterDeletionTheorems {
  import opened Wrappers
  import opened CoordinatorDb
  import opened CoordinatorProtocol
  import opened CoordinatorInvariants
  import opened CoordinatorRetirementSteps
  import opened CoordinatorTheorems
  import opened CoordinatorFencing
  import opened CoordinatorDeletion
  import opened ClusterDeletion
  import opened ClusterDeletionSafety

  lemma PlayedReachable(start: World, events: seq<Event>)
    requires Genesis(start)
    ensures Reachable(Play(start, events).sys)
  {
    var g: GenerationId, version: nat :| start.sys == Initial(g, version);
    assert start.sys == Run(Initial(g, version), []);
    PlayReachable(start, events);
  }

  // ------------------------------------------------- PHYSICALLY_DELETED

  function RowEpoch(r: Retirement): Epoch
    requires r.token.Some?
  {
    Epoch(r.op, r.fence, r.token.value)
  }

  /** The driver that deleted `g`: the retirement row names its epoch, and the journal holds the uids it planned. */
  ghost predicate DeletedBy(w: World, g: GenerationId, e: Epoch) {
    && g in w.sys.db.retirements && w.sys.db.retirements[g].token.Some? && e == RowEpoch(w.sys.db.retirements[g])
    && e in w.drivers && w.drivers[e].g == g
    && forall role :: KeyOf(e, role) in w.sys.db.attempts
                   && w.sys.db.attempts[KeyOf(e, role)].uid == For(w.drivers[e].plan, role).uid
                   && !For(w.drivers[e].plan, role).absent
  }

  lemma DeletedDriver(w: World, g: GenerationId) returns (e: Epoch)
    requires Sound(w) && Reachable(w.sys) && g in w.sys.db.retirements && Deleted(w.sys.db.retirements[g].state)
    ensures DeletedBy(w, g, e)
    ensures forall role :: Gone(w.cluster, For(w.drivers[e].plan, role).uid)
  {
    DeletedIsConfirmed(w.sys, g);
    e := RowEpoch(w.sys.db.retirements[g]);
    ConfirmedDriver(w.cluster, w.sys.db.attempts, w.drivers, e);
    OneTarget(w.sys, e.op, g, w.drivers[e].g);
  }

  lemma ConfirmedDriver(c: Cluster, a: Attempts, drivers: map<Epoch, Driver>, e: Epoch)
    requires RowsOk(c, drivers, a) && AllAbsent(a, e.op, e.fence, e.token)
    ensures e in drivers
    ensures forall role ::
      && KeyOf(e, role) in a && a[KeyOf(e, role)].uid == For(drivers[e].plan, role).uid
      && !For(drivers[e].plan, role).absent
    ensures forall role :: Gone(c, For(drivers[e].plan, role).uid)
  {
    forall role
      ensures KeyOf(e, role) in a && RowOk(c, drivers, KeyOf(e, role), a[KeyOf(e, role)])
      ensures a[KeyOf(e, role)].state == AbsentConfirmed
    {}
    assert RowOk(c, drivers, KeyOf(e, Service), a[KeyOf(e, Service)]);
  }

  /** An operation in deletion has one retirement row. */
  lemma OneTarget(s: System, id: OperationId, g: GenerationId, x: GenerationId)
    requires DbInv(s.db, s.hist) && g in s.db.retirements && s.db.retirements[g].op == id
    requires CleanupTarget(s.db.retirements, id, x)
    ensures x == g
  {
    CleanupFacts(s, id, x);
    OwnRow(s, id);
  }

  lemma NextMoves(w: World, ev: Event)
    requires CoreOf(w)
    ensures ClusterMoves(w.cluster, Next(w, ev).cluster)
  {
    match ev
    case Drive(e, flag) => if e in w.drivers && Attached(w.sys, e, w.drivers[e]) { DriveMoves(w, e, flag); }
    case Create(slot, owned) => if slot !in w.cluster.items { OutsideMoves(w.cluster, slot, owned); }
    case _ =>
  }

  lemma DriveMoves(w: World, e: Epoch, flag: bool)
    requires CoreOf(w) && e in w.drivers
    ensures ClusterMoves(w.cluster, StepDriver(w, e, flag).cluster)
  {
    var stage := w.drivers[e].stage;
    if stage.ToRemove? { RemoveMoves(w, e, stage.role, flag); }
    else if stage.ToPatch? { MarkMoves(w, e); }
    else { assert StepDriver(w, e, flag).cluster == w.cluster; }
  }

  lemma RemoveMoves(w: World, e: Epoch, role: Role, flag: bool)
    requires CoreOf(w) && e in w.drivers
    ensures ClusterMoves(w.cluster, StepRemove(w, e, role, flag).cluster)
  {
    var slot, r := Slot(w.drivers[e].g, role), For(w.drivers[e].plan, role);
    if DeleteItem(w.cluster, slot, r.uid, r.version, flag).Some? {
      DeleteMoves(w.cluster, slot, r.uid, r.version, flag);
    }
  }

  lemma MarkMoves(w: World, e: Epoch)
    requires CoreOf(w) && e in w.drivers && w.drivers[e].stage.ToPatch?
    ensures ClusterMoves(w.cluster, StepMark(w, e).cluster)
  {
    var c, slot := w.cluster, Slot(w.drivers[e].g, Service);
    if SameResource(c.items, slot, w.drivers[e].plan.service) {
      PatchMoves(c, slot, c.items[slot].(marker := Some(e), version := c.nextVersion));
    }
  }

  lemma {:induction false} GoneForEver(w: World, more: seq<Event>, uid: nat)
    requires Sound(w) && Gone(w.cluster, uid)
    ensures Gone(Play(w, more).cluster, uid)
    decreases |more|
  {
    if more != [] {
      EventKeeps(w, more[0]);
      NextMoves(w, more[0]);
      GoneStays(w.cluster, Next(w, more[0]).cluster, uid);
      GoneForEver(Next(w, more[0]), more[1..], uid);
    }
  }

  /**
    A retirement that reached PHYSICALLY_DELETED is telling the truth: the
    uids that the driver of its epoch planned for this generation's three
    resources name nothing in the cluster, now and in every continuation.
   */
  lemma DeletionIsTruthful(start: World, events: seq<Event>, more: seq<Event>, g: GenerationId, role: Role)
    returns (e: Epoch)
    requires Genesis(start)
    requires var w := Play(start, events); g in w.sys.db.retirements && Deleted(w.sys.db.retirements[g].state)
    ensures DeletedBy(Play(start, events), g, e)
    ensures Gone(Play(Play(start, events), more).cluster, For(Play(start, events).drivers[e].plan, role).uid)
  {
    PlayedSound(start, events);
    PlayedReachable(start, events);
    e := DeletedDriver(Play(start, events), g);
    GoneForEver(Play(start, events), more, For(Play(start, events).drivers[e].plan, role).uid);
  }

  // ---------------------------------------------------- accepted deletes

  lemma TargetOutOfService(s: System, id: OperationId, g: GenerationId)
    requires Inv(s) && CleanupTarget(s.db.retirements, id, g)
    ensures OutOfService(s.db, g)
  {
    CleanupFacts(s, id, g);
    RetiredOutOfService(s.db, s.hist, g);
  }

  /**
    Every delete that was ever accepted was preceded by a durable intent for
    that uid in that epoch, came from a driver whose preflight had passed for
    all three resources, and hit a resource that already existed when the
    driver planned: a resource created again later is never deleted. The
    storage goes only after the workload's absence was confirmed, and the
    Service, which carries the authority marker, only after both. The
    generation is out of service then and in every later state.
   */
  lemma DeletesAreAnnounced(start: World, events: seq<Event>, more: seq<Event>, i: nat)
    requires Genesis(start) && i < |Play(start, events).deletions|
    ensures DeletedFairly(Play(start, events), Play(start, events).deletions[i])
    ensures OutOfService(Play(Play(start, events), more).sys.db, Play(start, events).deletions[i].slot.g)
  {
    PlayedSound(start, events);
    FairDeletion(Play(start, events), i);
    TargetForEver(Play(start, events), more, Play(start, events).deletions[i].epoch);
  }

  ghost predicate DeletedFairly(w: World, d: Deletion) {
    && Intended(w.sys.db.attempts, KeyOf(d.epoch, d.slot.role), d.uid, Rank(DeleteIntent))
    && d.epoch in w.drivers && w.drivers[d.epoch].preflighted && w.drivers[d.epoch].g == d.slot.g
    && d.uid < w.drivers[d.epoch].bornAt
    && EarlierGone(w.sys.db.attempts, d.epoch, d.slot.role)
  }

  lemma FairDeletion(w: World, i: nat)
    requires CoreOf(w) && i < |w.deletions|
    ensures DeletedFairly(w, w.deletions[i])
  {
    assert Announced(w.sys.db.attempts, w.drivers, w.deletions[i]);
  }

  lemma {:induction false} TargetForEver(w: World, more: seq<Event>, e: Epoch)
    requires Sound(w) && e in w.drivers
    ensures OutOfService(Play(w, more).sys.db, w.drivers[e].g)
    decreases |more|
  {
    if more == [] {
      TargetOutOfService(w.sys, e.op, w.drivers[e].g);
    } else {
      EventKeeps(w, more[0]);
      SameTarget(w, more[0], e);
      TargetForEver(Next(w, more[0]), more[1..], e);
    }
  }

  predicate Hits(d: Deletion, e: Epoch, role: Role) { d.epoch == e && d.slot.role == role }

  predicate HasDeleted(deletions: seq<Deletion>, e: Epoch, role: Role) {
    exists i :: 0 <= i < |deletions| && Hits(deletions[i], e, role)
  }

  /** Only the step from ToRemove deletes anything. */
  lemma NextDeletions(w: World, ev: Event, e: Epoch, role: Role)
    requires e in w.drivers && w.drivers[e].stage != ToRemove(role)
    ensures HasDeleted(Next(w, ev).deletions, e, role) ==> HasDeleted(w.deletions, e, role)
  {
    if ev.Drive? && ev.e in w.drivers && Attached(w.sys, ev.e, w.drivers[ev.e]) && w.drivers[ev.e].stage.ToRemove? {
      RemoveDeletions(w, ev.e, w.drivers[ev.e].stage.role, ev.flag, e, role);
    } else {
      assert Next(w, ev).deletions == w.deletions;
    }
  }

  lemma RemoveDeletions(w: World, f: Epoch, r: Role, flag: bool, e: Epoch, role: Role)
    requires f in w.drivers && (f != e || r != role)
    ensures HasDeleted(StepRemove(w, f, r, flag).deletions, e, role) ==> HasDeleted(w.deletions, e, role)
  {
    var after := StepRemove(w, f, r, flag).deletions;
    if i :| 0 <= i < |after| && Hits(after[i], e, role) {
      assert i < |w.deletions| && w.deletions[i] == after[i];
    }
  }

  /**
    A plan that took a resource for already deleted, on whatever evidence,
    comes to nothing: none of it is journalled, it deletes nothing, and its
    epoch never completes a retirement.
   */
  lemma AbsentComesToNothing(start: World, events: seq<Event>, e: Epoch, missing: Role, role: Role)
    requires Genesis(start)
    requires var w := Play(start, events); e in w.drivers && For(w.drivers[e].plan, missing).absent
    ensures var w := Play(start, events);
      && KeyOf(e, role) !in w.sys.db.attempts
      && !HasDeleted(w.deletions, e, role)
      && forall g :: g in w.sys.db.retirements && Deleted(w.sys.db.retirements[g].state) ==>
           w.sys.db.retirements[g].token.Some? && RowEpoch(w.sys.db.retirements[g]) != e
  {
    var w := Play(start, events);
    PlayedSound(start, events);
    PlayedReachable(start, events);
    AbsentHasNoRows(w, e, missing);
    forall g | g in w.sys.db.retirements && Deleted(w.sys.db.retirements[g].state)
      ensures w.sys.db.retirements[g].token.Some? && RowEpoch(w.sys.db.retirements[g]) != e
    {
      var f := DeletedDriver(w, g);
      assert KeyOf(f, role) in w.sys.db.attempts;
    }
  }

  lemma AbsentHasNoRows(w: World, e: Epoch, missing: Role)
    requires CoreOf(w) && e in w.drivers && For(w.drivers[e].plan, missing).absent
    ensures forall role :: KeyOf(e, role) !in w.sys.db.attempts && !HasDeleted(w.deletions, e, role)
  {
    forall key | key in w.sys.db.attempts ensures EpochOf(key) != e {
      assert RowOk(w.cluster, w.drivers, key, w.sys.db.attempts[key]);
    }
    assert forall role :: EpochOf(KeyOf(e, role)) == e;
    forall i | 0 <= i < |w.deletions| ensures w.deletions[i].epoch != e {
      assert Announced(w.sys.db.attempts, w.drivers, w.deletions[i]);
    }
  }

  // ------------------------------------------------------------ mismatches

  lemma {:induction false} StoppedForEver(w: World, more: seq<Event>, e: Epoch, role: Role)
    requires e in w.drivers && w.drivers[e].stage.Stopped?
    ensures HasDeleted(Play(w, more).deletions, e, role) ==> HasDeleted(w.deletions, e, role)
    decreases |more|
  {
    if more != [] {
      NextDeletions(w, more[0], e, role);
      StaysStopped(w, more[0], e);
      StoppedForEver(Next(w, more[0]), more[1..], e, role);
    }
  }

  lemma StaysStopped(w: World, ev: Event, e: Epoch)
    requires e in w.drivers && w.drivers[e].stage.Stopped?
    ensures e in Next(w, ev).drivers && Next(w, ev).drivers[e].stage.Stopped?
  {
    if ev.Drive? && ev.e in w.drivers { DriveShape(w, ev.e, ev.flag); }
  }

  /** Any mismatch in the preflight ends the driver, without a single delete, for ever. */
  lemma MismatchDeletesNothing(start: World, events: seq<Event>, more: seq<Event>, e: Epoch, flag: bool, role: Role)
    requires Genesis(start)
    requires var w := Play(start, events);
      && e in w.drivers && Attached(w.sys, e, w.drivers[e]) && w.drivers[e].stage.ToCheck?
      && !For(w.drivers[e].plan, w.drivers[e].stage.role).absent
      && !SameResource(w.cluster.items, Slot(w.drivers[e].g, w.drivers[e].stage.role),
                       For(w.drivers[e].plan, w.drivers[e].stage.role))
    ensures !HasDeleted(Play(Next(Play(start, events), Drive(e, flag)), more).deletions, e, role)
  {
    var w := Play(start, events);
    PlayedSound(start, events);
    CheckingDeletedNothing(w, e, role);
    MismatchStops(w, e, flag);
    StoppedForEver(Stop(w, e), more, e, role);
  }

  lemma CheckingDeletedNothing(w: World, e: Epoch, role: Role)
    requires CoreOf(w) && e in w.drivers && w.drivers[e].stage.ToCheck?
    ensures !HasDeleted(w.deletions, e, role)
  {
    assert StageOk(w.cluster, w.sys.db.attempts, e, w.drivers[e]);
    forall i | 0 <= i < |w.deletions| ensures w.deletions[i].epoch != e {
      assert Announced(w.sys.db.attempts, w.drivers, w.deletions[i]);
    }
  }

  lemma MismatchStops(w: World, e: Epoch, flag: bool)
    requires e in w.drivers && Attached(w.sys, e, w.drivers[e]) && w.drivers[e].stage.ToCheck?
    requires !For(w.drivers[e].plan, w.drivers[e].stage.role).absent
    requires !SameResource(w.cluster.items, Slot(w.drivers[e].g, w.drivers[e].stage.role),
                           For(w.drivers[e].plan, w.drivers[e].stage.role))
    ensures Next(w, Drive(e, flag)) == Stop(w, e)
  {}

  // -------------------------------------------------------- newer markers

  /** The driver can no longer touch the Service: the version it holds is over for good. */
  ghost predicate Overmarked(w: World, e: Epoch) {
    && e in w.drivers && !BeforeReread(w.drivers[e].stage)
    && (w.drivers[e].stage.Stopped?
        || VersionOver(w.cluster, Slot(w.drivers[e].g, Service), w.drivers[e].plan.service.version))
  }

  predicate VersionOver(c: Cluster, slot: Slot, version: nat) {
    version < c.nextVersion && (slot in c.items ==> c.items[slot].version != version)
  }

  lemma OvermarkedStep(w: World, ev: Event, e: Epoch)
    requires CoreOf(w) && Overmarked(w, e)
    ensures Overmarked(Next(w, ev), e)
  {
    NextMoves(w, ev);
    if ev.Drive? && ev.e in w.drivers { DriveShape(w, ev.e, ev.flag); }
  }

  lemma OvermarkedDeletions(w: World, ev: Event, e: Epoch)
    requires Overmarked(w, e)
    ensures HasDeleted(Next(w, ev).deletions, e, Service) ==> HasDeleted(w.deletions, e, Service)
  {
    if w.drivers[e].stage != ToRemove(Service) {
      NextDeletions(w, ev, e, Service);
    } else if ev == Drive(e, true) || ev == Drive(e, false) {
      assert Attached(w.sys, e, w.drivers[e]) ==> StepDriver(w, e, ev.flag) == Stop(w, e);
    } else if ev.Drive? && ev.e in w.drivers && w.drivers[ev.e].stage.ToRemove? {
      RemoveDeletions(w, ev.e, w.drivers[ev.e].stage.role, ev.flag, e, Service);
    } else {
      assert Next(w, ev).deletions == w.deletions;
    }
  }

  lemma {:induction false} OvermarkedForEver(w: World, more: seq<Event>, e: Epoch)
    requires Sound(w) && Overmarked(w, e)
    ensures HasDeleted(Play(w, more).deletions, e, Service) ==> HasDeleted(w.deletions, e, Service)
    decreases |more|
  {
    if more != [] {
      EventKeeps(w, more[0]);
      OvermarkedStep(w, more[0], e);
      OvermarkedDeletions(w, more[0], e);
      OvermarkedForEver(Next(w, more[0]), more[1..], e);
    }
  }

  /** Once the Service carries another marker, the plan that marked it before can never delete it, in any future. */
  lemma NewerMarkerProtects(start: World, events: seq<Event>, more: seq<Event>, e: Epoch)
    requires Genesis(start)
    requires var w := Play(start, events);
      && e in w.drivers && !BeforeReread(w.drivers[e].stage)
      && Slot(w.drivers[e].g, Service) in w.cluster.items
      && w.cluster.items[Slot(w.drivers[e].g, Service)].marker != Some(e)
    ensures HasDeleted(Play(Play(start, events), more).deletions, e, Service) ==>
      HasDeleted(Play(start, events).deletions, e, Service)
  {
    var w := Play(start, events);
    PlayedSound(start, events);
    assert StageOk(w.cluster, w.sys.db.attempts, e, w.drivers[e]);
    OvermarkedForEver(w, more, e);
  }

  // ------------------------------------------------------------- takeovers

  lemma StaleRecordStops(s: System, c: OwnerId, l: Local, ch: Choice)
    requires LocalOf(s, c) == l && l.Busy? && l.pc.Deleting? && ch.record.Some? && !Holds(s.db, l.op, c, l.fence)
    ensures LocalOf(StepDeleting(s, c, l, ch), c).Idle?
  {}

  /** A driver whose fence was passed never gets to another delete. */
  lemma OvertakenStep(w: World, ev: Event, e: Epoch, role: Role)
    requires e in w.drivers && e.fence < FenceOf(w.sys, e.op) && w.drivers[e].stage != ToRemove(role)
    ensures e in Next(w, ev).drivers && Next(w, ev).drivers[e].stage != ToRemove(role)
    ensures e.fence < FenceOf(Next(w, ev).sys, e.op)
  {
    var actions := NextSys(w, ev);
    FencesGrow(w.sys, actions, e.op);
    if ev.Drive? && ev.e in w.drivers {
      DriveShape(w, ev.e, ev.flag);
      if ev.e == e && Attached(w.sys, e, w.drivers[e]) { OvertakenDrive(w, e, ev.flag, role); }
    }
  }

  lemma OvertakenDrive(w: World, e: Epoch, flag: bool, role: Role)
    requires e in w.drivers && Attached(w.sys, e, w.drivers[e]) && e.fence < FenceOf(w.sys, e.op)
    requires w.drivers[e].stage != ToRemove(role)
    ensures StepDriver(w, e, flag).drivers[e].stage != ToRemove(role)
  {
    var dr := w.drivers[e];
    if dr.stage.ToIntend? {
      var ch := RecordChoice(dr.stage.role, For(dr.plan, dr.stage.role).uid, DeleteIntent);
      StaleRecordStops(w.sys, dr.owner, LocalOf(w.sys, dr.owner), ch);
      assert CoordinatorStep(w.sys, dr.owner, ch) == StepDeleting(w.sys, dr.owner, LocalOf(w.sys, dr.owner), ch);
    }
  }

  /** After a takeover the old driver issues no delete but the one whose intent it had already recorded. */
  lemma {:induction false} OvertakenDeletes(w: World, more: seq<Event>, e: Epoch, role: Role)
    requires e in w.drivers && e.fence < FenceOf(w.sys, e.op) && w.drivers[e].stage != ToRemove(role)
    ensures HasDeleted(Play(w, more).deletions, e, role) ==> HasDeleted(w.deletions, e, role)
    decreases |more|
  {
    if more != [] {
      NextDeletions(w, more[0], e, role);
      OvertakenStep(w, more[0], e, role);
      OvertakenDeletes(Next(w, more[0]), more[1..], e, role);
    }
  }
}
