/**
  Over every run: what stood in the rows and in the cluster when a delete was
  announced. The authority check before the first delete and the one repeated
  before the storage delete both precede the intents that follow them.
 */
module ClusterDeletionChecks {
  import opened Wrappers
  import opened CoordinatorDb
  import opened CoordinatorProtocol
  import opened CoordinatorFrames
  import opened CoordinatorConditions
  import opened CoordinatorDeletion
  import opened ClusterDeletion
  import opened ClusterDeletionSafety

  type Epochs = set<Epoch>

  /**
    The driver's coordinator holds the live lease, the retirement row grants its
    epoch, and the generation's Service is there, owned, and carries its marker.
   */
  predicate Entitled(w: World, e: Epoch) {
    && e in w.drivers
    && var dr := w.drivers[e];
    && var service := Slot(dr.g, Service);
    && LiveLease(w.sys.db, e.op, dr.owner, e.fence)
    && dr.g in w.sys.db.retirements
    && w.sys.db.retirements[dr.g] == Retirement(e.op, PhysicalDeletePending,
                                                w.sys.db.retirements[dr.g].pointerVersion,
                                                w.sys.db.retirements[dr.g].generationVersion, e.fence, Some(e.token))
    && service in w.cluster.items && w.cluster.items[service].owned
    && w.cluster.items[service].marker == Some(e)
  }

  /** Where the check is made: before the storage delete, or before the first delete. */
  function CheckStage(storage: bool): Stage { if storage then Turn(Pvc) else ToVerify }

  predicate CheckedAt(w: World, e: Epoch, storage: bool) {
    Entitled(w, e) && w.drivers[e].stage == CheckStage(storage)
  }

  ghost predicate WasChecked(start: World, events: seq<Event>, e: Epoch, storage: bool) {
    exists k: nat :: k <= |events| && CheckedAt(Play(start, events[..k]), e, storage)
  }

  function CheckedNow(w: World, storage: bool): Epochs { set e | e in w.drivers && CheckedAt(w, e, storage) }

  function CheckedOver(w: World, events: seq<Event>, storage: bool): Epochs
    decreases |events|
  {
    CheckedNow(w, storage) + if events == [] then {} else CheckedOver(Next(w, events[0]), events[1..], storage)
  }

  lemma PlayHead(w: World, events: seq<Event>, k: nat)
    requires events != [] && k <= |events[1..]|
    ensures Play(w, events[..k + 1]) == Play(Next(w, events[0]), events[1..][..k])
  {
    assert events[..k + 1][0] == events[0] && events[..k + 1][1..] == events[1..][..k];
  }

  lemma {:induction false} CheckedOverMeans(w: World, events: seq<Event>, e: Epoch, storage: bool)
    requires e in CheckedOver(w, events, storage)
    ensures WasChecked(w, events, e, storage)
    decreases |events|
  {
    if e in CheckedNow(w, storage) {
      assert Play(w, events[..0]) == w;
    } else {
      CheckedOverMeans(Next(w, events[0]), events[1..], e, storage);
      var k: nat :| k <= |events[1..]| && CheckedAt(Play(Next(w, events[0]), events[1..][..k]), e, storage);
      PlayHead(w, events, k);
    }
  }

  // ----------------------------------------------------------- invariant

  /** The driver is between the check and the delete it guards. */
  predicate PastCheck(stage: Stage, storage: bool) {
    if storage then stage == ToIntend(Pvc) || stage == ToRemove(Pvc) else stage.ToCheck? || AfterPreflight(stage)
  }

  /** A delete of this resource was announced. */
  predicate Announces(key: AttemptKey, row: Attempt, storage: bool) {
    row.state !in {Planned, FenceMarked} && (storage ==> key.role == Pvc)
  }

  ghost predicate DriversVouched(drivers: map<Epoch, Driver>, vouched: Epochs, storage: bool) {
    forall e :: e in drivers && PastCheck(drivers[e].stage, storage) ==> e in vouched
  }

  ghost predicate RowsVouched(a: Attempts, vouched: Epochs, storage: bool) {
    forall key :: key in a && Announces(key, a[key], storage) ==> EpochOf(key) in vouched
  }

  ghost predicate Vouched(w: World, vouched: Epochs, storage: bool) {
    DriversVouched(w.drivers, vouched, storage) && RowsVouched(w.sys.db.attempts, vouched, storage)
  }

  // ------------------------------------------------------------ one event

  /** A driver gets past the check only by making it. */
  lemma DriveChecks(w: World, e: Epoch, flag: bool, storage: bool)
    requires e in w.drivers
    ensures OneDriver(w, StepDriver(w, e, flag), e)
    ensures PastCheck(StepDriver(w, e, flag).drivers[e].stage, storage) ==>
      PastCheck(w.drivers[e].stage, storage) || CheckedAt(w, e, storage)
  {
    DriveShape(w, e, flag);
    StageChecks(w, e, flag, storage);
  }

  lemma StageChecks(w: World, e: Epoch, flag: bool, storage: bool)
    requires e in w.drivers && e in StepDriver(w, e, flag).drivers
    ensures PastCheck(StepDriver(w, e, flag).drivers[e].stage, storage) ==>
      PastCheck(w.drivers[e].stage, storage) || CheckedAt(w, e, storage)
  {
    var dr := w.drivers[e];
    match dr.stage
    case ToPatch => MarkStage(w, e);
    case ToReread => MarkStage(w, e);
    case ToRecord =>
    case ToFence =>
    case ToVerify =>
    case ToCheck(_) =>
    case Finished =>
    case Stopped =>
    case _ => assert AtRole(dr.stage, dr.stage.role);
  }

  lemma MarkStage(w: World, e: Epoch)
    requires e in w.drivers && BeforeReread(w.drivers[e].stage)
    ensures e in StepMark(w, e).drivers
    ensures StepMark(w, e).drivers[e].stage in {ToReread, ToRecord, Stopped}
  {}

  /** A row comes to announce a delete only by the intent of its own driver. */
  ghost predicate OnlyIntends(w: World, a: Attempts, e: Epoch)
    requires e in w.drivers
  {
    forall key :: key in a && a[key].state !in {Planned, FenceMarked} ==>
      || (key in w.sys.db.attempts && w.sys.db.attempts[key].state !in {Planned, FenceMarked})
      || (EpochOf(key) == e && w.drivers[e].stage == ToIntend(key.role))
  }

  lemma RecordIntends(w: World, e: Epoch, role: Role, flag: bool)
    requires e in w.drivers && Attached(w.sys, e, w.drivers[e])
    requires AtRole(w.drivers[e].stage, role) && Records(w.drivers[e].stage)
    ensures OnlyIntends(w, StepDriver(w, e, flag).sys.db.attempts, e)
  {
    var dr, to := w.drivers[e], RecordOf(w.drivers[e].stage);
    var l := LocalOf(w.sys, dr.owner);
    var ch := RecordChoice(role, For(dr.plan, role).uid, to);
    RecordIs(w, e, role, flag);
    RecordCall(w.sys, dr.owner, l, role, For(dr.plan, role).uid, to);
    assert CoordinatorStep(w.sys, dr.owner, ch) == StepDeleting(w.sys, dr.owner, l, ch);
  }

  lemma PrepareIntends(w: World, e: Epoch, flag: bool)
    requires e in w.drivers && Attached(w.sys, e, w.drivers[e])
    requires w.drivers[e].stage.ToRecord? || w.drivers[e].stage.ToFence?
    ensures OnlyIntends(w, StepDriver(w, e, flag).sys.db.attempts, e)
  {
    var dr := w.drivers[e];
    var l := LocalOf(w.sys, dr.owner);
    if dr.stage.ToRecord? { PlanCall(w.sys, dr.owner, l, dr.plan); } else { FenceCall(w.sys, dr.owner, l); }
  }

  lemma QuietIntends(w: World, e: Epoch, flag: bool)
    requires e in w.drivers && Attached(w.sys, e, w.drivers[e])
    requires !Records(w.drivers[e].stage) && !w.drivers[e].stage.ToRecord? && !w.drivers[e].stage.ToFence?
    ensures StepDriver(w, e, flag).sys.db.attempts == w.sys.db.attempts
  {
    if w.drivers[e].stage.Finished? {
      var c := w.drivers[e].owner;
      DeletingFrame(w.sys, c, LocalOf(w.sys, c), Bare());
      assert CoordinatorStep(w.sys, c, Bare()) == StepDeleting(w.sys, c, LocalOf(w.sys, c), Bare());
    }
  }

  lemma DriveIntends(w: World, e: Epoch, flag: bool)
    requires e in w.drivers && Attached(w.sys, e, w.drivers[e])
    ensures OnlyIntends(w, StepDriver(w, e, flag).sys.db.attempts, e)
  {
    var stage := w.drivers[e].stage;
    if Records(stage) { RecordIntends(w, e, stage.role, flag); }
    else if stage.ToRecord? || stage.ToFence? { PrepareIntends(w, e, flag); }
    else { QuietIntends(w, e, flag); }
  }

  lemma DriveVouches(w: World, e: Epoch, flag: bool, vouched: Epochs, storage: bool)
    requires Vouched(w, vouched, storage) && CheckedNow(w, storage) <= vouched
    requires e in w.drivers && Attached(w.sys, e, w.drivers[e])
    ensures Vouched(StepDriver(w, e, flag), vouched, storage)
  {
    DriveChecks(w, e, flag, storage);
    DriveIntends(w, e, flag);
    assert CheckedAt(w, e, storage) ==> e in CheckedNow(w, storage);
    var t := StepDriver(w, e, flag);
    forall key | key in t.sys.db.attempts && Announces(key, t.sys.db.attempts[key], storage)
      ensures EpochOf(key) in vouched
    {
      if w.drivers[e].stage == ToIntend(key.role) && EpochOf(key) == e {
        assert PastCheck(w.drivers[e].stage, storage) by { assert AtRole(w.drivers[e].stage, key.role); }
      }
    }
  }

  lemma NextVouches(w: World, ev: Event, vouched: Epochs, storage: bool)
    requires Vouched(w, vouched, storage) && CheckedNow(w, storage) <= vouched
    ensures Vouched(Next(w, ev), vouched, storage)
  {
    match ev
    case Coordinate(a) =>
      if !DriverCall(w.sys, a) { CoordinateAttempts(w.sys, a); }
    case Drive(e, flag) =>
      if e in w.drivers && Attached(w.sys, e, w.drivers[e]) { DriveVouches(w, e, flag, vouched, storage); }
    case _ =>
  }

  lemma {:induction false} PlayVouches(w: World, events: seq<Event>, vouched: Epochs, storage: bool)
    requires Vouched(w, vouched, storage)
    ensures Vouched(Play(w, events), vouched + CheckedOver(w, events, storage), storage)
    decreases |events|
  {
    var now := vouched + CheckedNow(w, storage);
    if events == [] {
      assert now == vouched + CheckedOver(w, events, storage);
    } else {
      NextVouches(w, events[0], now, storage);
      PlayVouches(Next(w, events[0]), events[1..], now, storage);
      assert now + CheckedOver(Next(w, events[0]), events[1..], storage) == vouched + CheckedOver(w, events, storage);
    }
  }

  // ------------------------------------------------------------ theorems

  /**
    Every announced delete was preceded by a state in which the driver, on its
    way to the first delete, held the lease, the retirement row and the marked
    Service; for the storage that was so once more, after the workload's
    absence had been confirmed.
   */
  lemma IntentWasChecked(start: World, events: seq<Event>, key: AttemptKey, storage: bool)
    requires Genesis(start)
    requires var a := Play(start, events).sys.db.attempts; key in a && Announces(key, a[key], storage)
    ensures WasChecked(start, events, EpochOf(key), storage)
  {
    assert start.sys.db.attempts == map[];
    PlayVouches(start, events, {}, storage);
    assert EpochOf(key) in CheckedOver(start, events, storage);
    CheckedOverMeans(start, events, EpochOf(key), storage);
  }

  /** By the time of the check before the storage delete, the workload's row is confirmed absent. */
  lemma StorageAfterWorkload(start: World, events: seq<Event>, e: Epoch)
    requires Genesis(start) && CheckedAt(Play(start, events), e, true)
    ensures var a := Play(start, events).sys.db.attempts;
      KeyOf(e, Workload) in a && a[KeyOf(e, Workload)].state == AbsentConfirmed
  {
    PlayedSound(start, events);
    var w := Play(start, events);
    assert StageOk(w.cluster, w.sys.db.attempts, e, w.drivers[e]);
    assert AtRole(w.drivers[e].stage, Pvc) && Earlier(Workload, Pvc);
  }

  /** Nothing was deleted without the check, and no storage without the second one. */
  lemma DeletionWasChecked(start: World, events: seq<Event>, i: nat)
    requires Genesis(start) && i < |Play(start, events).deletions|
    ensures var d := Play(start, events).deletions[i];
      WasChecked(start, events, d.epoch, false) && (d.slot.role == Pvc ==> WasChecked(start, events, d.epoch, true))
  {
    PlayedSound(start, events);
    var w := Play(start, events);
    var d := w.deletions[i];
    assert Announced(w.sys.db.attempts, w.drivers, d);
    IntentWasChecked(start, events, KeyOf(d.epoch, d.slot.role), false);
    if d.slot.role == Pvc { IntentWasChecked(start, events, KeyOf(d.epoch, Pvc), true); }
  }

  // ------------------------------------------------------------- planning

  /** The evidence says that this very resource was deleted before. */
  predicate SaidDeleted(items: Items, evidence: map<Role, nat>, slot: Slot) {
    slot.role in evidence && (slot in items ==> items[slot].terminating && items[slot].uid == evidence[slot.role])
  }

  /** The planned resource is the one that is there, or the one the evidence says is gone. */
  predicate PlannedAs(items: Items, evidence: map<Role, nat>, slot: Slot, r: Resource) {
    if SaidDeleted(items, evidence, slot) then r.absent && r.uid == evidence[slot.role]
    else slot in items && r == Resource(false, items[slot].uid, items[slot].version)
  }

  /** The resource is there and owned, or missing where the evidence expects it to be. */
  predicate Plannable(items: Items, evidence: map<Role, nat>, slot: Slot) {
    if slot in items then items[slot].owned else slot.role in evidence
  }

  /** A plan is made exactly if each of the three resources can be planned. */
  lemma PlannedExactly(items: Items, evidence: map<Role, nat>, g: GenerationId)
    ensures PlanAll(items, evidence, g).Some? <==> forall role: Role :: Plannable(items, evidence, Slot(g, role))
    ensures PlanAll(items, evidence, g).Some? ==>
      forall role: Role :: PlannedAs(items, evidence, Slot(g, role), For(PlanAll(items, evidence, g).value, role))
  {
    forall role: Role ensures PlanResource(items, evidence, Slot(g, role)).Some?
                         <==> Plannable(items, evidence, Slot(g, role))
    {}
    if forall role: Role :: Plannable(items, evidence, Slot(g, role)) {
      assert Plannable(items, evidence, Slot(g, Workload)) && Plannable(items, evidence, Slot(g, Pvc))
        && Plannable(items, evidence, Slot(g, Service));
    }
    forall role: Role | PlanAll(items, evidence, g).Some?
      ensures PlannedAs(items, evidence, Slot(g, role), For(PlanAll(items, evidence, g).value, role))
    {
      match role case Workload => case Pvc => case Service =>
    }
  }

  /** A delete goes through exactly for the uid and the version it was asked for, and touches nothing else. */
  lemma DeleteExactly(c: Cluster, slot: Slot, uid: nat, version: nat, atOnce: bool)
    ensures DeleteItem(c, slot, uid, version, atOnce).Some?
       <==> slot in c.items && (c.items[slot].uid, c.items[slot].version) == (uid, version)
    ensures DeleteItem(c, slot, uid, version, atOnce).Some? ==>
      var after := DeleteItem(c, slot, uid, version, atOnce).value;
      && (atOnce ==> slot !in after.items)
      && (!atOnce ==> slot in after.items && after.items[slot].terminating && after.items[slot].uid == uid)
      && forall other :: other != slot ==>
           (other in after.items <==> other in c.items)
           && (other in c.items ==> after.items[other] == c.items[other])
  {}

  // -------------------------------------------------------------- stopping

  lemma StopRaises(w: World, e: Epoch, flag: bool)
    requires e in w.drivers && !w.drivers[e].stage.Stopped?
    requires e in StepDriver(w, e, flag).drivers && StepDriver(w, e, flag).drivers[e].stage.Stopped?
    ensures LocalOf(StepDriver(w, e, flag).sys, w.drivers[e].owner).Idle?
  {}

  /** A driver that stops takes its coordinator's reconcile with it. */
  lemma StoppingEndsReconcile(w: World, ev: Event, e: Epoch)
    requires e in w.drivers && !w.drivers[e].stage.Stopped?
    requires e in Next(w, ev).drivers && Next(w, ev).drivers[e].stage.Stopped?
    ensures LocalOf(Next(w, ev).sys, w.drivers[e].owner).Idle?
  {
    if ev.Drive? && ev.e in w.drivers && Attached(w.sys, ev.e, w.drivers[ev.e]) {
      DriveShape(w, ev.e, ev.flag);
      if ev.e == e { StopRaises(w, e, ev.flag); }
    }
  }

  /** A wait ends with the absence of the planned uid, or by giving up on it. */
  lemma WaitEnds(w: World, e: Epoch, giveUp: bool)
    requires e in w.drivers && Attached(w.sys, e, w.drivers[e]) && w.drivers[e].stage.ToWait?
    ensures var dr := w.drivers[e];
      var slot := Slot(dr.g, dr.stage.role);
      var there := slot in w.cluster.items && w.cluster.items[slot].uid == For(dr.plan, dr.stage.role).uid;
      var t := Next(w, Drive(e, giveUp));
      && (!there ==> t.drivers[e].stage == ToConfirm(dr.stage.role))
      && (there && giveUp ==> t.drivers[e].stage == Stopped)
      && (there && !giveUp ==> t == w)
  {}

  /** Meanwhile the rest of the cluster may take anything away, change anything and put anything in an empty place. */
  lemma OthersInterfere(w: World, slot: Slot, owned: bool)
    ensures Next(w, Vanish(slot)).cluster.items == w.cluster.items - {slot}
    ensures slot in w.cluster.items ==>
      Next(w, Touch(slot)).cluster.items
      == w.cluster.items[slot := w.cluster.items[slot].(version := w.cluster.nextVersion)]
    ensures slot !in w.cluster.items ==>
      Next(w, Create(slot, owned)).cluster.items
      == w.cluster.items[slot := Item(w.cluster.nextUid, w.cluster.nextVersion, owned, None, false)]
  {}
}
