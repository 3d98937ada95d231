/**
  Physical deletion of retired generations. A coordinator that has deletion
  authority plans against the cluster and deletes a generation's workload,
  volume claim and Service; every database call it makes on the way is a step
  of CoordinatorProtocol. All generations share one cluster.
 */
module ClusterDeletion {
  import opened Wrappers
  import opened CoordinatorDb
  import opened CoordinatorProtocol
  import opened CoordinatorFrames

  datatype Slot = Slot(g: GenerationId, role: Role)

  /** A resource of the cluster. Every change gives it a version never used before; its uid is its own for ever. */
  datatype Item = Item(uid: nat, version: nat, owned: bool, marker: Option<Epoch>, terminating: bool)
  type Items = map<Slot, Item>
  datatype Cluster = Cluster(items: Items, nextUid: nat, nextVersion: nat)

  datatype Resource = Resource(absent: bool, uid: nat, version: nat)
  datatype DeletePlan = DeletePlan(workload: Resource, pvc: Resource, service: Resource)

  function For(plan: DeletePlan, role: Role): Resource {
    match role case Workload => plan.workload case Pvc => plan.pvc case Service => plan.service
  }

  /** Where a driver stands between two awaits. */
  datatype Stage =
    | ToPatch | ToReread | ToRecord | ToFence | ToVerify
    | ToCheck(role: Role)
    | Turn(role: Role)
    | ToIntend(role: Role)
    | ToRemove(role: Role)
    | ToAccept(role: Role)
    | ToWait(role: Role)
    | ToConfirm(role: Role)
    | Finished
    | Stopped

  /** The deletion work of one coordinator in one epoch; `bornAt` is the first uid not yet given out when it planned. */
  datatype Driver = Driver(owner: OwnerId, g: GenerationId, plan: DeletePlan, bornAt: nat, preflighted: bool,
                           stage: Stage)

  /** One accepted delete call. */
  datatype Deletion = Deletion(epoch: Epoch, slot: Slot, uid: nat, bornAt: nat)

  datatype World = World(sys: System, cluster: Cluster, drivers: map<Epoch, Driver>, deletions: seq<Deletion>)

  // ------------------------------------------------------------- planning

  /** A planned resource: present and owned, or, if the evidence says so, already deleted by this operation. */
  function PlanResource(items: Items, evidence: map<Role, nat>, slot: Slot): Option<Resource> {
    var known := slot.role in evidence;
    if slot !in items then
      if known then Some(Resource(true, evidence[slot.role], 0)) else None
    else if !items[slot].owned then None
    else if items[slot].terminating && known && evidence[slot.role] == items[slot].uid then
      Some(Resource(true, evidence[slot.role], 0))
    else Some(Resource(false, items[slot].uid, items[slot].version))
  }

  /** `planDeleteGeneration`. */
  function PlanAll(items: Items, evidence: map<Role, nat>, g: GenerationId): Option<DeletePlan> {
    var w, p, s := PlanResource(items, evidence, Slot(g, Workload)), PlanResource(items, evidence, Slot(g, Pvc)),
      PlanResource(items, evidence, Slot(g, Service));
    if w.None? || p.None? || s.None? then None else Some(DeletePlan(w.value, p.value, s.value))
  }

  /** What `recordDeletionPlan` accepts: `deletionResource` refuses a resource that is planned as absent. */
  predicate Complete(plan: DeletePlan) { !plan.workload.absent && !plan.pvc.absent && !plan.service.absent }

  // ----------------------------------------------------- cluster calls

  /** A delete with uid and version preconditions; the object goes at once or stays, terminating, for a while. */
  function DeleteItem(c: Cluster, slot: Slot, uid: nat, version: nat, atOnce: bool): Option<Cluster> {
    if slot !in c.items || c.items[slot].uid != uid || c.items[slot].version != version then None
    else if atOnce then Some(c.(items := c.items - {slot}))
    else
      Some(c.(items := c.items[slot := c.items[slot].(terminating := true, version := c.nextVersion)],
              nextVersion := c.nextVersion + 1))
  }

  predicate SameResource(items: Items, slot: Slot, r: Resource) {
    slot in items && items[slot].owned && items[slot].uid == r.uid && items[slot].version == r.version
  }

  predicate MarkedBy(items: Items, g: GenerationId, e: Epoch) {
    Slot(g, Service) in items && items[Slot(g, Service)].owned && items[Slot(g, Service)].marker == Some(e)
  }

  // --------------------------------------------------- coordinator calls

  /** The database call a driver's coordinator is waiting to make. */
  function Awaited(e: Epoch, dr: Driver): Pc {
    match dr.stage
    case ToPatch => RecordPlan(dr.g, e.token)
    case ToReread => RecordPlan(dr.g, e.token)
    case ToRecord => RecordPlan(dr.g, e.token)
    case ToFence => CoordinatorProtocol.MarkFence(dr.g, e.token)
    case _ => Deleting(dr.g, e.token)
  }

  /** The driver's coordinator is still in the reconcile that planned: it has neither raised nor crashed. */
  predicate Attached(sys: System, e: Epoch, dr: Driver) {
    var l := LocalOf(sys, dr.owner);
    l.Busy? && l.op == e.op && l.fence == e.fence && l.pc == Awaited(e, dr)
  }

  function Bare(): Choice { Choice(false, 0, "", 0, 0, map[], None) }

  function PlanChoice(plan: DeletePlan): Choice {
    Bare().(plan := map role: Role | true :: role := Attempt(For(plan, role).uid, For(plan, role).version, Planned))
  }

  function RecordChoice(role: Role, uid: nat, to: AttemptState): Choice {
    Bare().(record := Some(AttemptRecord(role, uid, to)))
  }

  function Put(w: World, e: Epoch, dr: Driver): World { w.(drivers := w.drivers[e := dr]) }

  function Go(w: World, e: Epoch, stage: Stage): World
    requires e in w.drivers
  {
    Put(w, e, w.drivers[e].(stage := stage))
  }

  /** An error inside the driver is an error of the reconcile. */
  function Stop(w: World, e: Epoch): World
    requires e in w.drivers
  {
    Go(w.(sys := Fail(w.sys, w.drivers[e].owner)), e, Stopped)
  }

  /** The driver goes on if its coordinator's call did not raise. */
  function Called(w: World, e: Epoch, sys: System, next: Stage): World
    requires e in w.drivers
  {
    Go(w.(sys := sys), e, if LocalOf(sys, w.drivers[e].owner).Busy? then next else Stopped)
  }

  /** One database call of the driver's coordinator. */
  function Call(w: World, e: Epoch, ch: Choice, next: Stage): World
    requires e in w.drivers
  {
    Called(w, e, CoordinatorStep(w.sys, w.drivers[e].owner, ch), next)
  }

  // ---------------------------------------------------------- one await

  /** `markDeletionAuthority`: patch the Service under its version, then read it back. */
  function StepMark(w: World, e: Epoch): World
    requires e in w.drivers
  {
    var dr, c := w.drivers[e], w.cluster;
    var service, slot := dr.plan.service, Slot(dr.g, Service);
    if dr.stage.ToPatch? then
      if service.absent || !SameResource(c.items, slot, service) then Stop(w, e)
      else if c.items[slot].marker == Some(e) then Go(w, e, ToRecord)
      else
        var item := c.items[slot].(marker := Some(e), version := c.nextVersion);
        Go(w.(cluster := c.(items := c.items[slot := item], nextVersion := c.nextVersion + 1)), e, ToReread)
    else if !MarkedBy(c.items, dr.g, e) then Stop(w, e)
    else Put(w, e, dr.(plan := dr.plan.(service := service.(version := c.items[slot].version)), stage := ToRecord))
  }

  /** The first authority check of `executeDeletePlan`. */
  function StepVerify(w: World, e: Epoch): World
    requires e in w.drivers
  {
    var dr := w.drivers[e];
    if !Authorized(w.sys.db, e.op, dr.g, dr.owner, e.fence, e.token) || !MarkedBy(w.cluster.items, dr.g, e) then
      Stop(w, e)
    else Go(w, e, ToCheck(Workload))
  }

  /** The second ownership and identity pass, before the first delete. */
  function StepCheck(w: World, e: Epoch): World
    requires e in w.drivers && w.drivers[e].stage.ToCheck?
  {
    var dr := w.drivers[e];
    var role := dr.stage.role;
    if !For(dr.plan, role).absent && !SameResource(w.cluster.items, Slot(dr.g, role), For(dr.plan, role)) then
      Stop(w, e)
    else match role
      case Workload => Go(w, e, ToCheck(Pvc))
      case Pvc => Go(w, e, ToCheck(Service))
      case Service => Put(w, e, dr.(preflighted := true, stage := Turn(Workload)))
  }

  /** The storage delete repeats the authority check. */
  function StepTurn(w: World, e: Epoch, role: Role): World
    requires e in w.drivers
  {
    var dr := w.drivers[e];
    if For(dr.plan, role).absent then Go(w, e, ToConfirm(role))
    else if role.Pvc? && !(Authorized(w.sys.db, e.op, dr.g, dr.owner, e.fence, e.token)
                           && MarkedBy(w.cluster.items, dr.g, e)) then
      Stop(w, e)
    else Go(w, e, ToIntend(role))
  }

  function StepRemove(w: World, e: Epoch, role: Role, atOnce: bool): World
    requires e in w.drivers
  {
    var dr := w.drivers[e];
    var slot, r := Slot(dr.g, role), For(dr.plan, role);
    var deleted := DeleteItem(w.cluster, slot, r.uid, r.version, atOnce);
    if deleted.None? then Stop(w, e)
    else
      Go(w.(cluster := deleted.value, deletions := w.deletions + [Deletion(e, slot, r.uid, dr.bornAt)]), e,
         ToAccept(role))
  }

  /** Poll until the uid is gone, or give up. */
  function StepWait(w: World, e: Epoch, role: Role, giveUp: bool): World
    requires e in w.drivers
  {
    var dr := w.drivers[e];
    var slot := Slot(dr.g, role);
    if slot !in w.cluster.items || w.cluster.items[slot].uid != For(dr.plan, role).uid then Go(w, e, ToConfirm(role))
    else if giveUp then Stop(w, e)
    else w
  }

  function After(role: Role): Stage {
    match role case Workload => Turn(Pvc) case Pvc => Turn(Service) case Service => Finished
  }

  function StepDriver(w: World, e: Epoch, flag: bool): World
    requires e in w.drivers
  {
    var dr := w.drivers[e];
    match dr.stage
    case ToPatch => StepMark(w, e)
    case ToReread => StepMark(w, e)
    case ToRecord => if Complete(dr.plan) then Call(w, e, PlanChoice(dr.plan), ToFence) else Stop(w, e)
    case ToFence => Call(w, e, Bare(), ToVerify)
    case ToVerify => StepVerify(w, e)
    case ToCheck(_) => StepCheck(w, e)
    case Turn(role) => StepTurn(w, e, role)
    case ToIntend(role) => Call(w, e, RecordChoice(role, For(dr.plan, role).uid, DeleteIntent), ToRemove(role))
    case ToRemove(role) => StepRemove(w, e, role, flag)
    case ToAccept(role) => Call(w, e, RecordChoice(role, For(dr.plan, role).uid, DeleteAccepted), ToWait(role))
    case ToWait(role) => StepWait(w, e, role, flag)
    case ToConfirm(role) => Call(w, e, RecordChoice(role, For(dr.plan, role).uid, AbsentConfirmed), After(role))
    case Finished => Call(w, e, Bare(), Finished)
    case Stopped => w
  }

  // -------------------------------------------------------------- events

  datatype Event =
    | Coordinate(a: Action)
    | Begin(c: OwnerId, evidence: map<Role, nat>)
    | Drive(e: Epoch, flag: bool)
    | Vanish(slot: Slot)
    | Create(slot: Slot, owned: bool)
    | Touch(slot: Slot)

  /** A coordinator plans once in an epoch, right after it was authorised. */
  function StepBegin(w: World, c: OwnerId, evidence: map<Role, nat>): World {
    var l := LocalOf(w.sys, c);
    if !(l.Busy? && l.pc.RecordPlan?) then w
    else
      var e := Epoch(l.op, l.fence, l.pc.token);
      var plan := PlanAll(w.cluster.items, evidence, l.pc.g);
      if e in w.drivers then w
      else if plan.None? then w.(sys := Fail(w.sys, c))
      else Put(w, e, Driver(c, l.pc.g, plan.value, w.cluster.nextUid, false, ToPatch))
  }

  /** One event of a coordinator, a driver or the rest of the cluster; an event that is not possible changes nothing. */
  function Next(w: World, ev: Event): World {
    match ev
    case Coordinate(a) => if DriverCall(w.sys, a) then w else w.(sys := Step(w.sys, a))
    case Begin(c, evidence) => StepBegin(w, c, evidence)
    case Drive(e, flag) => if e in w.drivers && Attached(w.sys, e, w.drivers[e]) then StepDriver(w, e, flag) else w
    case Vanish(slot) => w.(cluster := w.cluster.(items := w.cluster.items - {slot}))
    case Create(slot, owned) =>
      var c := w.cluster;
      if slot in c.items then w
      else
        w.(cluster := Cluster(c.items[slot := Item(c.nextUid, c.nextVersion, owned, None, false)], c.nextUid + 1,
                              c.nextVersion + 1))
    case Touch(slot) =>
      var c := w.cluster;
      if slot !in c.items then w
      else
        w.(cluster := c.(items := c.items[slot := c.items[slot].(version := c.nextVersion)],
                         nextVersion := c.nextVersion + 1))
  }

  function Play(w: World, events: seq<Event>): World
    decreases |events|
  {
    if events == [] then w else Play(Next(w, events[0]), events[1..])
  }

  /** Uids and versions are numbered in order, and no two items share a uid. */
  ghost predicate Numbered(c: Cluster) {
    && (forall x :: x in c.items ==> c.items[x].uid < c.nextUid && c.items[x].version < c.nextVersion)
    && (forall x, y :: x in c.items && y in c.items && c.items[x].uid == c.items[y].uid ==> x == y)
  }

  /** A bootstrapped source beside any cluster, before the first deletion. */
  ghost predicate Genesis(w: World) {
    && (exists g: GenerationId, version: nat :: w.sys == Initial(g, version))
    && w.drivers == map[] && w.deletions == [] && Numbered(w.cluster)
  }
}
