/** The GCS adapter around the publication authority: membership guards on every
    request, and a replayable outbox that closes the publications of dead owners. */
module DeathOutbox {
  import opened Ids
  import opened PublicationFacts
  import opened PublicationAuthority
  import opened PublicationInvariants
  import opened PublicationHistory
  import opened PublicationSettlement

  // ------------------------------------------------------------------------
  // Membership

  datatype WorkerEntry = WorkerEntry(home: NodeIncarnation, alive: bool, death: Option<Death>)
  datatype NodeEntry = NodeEntry(incarnation: NodeIncarnation, alive: bool, processExit: bool)
  datatype Membership = Membership(workers: map<WorkerID, WorkerEntry>, nodes: map<NodeID, NodeEntry>)

  // An exact, committed, unexpected death.
  predicate Confirmed(m: Membership, d: Death) {
    d.worker in m.workers && !m.workers[d.worker].alive && m.workers[d.worker].home == d.home
    && m.workers[d.worker].death == Some(d) && d.Unexpected()
  }

  function OwnerDeathOf(m: Membership, w: WorkerID): Option<Death> {
    if w in m.workers && !m.workers[w].alive && m.workers[w].death.Some? && m.workers[w].death.value.Unexpected()
    then m.workers[w].death else None
  }

  predicate NodeOpen(m: Membership, incarnation: NodeIncarnation) {
    incarnation.node in m.nodes && m.nodes[incarnation.node].alive
      && m.nodes[incarnation.node].incarnation == incarnation
  }

  predicate PublisherOpen(m: Membership, p: Publication)
    requires p.TaskPublication?
  {
    NodeOpen(m, p.node) && p.executor in m.workers && m.workers[p.executor].alive
      && m.workers[p.executor].home == p.node
  }

  // An owner the registry never saw is not known to be dead.
  predicate OwnerOpen(m: Membership, w: WorkerID) {
    w in m.workers ==> m.workers[w].alive && NodeOpen(m, m.workers[w].home)
  }

  // Registered deaths name their own worker and incarnation.
  ghost predicate MembershipOk(m: Membership) {
    forall w :: w in m.workers && m.workers[w].death.Some? ==>
      !m.workers[w].alive && m.workers[w].death.value.worker == w && m.workers[w].death.value.home == m.workers[w].home
  }

  // Death facts are immutable; everything else may change.
  ghost predicate Survives(m: Membership, m': Membership) {
    && MembershipOk(m')
    && forall w :: w in m.workers && m.workers[w].death.Some? ==> w in m'.workers && m'.workers[w] == m.workers[w]
  }

  lemma DeathsPersist(m: Membership, m': Membership, w: WorkerID)
    requires Survives(m, m')
    ensures OwnerDeathOf(m, w).Some? ==> OwnerDeathOf(m', w) == OwnerDeathOf(m, w)
  {
  }

  // ------------------------------------------------------------------------
  // The outbox

  datatype Cleanup = Cleanup(publication: Publication, death: Death, releases: seq<Release>, childDeaths: seq<Death>,
                             closed: Option<ClosedHolds>, nodeFenced: bool, nodeFinalized: bool, finished: bool)
  {
    function Released(): set<HoldKey> { set r | r in releases :: r.key }
    function Gone(): set<WorkerID> { set d | d in childDeaths :: d.worker }
    predicate Resolved(key: HoldKey) { key in Released() || key.owner in Gone() }
  }

  datatype Control = Control(gcs: State, work: map<PublicationRef, Cleanup>, admissionClosed: bool)

  // Fence one record of a dead owner, if nothing fenced it yet, and queue its cleanup.
  ghost function CommitOne(c: Control, key: PublicationKey, d: Death): Control {
    if key !in c.gcs.records || c.gcs.records[key].publication.owner != d.worker then c
    else
      var u := c.gcs.records[key];
      var gcs := if u.fence.None? then Apply(c.gcs, FencePublication(u.publication, OwnerDeath(d))).0 else c.gcs;
      c.(gcs := gcs, work := if u.Ref() in c.work then c.work
                             else c.work[u.Ref() := Cleanup(u.publication, d, [], [], u.closed, false, false, false)])
  }

  ghost function CommitAll(c: Control, keys: seq<PublicationKey>, d: Death): Control
    decreases |keys|
  {
    if keys == [] then c else CommitAll(CommitOne(c, keys[0], d), keys[1..], d)
  }

  ghost function CommitDeath(c: Control, d: Death): Control { CommitAll(c, c.gcs.order, d) }

  // ------------------------------------------------------------------------
  // Guarded requests

  function Refused(kind: ErrorKind): Reply { Reply(false, None, None, Some(kind)) }

  // The stage whose first receipt needs live participants.
  function GuardedStage(r: Request): Option<Stage> {
    match r
    case BeginPublication(_) => Some(Intent)
    case PrepareGraph(_) => Some(PreparedGraph)
    case ArmTask(_) => Some(Armed)
    case CommitGraph(_, _) => Some(Committed)
    case _ => None
  }

  // May this request start a forward stage, as far as membership goes?
  predicate Available(m: Membership, r: Request, snapshot: Option<Snapshot>) {
    var publication := if r.BeginPublication? then Some(r.publication)
                       else if snapshot.Some? then Some(snapshot.value.publication) else None;
    var first := GuardedStage(r).Some? && (snapshot.None? || !snapshot.value.Has(GuardedStage(r).value));
    && (r.FencePublication? && r.fence.OwnerDeath? ==> Confirmed(m, r.fence.death))
    && (r.RetireGraph? ==> forall d :: d in r.closed.deaths ==> Confirmed(m, d))
    && (first && publication.Some? ==> OwnerOpen(m, publication.value.owner))
    && (first && publication.Some? && publication.value.TaskPublication? && !r.CommitGraph? ==>
         PublisherOpen(m, publication.value))
    && (first && r.CommitGraph? && r.putPrepared.Some? ==> CommitNodeOpen(m, r.putPrepared.value))
  }

  predicate CommitNodeOpen(m: Membership, prepared: Prepared) {
    prepared.PutPrepared? && prepared.putNode.Some? ==> NodeOpen(m, prepared.putNode.value)
  }

  // A death fence that arrives after another fence only schedules cleanup.
  predicate OnlySchedules(r: Request, snapshot: Option<Snapshot>) {
    && r.FencePublication? && r.fence.OwnerDeath? && snapshot.Some? && snapshot.value.publication == r.publication
    && snapshot.value.fence.Some? && snapshot.value.fence.value != r.fence
  }

  ghost function Handle(c: Control, m: Membership, r: Request): (Control, Reply) {
    var query := Apply(c.gcs, GetPublication(r.Ref())).1;
    if !query.accepted then (c, Reply(false, None, None, query.error))
    else if r.BeginPublication? && c.admissionClosed && (query.snapshot.None? || !query.snapshot.value.Has(Intent)) then
      (c, Refused(InvalidState))
    else if !Available(m, r, query.snapshot) then (c, Refused(Unavailable))
    else if OnlySchedules(r, query.snapshot) then
      (CommitDeath(c, r.fence.death), Reply(true, query.snapshot, query.snapshot.value.At(Fenced), None))
    else
      var (gcs, reply) := Apply(c.gcs, r);
      var applied := c.(gcs := gcs);
      if reply.accepted && reply.snapshot.Some? && !r.GetPublication?
        && OwnerDeathOf(m, reply.snapshot.value.publication.owner).Some? then
        (CommitDeath(applied, OwnerDeathOf(m, reply.snapshot.value.publication.owner).value), reply)
      else (applied, reply)
  }

  // ------------------------------------------------------------------------
  // Driving one cleanup

  // Every hold of the manifest, final before provisional.
  function Requests(transfers: seq<Transfer>): seq<HoldKey> {
    if transfers == [] then [] else [transfers[0].FinalKey(), transfers[0].ProvisionalKey()] + Requests(transfers[1..])
  }

  function NextNeeded(keys: seq<HoldKey>, w: Cleanup): Option<HoldKey> {
    if keys == [] then None
    else if !w.Resolved(keys[0]) then Some(keys[0])
    else NextNeeded(keys[1..], w)
  }

  /** Resolve the first unresolved hold, by a committed death of its owner or by
      that owner's exact reply. */
  function ReleaseOne(w: Cleanup, m: Membership, reply: Option<Release>): (Cleanup, bool) {
    match NextNeeded(Requests(w.publication.transfers), w)
    case None => (w, false)
    case Some(key) =>
      if OwnerDeathOf(m, key.owner).Some? then
        (w.(childDeaths := w.childDeaths + [OwnerDeathOf(m, key.owner).value]), true)
      else if reply.Some? && reply.value.key == key then (w.(releases := w.releases + [reply.value]), true)
      else (w, false)
  }

  // What the outside answers during one drive.
  datatype Weather = Weather(fenced: bool, finalized: Option<ClosedHolds>, released: Option<Release>, sweeping: bool)

  datatype NodeView = Lost | Dying | Living

  function ViewOf(m: Membership, p: Publication): NodeView
    requires p.TaskPublication?
  {
    if p.node.node !in m.nodes || m.nodes[p.node.node].incarnation != p.node then Lost
    else if m.nodes[p.node.node].alive then Living
    else if m.nodes[p.node.node].processExit then Dying else Lost
  }

  // Fence the living Node first, then let it finalize with its own evidence.
  function AskNode(w: Cleanup, m: Membership, ref: PublicationRef, e: Weather): (Cleanup, bool) {
    if !w.nodeFenced then
      if e.fenced then (w.(nodeFenced := true), true) else (w, false)
    else if e.finalized.None? || e.finalized.value.reference != ref
      || !(forall d :: d in e.finalized.value.deaths ==> Confirmed(m, d)) then (w, false)
    else (w.(closed := e.finalized, nodeFinalized := true), true)
  }

  ghost function Drive(c: Control, m: Membership, ref: PublicationRef, e: Weather): (Control, bool)
    requires ref in c.work
  {
    var w := c.work[ref];
    if w.publication.TaskPublication? && !w.nodeFinalized && ViewOf(m, w.publication).Lost? then (c, false)
    else if w.publication.TaskPublication? && !w.nodeFinalized && ViewOf(m, w.publication).Living? then
      var (w', done) := AskNode(w, m, ref, e);
      (c.(work := c.work[ref := w']), done)
    else Settle(c, m, ref, w.(nodeFinalized := w.nodeFinalized || w.publication.TaskPublication?), e)
  }

  ghost function Settle(c: Control, m: Membership, ref: PublicationRef, w: Cleanup, e: Weather): (Control, bool) {
    if w.closed.Some? then Retire(c, ref, w, e)
    else
      var (released, progressed) := ReleaseOne(w, m, e.released);
      if progressed then (c.(work := c.work[ref := released]), true)
      else if NextNeeded(Requests(w.publication.transfers), w).Some? then (c.(work := c.work[ref := w]), false)
      else Retire(c, ref, w.(closed := Some(ClosedHolds(ref, w.releases, w.childDeaths, None))), e)
  }

  ghost function Retire(c: Control, ref: PublicationRef, w: Cleanup, e: Weather): (Control, bool)
    requires w.closed.Some?
  {
    var kept := c.(work := c.work[ref := w]);
    var snapshot := Lookup(c.gcs, ref.key);
    if snapshot.None? then (kept, false)
    else
      var (gcs, reply) := if snapshot.value.Has(Retired) then (c.gcs, Reply(true, snapshot, None, None))
                          else Apply(c.gcs, RetireGraph(w.closed.value));
      if !reply.accepted then (kept, false)
      else if e.sweeping then (kept.(gcs := gcs), false)
      else (c.(gcs := gcs, work := c.work[ref := w.(finished := true)]), true)
  }

  // ------------------------------------------------------------------------
  // What every reachable control state satisfies

  // What one cleanup has gathered so far is exact.
  ghost predicate Progress(w: Cleanup, m: Membership) {
    && (forall i, j :: 0 <= i < j < |w.releases| ==> w.releases[i].key != w.releases[j].key)
    && (forall r :: r in w.releases ==> r.key in Requests(w.publication.transfers))
    && (forall i, j :: 0 <= i < j < |w.childDeaths| ==> w.childDeaths[i].worker != w.childDeaths[j].worker)
    && (forall d :: d in w.childDeaths ==> OwnerDeathOf(m, d.worker) == Some(d) && OwnerOf(w.publication, d.worker))
  }

  ghost predicate OwnerOf(p: Publication, w: WorkerID) { exists t :: t in p.transfers && t.childOwner == w }

  // A queued cleanup belongs to a fenced record and its evidence, if any, is sufficient.
  ghost predicate WorkOk(g: State, m: Membership, ref: PublicationRef, w: Cleanup) {
    && ref.key in g.records
    && var u := g.records[ref.key];
    && u.Ref() == ref && u.publication == w.publication && u.fence.Some?
    && OwnerDeathOf(m, w.publication.owner) == Some(w.death)
    && Progress(w, m)
    && (w.closed.Some? ==> u.closed.Some? || (SettlesAll(w.publication, w.closed.value) && w.closed.value.Valid()))
    && (w.finished ==> u.Has(Retired))
  }

  ghost predicate WorkSound(c: Control, m: Membership) {
    forall ref :: ref in c.work ==> WorkOk(c.gcs, m, ref, c.work[ref])
  }

  // Every publication of a dead owner is fenced and queued.
  ghost predicate QueuedAt(c: Control, m: Membership, key: PublicationKey)
    requires key in c.gcs.records
  {
    var u := c.gcs.records[key];
    OwnerDeathOf(m, u.publication.owner).Some? ==> u.fence.Some? && u.Ref() in c.work
  }

  ghost predicate AllQueued(c: Control, m: Membership) {
    forall k :: k in c.gcs.records ==> QueuedAt(c, m, k)
  }

  ghost predicate ControlInv(c: Control, m: Membership) {
    Inv(c.gcs) && MembershipOk(m) && WorkSound(c, m) && AllQueued(c, m)
  }

  // ------------------------------------------------------------------------
  // Fencing one owner

  predicate ForwardStage(stage: Stage) { stage in {Intent, PreparedGraph, Armed, Committed} }

  // Nobody gained a forward receipt, and every record is still there.
  ghost predicate Calm(g: State, g': State) {
    && Later(g, g')
    && forall k, st :: k in g'.records && ForwardStage(st) && g'.records[k].Has(st) ==>
         k in g.records && g.records[k].Has(st)
  }

  // A record as the invariant describes it, filed under its own key.
  ghost predicate Filing(g: State, u: Snapshot) {
    && u.publication.Key() in g.records && g.records[u.publication.Key()] == u && u.publication.Key() in g.order
    && u.publication.Valid() && SnapshotOk(u)
  }

  lemma RecordIsFiled(g: State, key: PublicationKey)
    requires Inv(g) && key in g.records
    ensures Filing(g, g.records[key]) && g.records[key].publication.Key() == key
  {
  }

  lemma FenceShape(g: State, u: Snapshot, d: Death)
    requires Filing(g, u) && u.fence.None? && d.Unexpected() && d.worker == u.publication.owner
    ensures var r := FencePublication(u.publication, OwnerDeath(d));
      && r.Valid() && BaseFor(g, r, u) && !u.Has(Fenced) && Guard(g, u, r) == None
      && Apply(g, r).0 == Commit(g, u.publication.Key(), Recorded(g, u, r))
      && Apply(g, r).1.accepted
  {
  }

  lemma FenceIsRecorded(g: State, u: Snapshot, d: Death)
    ensures Recorded(g, u, FencePublication(u.publication, OwnerDeath(d))).fence.Some?
  {
  }

  lemma FenceIsCalm(g: State, u: Snapshot, d: Death)
    requires Filing(g, u) && u.fence.None? && d.Unexpected() && d.worker == u.publication.owner
    ensures var g' := Apply(g, FencePublication(u.publication, OwnerDeath(d))).0;
      && Calm(g, g') && g'.order == g.order && g'.records.Keys == g.records.Keys
      && g'.records[u.publication.Key()].fence.Some?
  {
    hide Apply, Guard, BaseFor, Recorded, Later;
    var r := FencePublication(u.publication, OwnerDeath(d));
    FenceShape(g, u, d);
    FenceIsRecorded(g, u, d);
    CommitContinues(g, r, u);
    forall st ensures Recorded(g, u, r).Has(st) ==> u.Has(st) || st == Fenced {
      RecordedAt(g, u, r, st);
    }
  }

  // Work entries stay good while records only continue and deaths persist.
  lemma WorkContinues(g: State, g': State, m: Membership, m': Membership, ref: PublicationRef, w: Cleanup)
    requires WorkOk(g, m, ref, w) && Later(g, g') && (m == m' || Survives(m, m'))
    ensures WorkOk(g', m', ref, w)
  {
    var o, u := g.records[ref.key], g'.records[ref.key];
    assert Continues(o, u, g.sequence);
    StagesContinue(o, u, g.sequence, Retired);
  }

  ghost predicate Handled(c: Control, key: PublicationKey, d: Death) {
    key in c.gcs.records && c.gcs.records[key].publication.owner == d.worker ==>
      c.gcs.records[key].fence.Some? && c.gcs.records[key].Ref() in c.work
  }

  // What fencing may change besides the authority's invariant.
  ghost predicate Tidied(c: Control, c': Control, m: Membership) {
    Calm(c.gcs, c'.gcs) && c'.gcs.order == c.gcs.order && WorkSound(c', m) && c.work.Keys <= c'.work.Keys
  }

  lemma CommitOneTidies(c: Control, m: Membership, key: PublicationKey, d: Death)
    requires WorkSound(c, m) && OwnerDeathOf(m, d.worker) == Some(d)
    requires key in c.gcs.records ==> Filing(c.gcs, c.gcs.records[key]) && c.gcs.records[key].publication.Key() == key
    ensures Tidied(c, CommitOne(c, key, d), m) && Handled(CommitOne(c, key, d), key, d)
  {
    var c' := CommitOne(c, key, d);
    CalmIsReflexive(c.gcs);
    if key in c.gcs.records && c.gcs.records[key].publication.owner == d.worker {
      var u := c.gcs.records[key];
      if u.fence.None? {
        FenceIsCalm(c.gcs, u, d);
      }
      CommitOneWork(c, m, key, d);
    }
  }

  lemma CommitOneWork(c: Control, m: Membership, key: PublicationKey, d: Death)
    requires WorkSound(c, m) && OwnerDeathOf(m, d.worker) == Some(d)
    requires key in c.gcs.records && c.gcs.records[key].publication.Key() == key
    requires c.gcs.records[key].publication.owner == d.worker
    requires Calm(c.gcs, CommitOne(c, key, d).gcs) && CommitOne(c, key, d).gcs.records[key].fence.Some?
    ensures WorkSound(CommitOne(c, key, d), m)
  {
    hide WorkOk, Apply, Later;
    var c' := CommitOne(c, key, d);
    NewWorkIsOk(c, c'.gcs, m, key, d);
    forall ref | ref in c'.work ensures WorkOk(c'.gcs, m, ref, c'.work[ref]) {
      if ref in c.work {
        WorkContinues(c.gcs, c'.gcs, m, m, ref, c.work[ref]);
      }
    }
  }

  lemma NewWorkIsOk(c: Control, g: State, m: Membership, key: PublicationKey, d: Death)
    requires OwnerDeathOf(m, d.worker) == Some(d) && key in c.gcs.records && c.gcs.records[key].publication.Key() == key
    requires c.gcs.records[key].publication.owner == d.worker && Later(c.gcs, g) && g.records[key].fence.Some?
    ensures var u := c.gcs.records[key];
      WorkOk(g, m, u.Ref(), Cleanup(u.publication, d, [], [], u.closed, false, false, false))
  {
    hide SettlesAll;
    assert Continues(c.gcs.records[key], g.records[key], c.gcs.sequence);
  }

  lemma CommitOneKeepsInv(c: Control, key: PublicationKey, d: Death)
    requires Inv(c.gcs) && d.Unexpected()
    ensures Inv(CommitOne(c, key, d).gcs)
  {
    if key in c.gcs.records && c.gcs.records[key].publication.owner == d.worker {
      RecordIsFiled(c.gcs, key);
      ApplyKeepsInv(c.gcs, FencePublication(c.gcs.records[key].publication, OwnerDeath(d)));
    }
  }

  lemma CalmIsReflexive(g: State)
    ensures Calm(g, g)
  {
    LaterIsReflexive(g);
  }

  lemma CalmIsTransitive(a: State, b: State, c: State)
    requires Calm(a, b) && Calm(b, c)
    ensures Calm(a, c)
  {
    LaterIsTransitive(a, b, c);
  }

  lemma HandledContinues(c: Control, c': Control, key: PublicationKey, d: Death)
    requires Handled(c, key, d) && Later(c.gcs, c'.gcs) && c.work.Keys <= c'.work.Keys && key in c.gcs.records
    ensures Handled(c', key, d)
  {
    assert Continues(c.gcs.records[key], c'.gcs.records[key], c.gcs.sequence);
  }

  lemma TidiedTwice(a: Control, b: Control, c: Control, m: Membership)
    requires Tidied(a, b, m) && Tidied(b, c, m)
    ensures Tidied(a, c, m)
  {
    CalmIsTransitive(a.gcs, b.gcs, c.gcs);
  }

  lemma {:induction false} CommitAllKeepsInv(c: Control, keys: seq<PublicationKey>, d: Death)
    requires Inv(c.gcs) && d.Unexpected()
    ensures Inv(CommitAll(c, keys, d).gcs)
    decreases |keys|
  {
    if keys == [] {
    } else {
      CommitOneKeepsInv(c, keys[0], d);
      CommitAllKeepsInv(CommitOne(c, keys[0], d), keys[1..], d);
    }
  }

  lemma CommitOneStep(c: Control, m: Membership, key: PublicationKey, d: Death)
    requires Inv(c.gcs) && WorkSound(c, m) && OwnerDeathOf(m, d.worker) == Some(d)
    ensures Tidied(c, CommitOne(c, key, d), m) && Handled(CommitOne(c, key, d), key, d)
    ensures Inv(CommitOne(c, key, d).gcs)
  {
    if key in c.gcs.records {
      RecordIsFiled(c.gcs, key);
    }
    CommitOneTidies(c, m, key, d);
    CommitOneKeepsInv(c, key, d);
  }

  lemma {:induction false} CommitAllTidies(c: Control, m: Membership, keys: seq<PublicationKey>, d: Death)
    requires Inv(c.gcs) && WorkSound(c, m) && OwnerDeathOf(m, d.worker) == Some(d)
    ensures Tidied(c, CommitAll(c, keys, d), m)
    decreases |keys|
  {
    if keys == [] {
      CalmIsReflexive(c.gcs);
    } else {
      CommitOneStep(c, m, keys[0], d);
      CommitAllTidies(CommitOne(c, keys[0], d), m, keys[1..], d);
      TidiedTwice(c, CommitOne(c, keys[0], d), CommitAll(c, keys, d), m);
    }
  }

  lemma {:induction false} CommitAllHandles(c: Control, m: Membership, keys: seq<PublicationKey>, d: Death,
                                            key: PublicationKey)
    requires Inv(c.gcs) && WorkSound(c, m) && OwnerDeathOf(m, d.worker) == Some(d)
    requires key in keys && key in c.gcs.records
    ensures Handled(CommitAll(c, keys, d), key, d)
    decreases |keys|
  {
    var mid := CommitOne(c, keys[0], d);
    CommitOneStep(c, m, keys[0], d);
    if key == keys[0] {
      CommitAllTidies(mid, m, keys[1..], d);
      HandledContinues(mid, CommitAll(c, keys, d), key, d);
    } else {
      CommitAllHandles(mid, m, keys[1..], d, key);
    }
  }

  /** Committing a death fences and queues every publication of its owner. */
  lemma CommitDeathKeeps(c: Control, m: Membership, d: Death)
    requires Inv(c.gcs) && WorkSound(c, m) && OwnerDeathOf(m, d.worker) == Some(d)
    ensures Inv(CommitDeath(c, d).gcs) && Tidied(c, CommitDeath(c, d), m)
    ensures forall k :: k in c.gcs.records ==> Handled(CommitDeath(c, d), k, d)
  {
    CommitAllKeepsInv(c, c.gcs.order, d);
    CommitAllTidies(c, m, c.gcs.order, d);
    forall k | k in c.gcs.records ensures Handled(CommitDeath(c, d), k, d) {
      RecordIsFiled(c.gcs, k);
      CommitAllHandles(c, m, c.gcs.order, d, k);
    }
  }

  // ------------------------------------------------------------------------
  // A guarded request keeps it

  lemma QueuedContinues(c: Control, c': Control, m: Membership, key: PublicationKey)
    requires key in c.gcs.records && QueuedAt(c, m, key) && Later(c.gcs, c'.gcs) && c.work.Keys <= c'.work.Keys
    ensures key in c'.gcs.records && QueuedAt(c', m, key)
  {
    assert Continues(c.gcs.records[key], c'.gcs.records[key], c.gcs.sequence);
  }

  lemma SameKeys(g: State, g': State)
    requires Inv(g) && Inv(g') && g'.order == g.order
    ensures g'.records.Keys == g.records.Keys
  {
    forall k ensures k in g'.records <==> k in g.records {
      assert (k in g'.records <==> k in g'.order) && (k in g.records <==> k in g.order);
    }
  }

  // Everything is queued but possibly the publications of these owners.
  ghost predicate QueuedExcept(c: Control, m: Membership, owners: set<WorkerID>) {
    forall k :: k in c.gcs.records && c.gcs.records[k].publication.owner !in owners ==> QueuedAt(c, m, k)
  }

  // After the fencing pass, whatever was queued still is, and so is the dead owner's rest.
  lemma DeathCommitted(c: Control, m: Membership, d: Death, owners: set<WorkerID>)
    requires Inv(c.gcs) && WorkSound(c, m) && OwnerDeathOf(m, d.worker) == Some(d) && QueuedExcept(c, m, owners)
    ensures Inv(CommitDeath(c, d).gcs) && WorkSound(CommitDeath(c, d), m) && Calm(c.gcs, CommitDeath(c, d).gcs)
    ensures QueuedExcept(CommitDeath(c, d), m, owners - {d.worker})
  {
    CommitDeathKeeps(c, m, d);
    SameKeys(c.gcs, CommitDeath(c, d).gcs);
    QueuedAfter(c, CommitDeath(c, d), m, d, owners);
  }

  lemma QueuedAfter(c: Control, c': Control, m: Membership, d: Death, owners: set<WorkerID>)
    requires Tidied(c, c', m) && c'.gcs.records.Keys == c.gcs.records.Keys && QueuedExcept(c, m, owners)
    requires forall k :: k in c.gcs.records ==> Handled(c', k, d)
    ensures QueuedExcept(c', m, owners - {d.worker})
  {
    forall k | k in c'.gcs.records && c'.gcs.records[k].publication.owner !in owners - {d.worker}
      ensures QueuedAt(c', m, k)
    {
      assert k in c.gcs.records && Continues(c.gcs.records[k], c'.gcs.records[k], c.gcs.sequence);
      DeathCommittedAt(c, c', m, d, k);
    }
  }

  lemma DeathCommittedAt(c: Control, c': Control, m: Membership, d: Death, k: PublicationKey)
    requires Later(c.gcs, c'.gcs) && c.work.Keys <= c'.work.Keys && Handled(c', k, d) && k in c.gcs.records
    requires c.gcs.records[k].publication.owner != d.worker ==> QueuedAt(c, m, k)
    ensures k in c'.gcs.records && QueuedAt(c', m, k)
  {
    assert Continues(c.gcs.records[k], c'.gcs.records[k], c.gcs.sequence);
  }

  lemma AppliedWork(c: Control, m: Membership, r: Request)
    requires WorkSound(c, m) && Later(c.gcs, Apply(c.gcs, r).0)
    ensures WorkSound(c.(gcs := Apply(c.gcs, r).0), m)
  {
    var c' := c.(gcs := Apply(c.gcs, r).0);
    forall ref | ref in c'.work ensures WorkOk(c'.gcs, m, ref, c'.work[ref]) {
      WorkContinues(c.gcs, c'.gcs, m, m, ref, c.work[ref]);
    }
  }

  lemma AppliedQueue(c: Control, m: Membership, r: Request, k: PublicationKey)
    requires Keyed(c.gcs) && AllQueued(c, m) && !r.GetPublication? && Apply(c.gcs, r).1.accepted
    requires k in Apply(c.gcs, r).0.records
    requires k == r.Ref().key ==> OwnerDeathOf(m, Apply(c.gcs, r).0.records[k].publication.owner).None?
    ensures QueuedAt(c.(gcs := Apply(c.gcs, r).0), m, k)
  {
    AcceptedSnapshot(c.gcs, r);
    if k != r.Ref().key {
      assert QueuedAt(c, m, k);
    }
  }

  lemma AppliedControl(c: Control, m: Membership, r: Request)
    requires ControlInv(c, m) && r.Valid() && !r.GetPublication? && Apply(c.gcs, r).1.accepted
    ensures var applied, reply := c.(gcs := Apply(c.gcs, r).0), Apply(c.gcs, r).1;
      reply.snapshot.Some? &&
      var death := OwnerDeathOf(m, reply.snapshot.value.publication.owner);
      ControlInv(if death.Some? then CommitDeath(applied, death.value) else applied, m)
  {
    hide Inv, WorkOk, QueuedAt, Apply, Later, Calm;
    var applied := c.(gcs := Apply(c.gcs, r).0);
    StepContinues(c.gcs, r);
    InvFiles(c.gcs);
    AcceptedSnapshot(c.gcs, r);
    AppliedWork(c, m, r);
    var death := OwnerDeathOf(m, applied.gcs.records[r.Ref().key].publication.owner);
    forall k | k in applied.gcs.records && (k == r.Ref().key ==> death.None?) ensures QueuedAt(applied, m, k) {
      AppliedQueue(c, m, r, k);
    }
    if death.Some? {
      DeathCommitted(applied, m, death.value, {death.value.worker});
    }
  }

  lemma InvFiles(g: State)
    requires Inv(g)
    ensures Keyed(g)
  {
  }

  lemma HandleKeepsInv(c: Control, m: Membership, r: Request)
    requires ControlInv(c, m) && r.Valid()
    ensures ControlInv(Handle(c, m, r).0, m)
  {
    var query := Apply(c.gcs, GetPublication(r.Ref())).1;
    if OnlySchedules(r, query.snapshot) && Available(m, r, query.snapshot) {
      DeathCommitted(c, m, r.fence.death, {});
    }
    if !r.GetPublication? && Apply(c.gcs, r).1.accepted {
      AppliedControl(c, m, r);
    } else {
      RefusedUnchanged(c.gcs, r);
    }
  }

  // ------------------------------------------------------------------------
  // Dead owners are stopped

  // Publications of owners dead in `m` gained no forward receipt.
  ghost predicate Stopped(g: State, g': State, m: Membership) {
    forall k, st | k in g'.records && ForwardStage(st) && g'.records[k].Has(st) ::
      OwnerDeathOf(m, g'.records[k].publication.owner).Some? ==> k in g.records && g.records[k].Has(st)
  }

  lemma DeadIsRefused(g: State, m: Membership, r: Request, base: Snapshot)
    requires BaseFor(g, r, base) && !base.Has(r.StageOf()) && Available(m, r, Lookup(g, r.Ref().key))
    requires ForwardStage(r.StageOf())
    ensures OwnerDeathOf(m, base.publication.owner).None?
  {
    assert OwnerOpen(m, base.publication.owner);
  }

  lemma CommitStops(g: State, m: Membership, r: Request, base: Snapshot)
    requires BaseFor(g, r, base) && !base.Has(r.StageOf()) && Available(m, r, Lookup(g, r.Ref().key))
    ensures Stopped(g, Commit(g, r.Ref().key, Recorded(g, base, r)), m)
  {
    forall st ensures Recorded(g, base, r).Has(st) ==> base.Has(st) || st == r.StageOf() {
      RecordedAt(g, base, r, st);
    }
    if ForwardStage(r.StageOf()) {
      DeadIsRefused(g, m, r, base);
    }
    assert Recorded(g, base, r).publication == base.publication;
    if r.Ref().key !in g.records {
      assert forall st :: !base.Has(st);
    }
  }

  lemma ApplyStops(g: State, m: Membership, r: Request)
    requires Keyed(g) && Available(m, r, Lookup(g, r.Ref().key))
    ensures Stopped(g, Apply(g, r).0, m)
  {
    var base := ApplyShape(g, r);
    if Apply(g, r).0 != g {
      CommitStops(g, m, r, base);
    }
  }

  lemma StoppedThenCalm(g: State, g': State, g'': State, m: Membership)
    requires Stopped(g, g', m) && Calm(g', g'')
    ensures Stopped(g, g'', m)
  {
    forall k, st | k in g''.records && ForwardStage(st) && g''.records[k].Has(st)
      && OwnerDeathOf(m, g''.records[k].publication.owner).Some?
      ensures k in g.records && g.records[k].Has(st)
    {
      assert k in g'.records && g'.records[k].Has(st);
      assert Continues(g'.records[k], g''.records[k], g'.sequence);
    }
  }

  lemma CalmStops(g: State, g': State, m: Membership)
    requires Calm(g, g')
    ensures Stopped(g, g', m)
  {
  }

  lemma CommitIsCalm(c: Control, m: Membership, d: Death)
    requires Inv(c.gcs) && WorkSound(c, m) && OwnerDeathOf(m, d.worker) == Some(d)
    ensures Calm(c.gcs, CommitDeath(c, d).gcs)
  {
    CommitDeathKeeps(c, m, d);
  }

  // The four ways a guarded request can end.
  lemma HandleShape(c: Control, m: Membership, r: Request) returns (d: Option<Death>)
    requires MembershipOk(m)
    ensures var c', applied := Handle(c, m, r).0, c.(gcs := Apply(c.gcs, r).0);
      || c' == c
      || (Available(m, r, Lookup(c.gcs, r.Ref().key))
          && (d.Some? ==> OwnerDeathOf(m, d.value.worker) == d)
          && (c' == applied || (d.Some? && c' in {CommitDeath(c, d.value), CommitDeath(applied, d.value)})))
  {
    var query := Apply(c.gcs, GetPublication(r.Ref())).1;
    d := None;
    if query.accepted && Available(m, r, query.snapshot) {
      if OnlySchedules(r, query.snapshot) {
        d := Some(r.fence.death);
      } else if Apply(c.gcs, r).1.snapshot.Some? {
        d := OwnerDeathOf(m, Apply(c.gcs, r).1.snapshot.value.publication.owner);
      }
    }
  }

  lemma HandleStops(c: Control, m: Membership, r: Request)
    requires ControlInv(c, m) && r.Valid()
    ensures Stopped(c.gcs, Handle(c, m, r).0.gcs, m)
  {
    var d := HandleShape(c, m, r);
    CalmIsReflexive(c.gcs);
    CalmStops(c.gcs, c.gcs, m);
    if Handle(c, m, r).0 != c {
      AppliedStops(c, m, r);
      if d.Some? {
        CommitIsCalm(c, m, d.value);
        CalmStops(c.gcs, CommitDeath(c, d.value).gcs, m);
      }
    }
  }

  lemma AppliedStops(c: Control, m: Membership, r: Request)
    requires ControlInv(c, m) && r.Valid() && Available(m, r, Lookup(c.gcs, r.Ref().key))
    ensures Stopped(c.gcs, Apply(c.gcs, r).0, m)
    ensures forall d: Death :: OwnerDeathOf(m, d.worker) == Some(d) ==>
              Stopped(c.gcs, CommitDeath(c.(gcs := Apply(c.gcs, r).0), d).gcs, m)
  {
    var applied := c.(gcs := Apply(c.gcs, r).0);
    InvFiles(c.gcs);
    ApplyStops(c.gcs, m, r);
    StepContinues(c.gcs, r);
    AppliedWork(c, m, r);
    forall d: Death | OwnerDeathOf(m, d.worker) == Some(d) ensures Stopped(c.gcs, CommitDeath(applied, d).gcs, m) {
      CommitIsCalm(applied, m, d);
      StoppedThenCalm(c.gcs, applied.gcs, CommitDeath(applied, d).gcs, m);
    }
  }

  // ------------------------------------------------------------------------
  // One drive of a cleanup

  lemma {:induction false} RequestsAre(ts: seq<Transfer>)
    ensures forall k :: k in Requests(ts) <==> exists t :: t in ts && (k == t.FinalKey() || k == t.ProvisionalKey())
  {
    if ts == [] {
    } else {
      RequestsAre(ts[1..]);
      assert ts == [ts[0]] + ts[1..];
    }
  }

  lemma {:induction false} NextNeededIs(keys: seq<HoldKey>, w: Cleanup)
    ensures match NextNeeded(keys, w)
            case None => forall k :: k in keys ==> w.Resolved(k)
            case Some(key) => key in keys && !w.Resolved(key)
  {
    if keys == [] {
    } else {
      NextNeededIs(keys[1..], w);
      assert keys == [keys[0]] + keys[1..];
    }
  }

  // How many of the manifest's holds still need an answer.
  function Unresolved(keys: seq<HoldKey>, w: Cleanup): (n: nat)
    ensures n <= |keys|
  {
    if keys == [] then 0 else (if w.Resolved(keys[0]) then 0 else 1) + Unresolved(keys[1..], w)
  }

  ghost predicate Advances(w: Cleanup, w': Cleanup) {
    w.Released() <= w'.Released() && w.Gone() <= w'.Gone()
  }

  lemma {:induction false} UnresolvedDrops(keys: seq<HoldKey>, w: Cleanup, w': Cleanup)
    requires Advances(w, w')
    ensures Unresolved(keys, w') <= Unresolved(keys, w)
    ensures NextNeeded(keys, w).Some? && w'.Resolved(NextNeeded(keys, w).value) ==>
      Unresolved(keys, w') < Unresolved(keys, w)
  {
    if keys == [] {
    } else {
      UnresolvedDrops(keys[1..], w, w');
    }
  }

  lemma ReleaseKeepsProgress(w: Cleanup, m: Membership, reply: Release)
    requires Progress(w, m) && reply.key in Requests(w.publication.transfers) && !w.Resolved(reply.key)
    ensures var w' := w.(releases := w.releases + [reply]);
      Progress(w', m) && Advances(w, w') && w'.Resolved(reply.key)
  {
    var w' := w.(releases := w.releases + [reply]);
    assert w'.releases[|w.releases|] == reply && reply in w'.releases;
  }

  lemma DeathKeepsProgress(w: Cleanup, m: Membership, key: HoldKey, d: Death)
    requires Progress(w, m) && MembershipOk(m) && key in Requests(w.publication.transfers) && !w.Resolved(key)
    requires OwnerDeathOf(m, key.owner) == Some(d)
    ensures var w' := w.(childDeaths := w.childDeaths + [d]);
      Progress(w', m) && Advances(w, w') && w'.Resolved(key)
  {
    var w' := w.(childDeaths := w.childDeaths + [d]);
    RequestsAre(w.publication.transfers);
    assert OwnerOf(w.publication, d.worker);
    assert w'.childDeaths[|w.childDeaths|] == d && d in w'.childDeaths;
  }

  /** Each successful release or confirmed death leaves strictly fewer holds
      unresolved, at most two per transfer to begin with. */
  lemma ReleaseOneAdvances(w: Cleanup, m: Membership, reply: Option<Release>)
    requires MembershipOk(m) && Progress(w, m)
    ensures var (w', progressed), keys := ReleaseOne(w, m, reply), Requests(w.publication.transfers);
      && Progress(w', m) && w' == w.(releases := w'.releases, childDeaths := w'.childDeaths)
      && (progressed ==> Unresolved(keys, w') < Unresolved(keys, w))
      && (!progressed ==> w' == w)
  {
    var keys := Requests(w.publication.transfers);
    NextNeededIs(keys, w);
    var (w', progressed) := ReleaseOne(w, m, reply);
    if progressed {
      var key := NextNeeded(keys, w).value;
      if OwnerDeathOf(m, key.owner).Some? {
        DeathKeepsProgress(w, m, key, OwnerDeathOf(m, key.owner).value);
      } else {
        ReleaseKeepsProgress(w, m, reply.value);
      }
      UnresolvedDrops(keys, w, w');
    }
  }

  lemma {:induction false} RequestsBound(ts: seq<Transfer>)
    ensures |Requests(ts)| == 2 * |ts|
  {
    if ts == [] {
    } else {
      RequestsBound(ts[1..]);
    }
  }

  function Gathered(ref: PublicationRef, w: Cleanup): ClosedHolds { ClosedHolds(ref, w.releases, w.childDeaths, None) }

  /** Once nothing is unresolved, the gathered evidence is well-formed and settles everything. */
  lemma GatheredSettles(w: Cleanup, m: Membership)
    requires Progress(w, m) && MembershipOk(m) && NextNeeded(Requests(w.publication.transfers), w).None?
    ensures Gathered(w.publication.Ref(), w).Valid() && SettlesAll(w.publication, Gathered(w.publication.Ref(), w))
  {
    var p, closed := w.publication, Gathered(w.publication.Ref(), w);
    NextNeededIs(Requests(p.transfers), w);
    RequestsAre(p.transfers);
    assert closed.Released() == w.Released() && closed.Dead() == w.Gone();
    forall t | t in p.transfers ensures Settled(closed, t.FinalKey()) && Settled(closed, t.ProvisionalKey()) {
      assert t.FinalKey() in Requests(p.transfers) && t.ProvisionalKey() in Requests(p.transfers);
    }
    GatheredWithin(w, m);
  }

  lemma GatheredWithin(w: Cleanup, m: Membership)
    requires Progress(w, m)
    ensures WithinManifest(w.publication, Gathered(w.publication.Ref(), w))
  {
    var p := w.publication;
    RequestsAre(p.transfers);
    forall r | r in w.releases ensures r.key in AllHolds(p.transfers) {
      var t :| t in p.transfers && (r.key == t.FinalKey() || r.key == t.ProvisionalKey());
    }
    forall d | d in w.childDeaths ensures d.worker in set t | t in p.transfers :: t.childOwner {
      assert OwnerOf(p, d.worker);
    }
  }

  // A finalization reply is the well-formed evidence that the Node built from
  // the answers to every release of the manifest.
  ghost predicate Honest(w: Cleanup, e: Weather) {
    e.finalized.Some? ==> e.finalized.value.Valid() && BuiltFromAnswers(w.publication, e.finalized.value)
  }

  ghost predicate BuiltFromAnswers(p: Publication, closed: ClosedHolds) {
    exists answers :: EveryReleaseAnswered(p, answers) && closed == OwnerDeathClosed(p, answers)
  }

  // Such evidence is sufficient, whatever the answers were.
  lemma HonestSettles(w: Cleanup, e: Weather)
    requires Honest(w, e) && e.finalized.Some?
    ensures e.finalized.value.Valid() && SettlesAll(w.publication, e.finalized.value)
  {
    var p := w.publication;
    var answers :| EveryReleaseAnswered(p, answers) && e.finalized.value == OwnerDeathClosed(p, answers);
    OwnerDeathSettlesAll(p, answers);
  }

  lemma RetireShape(g: State, u: Snapshot, closed: ClosedHolds)
    requires Filing(g, u) && closed.reference == u.Ref() && u.fence.Some? && u.closed.None? && !u.Has(Retired)
    requires CheckClosed(u, closed) == None
    ensures var r := RetireGraph(closed);
      && Apply(g, r).1.accepted && BaseFor(g, r, u)
      && Apply(g, r).0 == Commit(g, u.publication.Key(), Recorded(g, u, r))
  {
  }

  lemma RetireGuard(g: State, u: Snapshot, closed: ClosedHolds)
    requires Filing(g, u) && closed.reference == u.Ref() && u.fence.Some? && u.closed.None?
    requires CheckClosed(u, closed) == None
    ensures Guard(g, u, RetireGraph(closed)) == None && FactsOk(u) && u.Ref().key == u.publication.Key()
  {
    hide CheckClosed;
  }

  lemma RetireIsCalm(g: State, u: Snapshot, closed: ClosedHolds)
    requires Filing(g, u) && closed.reference == u.Ref() && u.fence.Some? && u.closed.None? && !u.Has(Retired)
    requires CheckClosed(u, closed) == None
    ensures Apply(g, RetireGraph(closed)).1.accepted
    ensures Calm(g, Apply(g, RetireGraph(closed)).0)
    ensures Apply(g, RetireGraph(closed)).0.records.Keys == g.records.Keys
    ensures Apply(g, RetireGraph(closed)).0.records[u.publication.Key()].Has(Retired)
  {
    hide Apply, Guard, BaseFor, Recorded, CheckClosed, SnapshotOk, Later;
    var r := RetireGraph(closed);
    RetireGuard(g, u, closed);
    RetireShape(g, u, closed);
    CommitContinues(g, r, u);
    forall st ensures Recorded(g, u, r).Has(st) == (u.Has(st) || st == Retired) {
      RecordedAt(g, u, r, st);
    }
  }

  // The evidence of a queued cleanup is accepted unless the graph is already retired.
  lemma EvidenceAccepted(c: Control, m: Membership, ref: PublicationRef, w: Cleanup)
    requires WorkOk(c.gcs, m, ref, w) && w.closed.Some? && Filing(c.gcs, c.gcs.records[ref.key])
    requires !c.gcs.records[ref.key].Has(Retired)
    ensures Apply(c.gcs, RetireGraph(w.closed.value)).1.accepted && w.closed.value.Valid()
    ensures Calm(c.gcs, Apply(c.gcs, RetireGraph(w.closed.value)).0)
    ensures ref.key in Apply(c.gcs, RetireGraph(w.closed.value)).0.records
    ensures Apply(c.gcs, RetireGraph(w.closed.value)).0.records[ref.key].Has(Retired)
    ensures Apply(c.gcs, RetireGraph(w.closed.value)).0.records.Keys == c.gcs.records.Keys
  {
    var u := c.gcs.records[ref.key];
    assert u.closed.None?;
    SettlesAllPasses(w.publication, w.closed.value, u);
    RetireIsCalm(c.gcs, u, w.closed.value);
  }

  // ------------------------------------------------------------------------
  // A drive keeps the invariant, stops nothing else and makes progress

  // What is left to do, counted in successful drives.
  function Remaining(w: Cleanup): nat {
    (if w.publication.TaskPublication? && !w.nodeFinalized then (if w.nodeFenced then 1 else 2) else 0)
    + (if w.closed.None? then Unresolved(Requests(w.publication.transfers), w) else 0)
    + (if w.finished then 0 else 1)
  }

  lemma RemainingBound(w: Cleanup)
    ensures Remaining(w) <= 2 * |w.publication.transfers| + 3
  {
    RequestsBound(w.publication.transfers);
  }

  // One entry was replaced by a good one and the records only continued calmly.
  ghost predicate Driven(c: Control, c': Control, m: Membership, ref: PublicationRef)
    requires ref in c.work
  {
    && ref in c'.work && c'.work == c.work[ref := c'.work[ref]]
    && WorkOk(c'.gcs, m, ref, c'.work[ref]) && c'.work[ref].publication == c.work[ref].publication
    && Calm(c.gcs, c'.gcs) && c'.gcs.records.Keys == c.gcs.records.Keys && RetiredBy(c.gcs, c'.gcs)
  }

  // The only request a drive applies is a retirement.
  ghost predicate RetiredBy(g: State, g': State) {
    g' == g || exists closed: ClosedHolds :: closed.Valid() && g' == Apply(g, RetireGraph(closed)).0
  }

  lemma DrivenKeepsWork(c: Control, c': Control, m: Membership, ref: PublicationRef)
    requires ref in c.work && WorkSound(c, m) && AllQueued(c, m) && Driven(c, c', m, ref)
    ensures WorkSound(c', m) && AllQueued(c', m)
  {
    hide WorkOk, QueuedAt, RetiredBy, Later;
    forall other | other in c'.work ensures WorkOk(c'.gcs, m, other, c'.work[other]) {
      if other != ref {
        WorkContinues(c.gcs, c'.gcs, m, m, other, c.work[other]);
      }
    }
    forall k | k in c'.gcs.records ensures QueuedAt(c', m, k) {
      QueuedContinues(c, c', m, k);
    }
  }

  lemma FinishedIsOk(g: State, m: Membership, ref: PublicationRef, w: Cleanup)
    requires WorkOk(g, m, ref, w) && g.records[ref.key].Has(Retired)
    ensures WorkOk(g, m, ref, w.(finished := true))
  {
    hide SettlesAll;
    SameProgress(w, w.(finished := true), m);
  }

  // The authority after a retirement that is due, or was done before.
  ghost function RetiredState(c: Control, ref: PublicationRef, w: Cleanup): State
    requires ref.key in c.gcs.records && w.closed.Some?
  {
    if c.gcs.records[ref.key].Has(Retired) then c.gcs else Apply(c.gcs, RetireGraph(w.closed.value)).0
  }

  lemma RetiredStateIsGood(c: Control, m: Membership, ref: PublicationRef, w: Cleanup)
    requires WorkOk(c.gcs, m, ref, w) && w.closed.Some? && Filing(c.gcs, c.gcs.records[ref.key])
    ensures var g := RetiredState(c, ref, w);
      && Calm(c.gcs, g) && g.records.Keys == c.gcs.records.Keys && RetiredBy(c.gcs, g)
      && ref.key in g.records && g.records[ref.key].Has(Retired) && WorkOk(g, m, ref, w)
  {
    hide WorkOk, Apply, Filing;
    WorkNames(c.gcs, m, ref, w);
    CalmIsReflexive(c.gcs);
    if !c.gcs.records[ref.key].Has(Retired) {
      EvidenceAccepted(c, m, ref, w);
    }
    WorkContinues(c.gcs, RetiredState(c, ref, w), m, m, ref, w);
  }

  lemma RetireIs(c: Control, m: Membership, ref: PublicationRef, w: Cleanup, e: Weather)
    requires WorkOk(c.gcs, m, ref, w) && w.closed.Some? && !w.finished && Filing(c.gcs, c.gcs.records[ref.key])
    ensures Retire(c, ref, w, e) ==
      (c.(gcs := RetiredState(c, ref, w), work := c.work[ref := w.(finished := !e.sweeping)]), !e.sweeping)
  {
    hide Apply, Filing, Calm;
    if !c.gcs.records[ref.key].Has(Retired) {
      EvidenceAccepted(c, m, ref, w);
    }
  }

  lemma RetireDrives(c: Control, m: Membership, ref: PublicationRef, w: Cleanup, e: Weather)
    requires ref in c.work && WorkOk(c.gcs, m, ref, w) && w.closed.Some? && !w.finished
    requires Filing(c.gcs, c.gcs.records[ref.key]) && w.publication == c.work[ref].publication
    ensures var (c', done) := Retire(c, ref, w, e);
      && Driven(c, c', m, ref) && c'.work[ref] == w.(finished := done) && done == !e.sweeping
      && c'.gcs.records[ref.key].Has(Retired)
  {
    hide Retire, WorkOk, Calm, RetiredBy, Filing, RetiredState;
    RetireIs(c, m, ref, w, e);
    RetiredStateIsGood(c, m, ref, w);
    if !e.sweeping { FinishedIsOk(RetiredState(c, ref, w), m, ref, w); }
  }

  lemma GatheredIsOk(g: State, m: Membership, ref: PublicationRef, w: Cleanup)
    requires WorkOk(g, m, ref, w) && MembershipOk(m) && NextNeeded(Requests(w.publication.transfers), w).None?
    ensures WorkOk(g, m, ref, w.(closed := Some(Gathered(ref, w))))
  {
    hide SettlesAll;
    GatheredSettles(w, m);
    SameProgress(w, w.(closed := Some(Gathered(ref, w))), m);
  }

  lemma ReleasedIsOk(g: State, m: Membership, ref: PublicationRef, w: Cleanup, reply: Option<Release>)
    requires WorkOk(g, m, ref, w) && MembershipOk(m)
    ensures WorkOk(g, m, ref, ReleaseOne(w, m, reply).0) && Progress(w, m)
  {
    hide SettlesAll, ReleaseOne;
    ReleaseOneAdvances(w, m, reply);
  }

  // Replacing the entry alone is a drive.
  lemma EntryDrives(c: Control, m: Membership, ref: PublicationRef, w: Cleanup)
    requires ref in c.work && WorkOk(c.gcs, m, ref, w) && w.publication == c.work[ref].publication
    ensures Driven(c, c.(work := c.work[ref := w]), m, ref)
  {
    hide WorkOk, Calm;
    CalmIsReflexive(c.gcs);
  }

  lemma ReleasedRemains(w: Cleanup, m: Membership, reply: Option<Release>)
    requires MembershipOk(m) && Progress(w, m) && w.closed.None?
    ensures var (w', progressed) := ReleaseOne(w, m, reply);
      && w'.publication == w.publication && w'.finished == w.finished
      && (progressed ==> Remaining(w') < Remaining(w))
  {
    hide ReleaseOne, Progress, Unresolved;
    ReleaseOneAdvances(w, m, reply);
  }

  // Closing the evidence leaves only the retirement, and retiring leaves nothing.
  lemma ClosingRemains(w: Cleanup, closed: ClosedHolds, done: bool)
    requires !w.finished && (w.closed.Some? ==> w.closed == Some(closed))
    ensures var w' := w.(closed := Some(closed), finished := done);
      Remaining(w') <= Remaining(w) && (done ==> Remaining(w') < Remaining(w))
  {
    hide Unresolved;
  }

  lemma ClosingDrives(c: Control, m: Membership, ref: PublicationRef, w: Cleanup, closed: ClosedHolds, e: Weather)
    requires ref in c.work && WorkOk(c.gcs, m, ref, w.(closed := Some(closed))) && !w.finished
    requires w.closed.Some? ==> w.closed == Some(closed)
    requires Filing(c.gcs, c.gcs.records[ref.key]) && w.publication == c.work[ref].publication
    ensures var (c', done) := Retire(c, ref, w.(closed := Some(closed)), e);
      && Driven(c, c', m, ref)
      && Remaining(c'.work[ref]) <= Remaining(w) && (done ==> Remaining(c'.work[ref]) < Remaining(w))
      && (c'.work[ref].finished ==> c'.gcs.records[ref.key].Has(Retired))
  {
    hide Retire, WorkOk, Filing, Remaining, Calm, RetiredBy;
    var w' := w.(closed := Some(closed));
    RetireDrives(c, m, ref, w', e);
    var done := Retire(c, ref, w', e).1;
    ClosingRemains(w, closed, done);
    assert w'.(finished := done) == w.(closed := Some(closed), finished := done);
  }

  lemma SettleDrives(c: Control, m: Membership, ref: PublicationRef, w: Cleanup, e: Weather)
    requires ref in c.work && WorkOk(c.gcs, m, ref, w) && MembershipOk(m) && !w.finished
    requires Filing(c.gcs, c.gcs.records[ref.key]) && w.publication == c.work[ref].publication
    ensures var (c', done) := Settle(c, m, ref, w, e);
      && Driven(c, c', m, ref)
      && Remaining(c'.work[ref]) <= Remaining(w) && (done ==> Remaining(c'.work[ref]) < Remaining(w))
      && (c'.work[ref].finished ==> c'.gcs.records[ref.key].Has(Retired))
  {
    hide Retire, Filing, WorkOk, ReleaseOne, Driven, Remaining, Progress;
    EntryDrives(c, m, ref, w);
    if w.closed.Some? {
      assert w == w.(closed := Some(w.closed.value));
      ClosingDrives(c, m, ref, w, w.closed.value, e);
    } else {
      ReleasedIsOk(c.gcs, m, ref, w, e.released);
      ReleasedRemains(w, m, e.released);
      EntryDrives(c, m, ref, ReleaseOne(w, m, e.released).0);
      if NextNeeded(Requests(w.publication.transfers), w).None? {
        GatheredIsOk(c.gcs, m, ref, w);
        ClosingDrives(c, m, ref, w, Gathered(ref, w), e);
      }
    }
  }

  lemma AskNodeDrives(c: Control, m: Membership, ref: PublicationRef, e: Weather)
    requires ref in c.work && WorkOk(c.gcs, m, ref, c.work[ref]) && !c.work[ref].finished && Honest(c.work[ref], e)
    requires c.work[ref].publication.TaskPublication? && !c.work[ref].nodeFinalized
    ensures var (w', done) := AskNode(c.work[ref], m, ref, e);
      && WorkOk(c.gcs, m, ref, w') && w'.publication == c.work[ref].publication && !w'.finished
      && Remaining(w') <= Remaining(c.work[ref]) && (done ==> Remaining(w') < Remaining(c.work[ref]))
  {
    hide Progress, SettlesAll, Honest, Unresolved, EveryReleaseAnswered, OwnerDeathClosed;
    var w := c.work[ref];
    if e.finalized.Some? { HonestSettles(w, e); }
    SameUnresolved(Requests(w.publication.transfers), w, w.(nodeFenced := true));
    if e.finalized.Some? {
      SameUnresolved(Requests(w.publication.transfers), w, w.(closed := e.finalized, nodeFinalized := true));
    }
    SameProgress(w, AskNode(w, m, ref, e).0, m);
  }

  lemma SameProgress(w: Cleanup, w': Cleanup, m: Membership)
    requires w'.publication == w.publication && w'.releases == w.releases && w'.childDeaths == w.childDeaths
    ensures Progress(w', m) == Progress(w, m)
  {
  }

  lemma {:induction false} SameUnresolved(keys: seq<HoldKey>, w: Cleanup, w': Cleanup)
    requires w'.releases == w.releases && w'.childDeaths == w.childDeaths
    ensures Unresolved(keys, w') == Unresolved(keys, w)
  {
    if keys == [] {
    } else {
      SameUnresolved(keys[1..], w, w');
    }
  }

  lemma FinalizedRemains(w: Cleanup)
    ensures Remaining(w.(nodeFinalized := w.nodeFinalized || w.publication.TaskPublication?)) <= Remaining(w)
  {
    SameUnresolved(Requests(w.publication.transfers), w,
                   w.(nodeFinalized := w.nodeFinalized || w.publication.TaskPublication?));
  }

  lemma FinalizedIsOk(g: State, m: Membership, ref: PublicationRef, w: Cleanup)
    requires WorkOk(g, m, ref, w)
    ensures WorkOk(g, m, ref, w.(nodeFinalized := w.nodeFinalized || w.publication.TaskPublication?))
  {
    hide SettlesAll;
    SameProgress(w, w.(nodeFinalized := w.nodeFinalized || w.publication.TaskPublication?), m);
  }

  lemma DriveAsks(c: Control, m: Membership, ref: PublicationRef, e: Weather)
    requires ref in c.work && WorkOk(c.gcs, m, ref, c.work[ref]) && !c.work[ref].finished && Honest(c.work[ref], e)
    requires c.work[ref].publication.TaskPublication? && !c.work[ref].nodeFinalized
    requires !ViewOf(m, c.work[ref].publication).Dying?
    ensures var (c', done) := Drive(c, m, ref, e);
      && Driven(c, c', m, ref) && !c'.work[ref].finished
      && Remaining(c'.work[ref]) <= Remaining(c.work[ref])
      && (done ==> Remaining(c'.work[ref]) < Remaining(c.work[ref]))
  {
    hide Calm, WorkOk, Remaining, AskNode, Settle, Honest;
    CalmIsReflexive(c.gcs);
    AskNodeDrives(c, m, ref, e);
  }

  lemma DriveDrives(c: Control, m: Membership, ref: PublicationRef, e: Weather)
    requires ref in c.work && WorkOk(c.gcs, m, ref, c.work[ref]) && MembershipOk(m) && !c.work[ref].finished
    requires Filing(c.gcs, c.gcs.records[ref.key]) && Honest(c.work[ref], e)
    ensures var (c', done) := Drive(c, m, ref, e);
      && Driven(c, c', m, ref)
      && Remaining(c'.work[ref]) <= Remaining(c.work[ref])
      && (done ==> Remaining(c'.work[ref]) < Remaining(c.work[ref]))
      && (c'.work[ref].finished ==> c'.gcs.records[ref.key].Has(Retired))
  {
    hide WorkOk, Remaining, AskNode, Settle, Honest, Filing, Calm, RetiredBy;
    var w := c.work[ref];
    if w.publication.TaskPublication? && !w.nodeFinalized && !ViewOf(m, w.publication).Dying? {
      DriveAsks(c, m, ref, e);
    } else {
      FinalizedRemains(w);
      FinalizedIsOk(c.gcs, m, ref, w);
      SettleDrives(c, m, ref, w.(nodeFinalized := w.nodeFinalized || w.publication.TaskPublication?), e);
    }
  }

  // ------------------------------------------------------------------------
  // Every run

  datatype Event =
    | Asks(request: Request)
    | Drives(reference: PublicationRef, weather: Weather)
    | ClosesAdmission
    | Moves(members: Membership, deaths: seq<Death>)

  // Membership may change freely, except that the deaths it newly records are
  // committed to the outbox in the same critical section.
  ghost predicate Committing(m: Membership, m': Membership, deaths: seq<Death>) {
    && Survives(m, m')
    && (forall d :: d in deaths ==> OwnerDeathOf(m', d.worker) == Some(d))
    && forall w :: OwnerDeathOf(m', w) != OwnerDeathOf(m, w) ==> exists d :: d in deaths && d.worker == w
  }

  ghost predicate Enabled(c: Control, m: Membership, e: Event) {
    match e
    case Asks(r) => r.Valid()
    case Drives(ref, weather) => ref in c.work && !c.work[ref].finished && Honest(c.work[ref], weather)
    case ClosesAdmission => true
    case Moves(m', deaths) => Committing(m, m', deaths)
  }

  ghost function CommitDeaths(c: Control, deaths: seq<Death>): Control
    decreases |deaths|
  {
    if deaths == [] then c else CommitDeaths(CommitDeath(c, deaths[0]), deaths[1..])
  }

  ghost function Next(c: Control, m: Membership, e: Event): (Control, Membership)
    requires Enabled(c, m, e)
  {
    match e
    case Asks(r) => (Handle(c, m, r).0, m)
    case Drives(ref, weather) => (Drive(c, m, ref, weather).0, m)
    case ClosesAdmission => (c.(admissionClosed := true), m)
    case Moves(m', deaths) => (CommitDeaths(c, deaths), m')
  }

  lemma {:induction false} DeathsKeep(c: Control, m: Membership, deaths: seq<Death>)
    requires Inv(c.gcs) && WorkSound(c, m) && forall d :: d in deaths ==> OwnerDeathOf(m, d.worker) == Some(d)
    ensures Inv(CommitDeaths(c, deaths).gcs) && WorkSound(CommitDeaths(c, deaths), m)
    ensures Calm(c.gcs, CommitDeaths(c, deaths).gcs)
    decreases |deaths|
  {
    if deaths == [] {
      CalmIsReflexive(c.gcs);
    } else {
      CommitDeathKeeps(c, m, deaths[0]);
      DeathsKeep(CommitDeath(c, deaths[0]), m, deaths[1..]);
      CalmIsTransitive(c.gcs, CommitDeath(c, deaths[0]).gcs, CommitDeaths(c, deaths).gcs);
    }
  }

  lemma {:induction false} DeathsQueue(c: Control, m: Membership, deaths: seq<Death>, owners: set<WorkerID>)
    requires Inv(c.gcs) && WorkSound(c, m) && forall d :: d in deaths ==> OwnerDeathOf(m, d.worker) == Some(d)
    requires QueuedExcept(c, m, owners)
    ensures QueuedExcept(CommitDeaths(c, deaths), m, owners - set d | d in deaths :: d.worker)
    decreases |deaths|
  {
    if deaths != [] {
      DeathCommitted(c, m, deaths[0], owners);
      DeathsQueue(CommitDeath(c, deaths[0]), m, deaths[1..], owners - {deaths[0].worker});
      WorkersOf(deaths, owners);
    } else {
      assert owners - (set d | d in deaths :: d.worker) == owners;
    }
  }

  lemma WorkersOf(deaths: seq<Death>, owners: set<WorkerID>)
    requires deaths != []
    ensures owners - {deaths[0].worker} - (set d | d in deaths[1..] :: d.worker)
         == owners - set d | d in deaths :: d.worker
  {
    assert deaths == [deaths[0]] + deaths[1..];
  }

  lemma MovesKeepsInv(c: Control, m: Membership, m': Membership, deaths: seq<Death>)
    requires ControlInv(c, m) && Committing(m, m', deaths)
    ensures ControlInv(CommitDeaths(c, deaths), m') && Calm(c.gcs, CommitDeaths(c, deaths).gcs)
  {
    hide Inv, WorkOk, Later, Calm, CommitDeaths;
    LaterIsReflexive(c.gcs);
    forall ref | ref in c.work ensures WorkOk(c.gcs, m', ref, c.work[ref]) {
      WorkContinues(c.gcs, c.gcs, m, m', ref, c.work[ref]);
    }
    var owners := set d | d in deaths :: d.worker;
    forall k | k in c.gcs.records && c.gcs.records[k].publication.owner !in owners ensures QueuedAt(c, m', k) {
      assert QueuedAt(c, m, k);
    }
    DeathsKeep(c, m', deaths);
    DeathsQueue(c, m', deaths, owners);
    assert owners - owners == {};
  }

  lemma DriveKeepsInv(c: Control, m: Membership, ref: PublicationRef, weather: Weather)
    requires ControlInv(c, m) && ref in c.work && !c.work[ref].finished && Honest(c.work[ref], weather)
    ensures ControlInv(Drive(c, m, ref, weather).0, m) && Calm(c.gcs, Drive(c, m, ref, weather).0.gcs)
  {
    RecordIsFiled(c.gcs, ref.key);
    DriveDrives(c, m, ref, weather);
    DrivenKeepsWork(c, Drive(c, m, ref, weather).0, m, ref);
    RetiredByKeepsInv(c.gcs, Drive(c, m, ref, weather).0.gcs);
  }

  lemma RetiredByKeepsInv(g: State, g': State)
    requires Inv(g) && RetiredBy(g, g')
    ensures Inv(g')
  {
    if g' != g {
      var closed: ClosedHolds :| closed.Valid() && g' == Apply(g, RetireGraph(closed)).0;
      ApplyKeepsInv(g, RetireGraph(closed));
    }
  }

  lemma NextKeepsInv(c: Control, m: Membership, e: Event)
    requires ControlInv(c, m) && Enabled(c, m, e)
    ensures ControlInv(Next(c, m, e).0, Next(c, m, e).1)
    ensures Stopped(c.gcs, Next(c, m, e).0.gcs, m)
  {
    match e
    case Asks(r) =>
      HandleKeepsInv(c, m, r);
      HandleStops(c, m, r);
    case Drives(ref, weather) =>
      DriveKeepsInv(c, m, ref, weather);
      CalmStops(c.gcs, Next(c, m, e).0.gcs, m);
    case ClosesAdmission =>
      CalmIsReflexive(c.gcs);
      CalmStops(c.gcs, c.gcs, m);
    case Moves(m', deaths) =>
      MovesKeepsInv(c, m, m', deaths);
      CalmStops(c.gcs, Next(c, m, e).0.gcs, m);
  }

  ghost predicate Reaches(c: Control, m: Membership, events: seq<Event>, c': Control, m': Membership)
    decreases |events|
  {
    if events == [] then c == c' && m == m'
    else
      Enabled(c, m, events[0]) &&
      var (d, n) := Next(c, m, events[0]);
      Reaches(d, n, events[1..], c', m')
  }

  ghost predicate DeathsKept(m: Membership, m': Membership) {
    forall w :: OwnerDeathOf(m, w).Some? ==> OwnerDeathOf(m', w) == OwnerDeathOf(m, w)
  }

  lemma NextKeepsDeaths(c: Control, m: Membership, e: Event)
    requires Enabled(c, m, e)
    ensures DeathsKept(m, Next(c, m, e).1)
  {
    if e.Moves? {
      forall w | OwnerDeathOf(m, w).Some? ensures OwnerDeathOf(e.members, w) == OwnerDeathOf(m, w) {
        DeathsPersist(m, e.members, w);
      }
    }
  }

  lemma StoppedTwice(g: State, g': State, g'': State, m: Membership, m': Membership)
    requires Stopped(g, g', m) && Stopped(g', g'', m') && DeathsKept(m, m') && Later(g', g'')
    ensures Stopped(g, g'', m)
  {
    forall k, st | k in g''.records && ForwardStage(st) && g''.records[k].Has(st)
      && OwnerDeathOf(m, g''.records[k].publication.owner).Some?
      ensures k in g.records && g.records[k].Has(st)
    {
      assert k in g'.records && g'.records[k].Has(st);
      assert Continues(g'.records[k], g''.records[k], g'.sequence);
    }
  }

  lemma NextContinues(c: Control, m: Membership, e: Event)
    requires ControlInv(c, m) && Enabled(c, m, e)
    ensures Later(c.gcs, Next(c, m, e).0.gcs)
  {
    match e
    case Asks(r) => HandleContinues(c, m, r);
    case Drives(ref, weather) => DriveKeepsInv(c, m, ref, weather);
    case ClosesAdmission => LaterIsReflexive(c.gcs);
    case Moves(m', deaths) => MovesKeepsInv(c, m, m', deaths);
  }

  lemma HandleContinues(c: Control, m: Membership, r: Request)
    requires ControlInv(c, m) && r.Valid()
    ensures Later(c.gcs, Handle(c, m, r).0.gcs)
  {
    var d := HandleShape(c, m, r);
    LaterIsReflexive(c.gcs);
    if Handle(c, m, r).0 != c {
      var applied := c.(gcs := Apply(c.gcs, r).0);
      StepContinues(c.gcs, r);
      AppliedWork(c, m, r);
      if d.Some? {
        CommitIsCalm(c, m, d.value);
        CommitIsCalm(applied, m, d.value);
        LaterIsTransitive(c.gcs, applied.gcs, CommitDeath(applied, d.value).gcs);
      }
    }
  }

  lemma {:induction false} ReachesContinues(c: Control, m: Membership, events: seq<Event>, c': Control, m': Membership)
    requires ControlInv(c, m) && Reaches(c, m, events, c', m')
    ensures Later(c.gcs, c'.gcs)
    decreases |events|
  {
    if events == [] {
      LaterIsReflexive(c.gcs);
    } else {
      var (d, n) := Next(c, m, events[0]);
      NextKeepsInv(c, m, events[0]);
      NextContinues(c, m, events[0]);
      ReachesContinues(d, n, events[1..], c', m');
      LaterIsTransitive(c.gcs, d.gcs, c'.gcs);
    }
  }

  /** Every run keeps the invariant: all publications of dead owners are fenced
      and queued, and a finished cleanup has retired its graph. */
  lemma {:induction false} ReachesKeepsInv(c: Control, m: Membership, events: seq<Event>, c': Control, m': Membership)
    requires ControlInv(c, m) && Reaches(c, m, events, c', m')
    ensures ControlInv(c', m')
    decreases |events|
  {
    if events == [] {
    } else {
      var (d, n) := Next(c, m, events[0]);
      NextKeepsInv(c, m, events[0]);
      ReachesKeepsInv(d, n, events[1..], c', m');
    }
  }

  /** Main result: over every run, no publication of an owner that is already
      dead gains an INTENT, PREPARED, ARMED or COMMITTED receipt. */
  lemma {:induction false} DeadOwnersStayStopped(c: Control, m: Membership, events: seq<Event>, c': Control,
                                                 m': Membership)
    requires ControlInv(c, m) && Reaches(c, m, events, c', m')
    ensures Stopped(c.gcs, c'.gcs, m)
    decreases |events|
  {
    if events == [] {
      CalmIsReflexive(c.gcs);
      CalmStops(c.gcs, c.gcs, m);
    } else {
      var (d, n) := Next(c, m, events[0]);
      NextKeepsInv(c, m, events[0]);
      NextKeepsDeaths(c, m, events[0]);
      DeadOwnersStayStopped(d, n, events[1..], c', m');
      ReachesContinues(d, n, events[1..], c', m');
      StoppedTwice(c.gcs, d.gcs, c'.gcs, m, n);
    }
  }

  // The publishing Node has to be asked before anything else, and is alive to answer.
  predicate NodeAsked(w: Cleanup, m: Membership) {
    var p := w.publication;
    && p.TaskPublication? && !w.nodeFinalized && p.node.node in m.nodes
    && m.nodes[p.node.node].incarnation == p.node && m.nodes[p.node.node].alive
  }

  // Its incarnation died by the exit of its process, or it has answered, or the object was put.
  predicate NodeDone(w: Cleanup, m: Membership) {
    var p := w.publication;
    p.TaskPublication? && !w.nodeFinalized ==>
      && p.node.node in m.nodes && m.nodes[p.node.node].incarnation == p.node
      && !m.nodes[p.node.node].alive && m.nodes[p.node.node].processExit
  }

  // This hold is the first one without an answer.
  ghost predicate Needs(w: Cleanup, key: HoldKey) {
    var keys := Requests(w.publication.transfers);
    exists i :: 0 <= i < |keys| && keys[i] == key && !w.Resolved(key) && ResolvedBefore(w, keys, i)
  }

  ghost predicate ResolvedBefore(w: Cleanup, keys: seq<HoldKey>, i: nat)
    requires i <= |keys|
  {
    forall j :: 0 <= j < i ==> w.Resolved(keys[j])
  }

  lemma {:induction false} NeedsIs(w: Cleanup, keys: seq<HoldKey>)
    ensures NextNeeded(keys, w).Some? ==>
              exists i :: 0 <= i < |keys| && keys[i] == NextNeeded(keys, w).value && !w.Resolved(keys[i])
                && ResolvedBefore(w, keys, i)
    ensures forall i :: 0 <= i < |keys| && !w.Resolved(keys[i]) && ResolvedBefore(w, keys, i) ==>
              NextNeeded(keys, w) == Some(keys[i])
  {
    if keys == [] {
    } else if !w.Resolved(keys[0]) {
      assert ResolvedBefore(w, keys, 0);
    } else {
      NeedsIs(w, keys[1..]);
      forall i | 0 <= i < |keys| && !w.Resolved(keys[i]) && ResolvedBefore(w, keys, i)
        ensures NextNeeded(keys, w) == Some(keys[i])
      {
        assert keys[1..][i - 1] == keys[i] && ResolvedBefore(w, keys[1..], i - 1);
      }
      if NextNeeded(keys[1..], w).Some? {
        var i :| 0 <= i < |keys[1..]| && keys[1..][i] == NextNeeded(keys[1..], w).value && !w.Resolved(keys[1..][i])
          && ResolvedBefore(w, keys[1..], i);
        forall j | 0 <= j < i + 1 ensures w.Resolved(keys[j]) {
          assert j > 0 ==> keys[j] == keys[1..][j - 1];
        }
        assert keys[i + 1] == keys[1..][i] && ResolvedBefore(w, keys, i + 1);
      }
    }
  }

  // The outside answers what this drive asks.
  ghost predicate Willing(w: Cleanup, m: Membership, ref: PublicationRef, e: Weather) {
    && Honest(w, e)
    && if NodeAsked(w, m) then
         if !w.nodeFenced then e.fenced
         else e.finalized.Some? && forall d :: d in e.finalized.value.deaths ==> Confirmed(m, d)
       else
         NodeDone(w, m) && if w.closed.None? && Pending(w) then HoldAnswered(w, m, e) else !e.sweeping
  }

  ghost predicate Pending(w: Cleanup) { exists key :: Needs(w, key) }

  // The owner of the next hold is dead, or answers for exactly that hold.
  ghost predicate HoldAnswered(w: Cleanup, m: Membership, e: Weather) {
    forall key :: Needs(w, key) && OwnerDeathOf(m, key.owner).None? ==>
      e.released.Some? && e.released.value.key == key
  }

  lemma SettleIsDone(c: Control, m: Membership, ref: PublicationRef, w: Cleanup, e: Weather)
    requires ref in c.work && WorkOk(c.gcs, m, ref, w) && MembershipOk(m) && !w.finished
    requires Filing(c.gcs, c.gcs.records[ref.key]) && w.publication == c.work[ref].publication
    ensures Settle(c, m, ref, w, e).1 <==> if w.closed.None? && Pending(w) then HoldAnswered(w, m, e) else !e.sweeping
  {
    hide Retire, Driven, Filing, WorkOk, Confirmed;
    var keys := Requests(w.publication.transfers);
    NeedsIs(w, keys);
    if w.closed.Some? {
      RetireDrives(c, m, ref, w, e);
      SweepingWaits(c, ref, w, e);
    } else if NextNeeded(keys, w).None? {
      GatheredIsOk(c.gcs, m, ref, w);
      RetireDrives(c, m, ref, w.(closed := Some(Gathered(ref, w))), e);
      SweepingWaits(c, ref, w.(closed := Some(Gathered(ref, w))), e);
    } else {
      assert Needs(w, NextNeeded(keys, w).value);
    }
  }

  lemma SweepingWaits(c: Control, ref: PublicationRef, w: Cleanup, e: Weather)
    requires w.closed.Some?
    ensures e.sweeping ==> !Retire(c, ref, w, e).1
  {
    hide Apply;
  }

  // What a drive does first depends on the publishing Node alone.
  lemma DriveTurns(c: Control, m: Membership, ref: PublicationRef, e: Weather)
    requires ref in c.work
    ensures var w := c.work[ref];
      Drive(c, m, ref, e) ==
        if NodeAsked(w, m) then (c.(work := c.work[ref := AskNode(w, m, ref, e).0]), AskNode(w, m, ref, e).1)
        else if NodeDone(w, m) then
          Settle(c, m, ref, w.(nodeFinalized := w.nodeFinalized || w.publication.TaskPublication?), e)
        else (c, false)
  {
    hide AskNode, Settle;
  }

  /** A drive succeeds exactly when what it asks is answered: the fence and then the
      finalization of a living publishing Node; after that the next hold, by its owner's
      death or reply; and once nothing is pending, the end of the physical sweep. */
  lemma WillingIsDone(c: Control, m: Membership, ref: PublicationRef, e: Weather)
    requires ref in c.work && WorkOk(c.gcs, m, ref, c.work[ref]) && MembershipOk(m) && !c.work[ref].finished
    requires Filing(c.gcs, c.gcs.records[ref.key]) && Honest(c.work[ref], e)
    ensures Drive(c, m, ref, e).1 <==> Willing(c.work[ref], m, ref, e)
  {
    hide WorkOk, Honest, Filing, AskNode, Settle, Confirmed, NodeAsked, NodeDone, Drive, Needs;
    var w := c.work[ref];
    DriveTurns(c, m, ref, e);
    FinalizedIsOk(c.gcs, m, ref, w);
    WorkNames(c.gcs, m, ref, w);
    if NodeAsked(w, m) {
      HonestNames(w, e);
      if Willing(w, m, ref, e) { AskIsDone(w, m, ref, e); }
      if AskNode(w, m, ref, e).1 { AskNeeds(w, m, ref, e); }
    } else if NodeDone(w, m) {
      var w' := w.(nodeFinalized := w.nodeFinalized || w.publication.TaskPublication?);
      SameNeeds(w, w');
      SettleIsDone(c, m, ref, w', e);
    }
  }

  lemma SameNeeds(w: Cleanup, w': Cleanup)
    requires w' == w.(nodeFinalized := w'.nodeFinalized)
    ensures forall key :: Needs(w', key) <==> Needs(w, key)
    ensures Pending(w') == Pending(w) && forall m, e :: HoldAnswered(w', m, e) == HoldAnswered(w, m, e)
  {
    var keys := Requests(w.publication.transfers);
    assert forall i :: 0 <= i <= |keys| ==> ResolvedBefore(w', keys, i) == ResolvedBefore(w, keys, i);
  }

  lemma WorkNames(g: State, m: Membership, ref: PublicationRef, w: Cleanup)
    requires WorkOk(g, m, ref, w)
    ensures w.publication.Ref() == ref && ref.key in g.records
  {
    hide Progress, SettlesAll;
  }

  lemma HonestNames(w: Cleanup, e: Weather)
    requires Honest(w, e)
    ensures e.finalized.Some? ==> e.finalized.value.reference == w.publication.Ref()
  {
    hide EveryReleaseAnswered;
  }

  lemma AskIsDone(w: Cleanup, m: Membership, ref: PublicationRef, e: Weather)
    requires !w.nodeFenced ==> e.fenced
    requires w.nodeFenced ==> e.finalized.Some? && e.finalized.value.reference == ref
                              && forall d :: d in e.finalized.value.deaths ==> Confirmed(m, d)
    ensures AskNode(w, m, ref, e).1
  {
  }

  lemma AskNeeds(w: Cleanup, m: Membership, ref: PublicationRef, e: Weather)
    requires AskNode(w, m, ref, e).1
    ensures !w.nodeFenced ==> e.fenced
    ensures w.nodeFenced ==> e.finalized.Some? && forall d :: d in e.finalized.value.deaths ==> Confirmed(m, d)
  {
  }

  // Other work never touches a queued entry.
  ghost predicate EntriesKept(c: Control, c': Control) {
    forall ref :: ref in c.work ==> ref in c'.work && c'.work[ref] == c.work[ref]
  }

  lemma CommitOneEntries(c: Control, key: PublicationKey, d: Death)
    ensures EntriesKept(c, CommitOne(c, key, d))
  {
    hide Apply;
  }

  lemma {:induction false} CommitAllEntries(c: Control, keys: seq<PublicationKey>, d: Death)
    ensures EntriesKept(c, CommitAll(c, keys, d))
    decreases |keys|
  {
    hide CommitOne;
    if keys == [] {
    } else {
      CommitOneEntries(c, keys[0], d);
      CommitAllEntries(CommitOne(c, keys[0], d), keys[1..], d);
    }
  }

  lemma {:induction false} CommitDeathsEntries(c: Control, deaths: seq<Death>)
    ensures EntriesKept(c, CommitDeaths(c, deaths))
    decreases |deaths|
  {
    hide CommitAll;
    if deaths == [] {
    } else {
      CommitAllEntries(c, c.gcs.order, deaths[0]);
      CommitDeathsEntries(CommitDeath(c, deaths[0]), deaths[1..]);
    }
  }

  lemma HandleEntries(c: Control, m: Membership, r: Request)
    requires MembershipOk(m)
    ensures EntriesKept(c, Handle(c, m, r).0)
  {
    hide Apply, Available, Handle, CommitAll;
    var d := HandleShape(c, m, r);
    if d.Some? {
      CommitAllEntries(c, c.gcs.order, d.value);
      var applied := c.(gcs := Apply(c.gcs, r).0);
      CommitAllEntries(applied, applied.gcs.order, d.value);
    }
  }

  // A drive of this cleanup whose calls all come back.
  ghost predicate WillingDrive(c: Control, m: Membership, e: Event, ref: PublicationRef) {
    e.Drives? && e.reference == ref && ref in c.work && Willing(c.work[ref], m, ref, e.weather)
  }

  ghost function WillingDrives(c: Control, m: Membership, events: seq<Event>, ref: PublicationRef): nat
    decreases |events|
  {
    if events == [] || !Enabled(c, m, events[0]) then 0
    else
      var (d, n) := Next(c, m, events[0]);
      (if WillingDrive(c, m, events[0], ref) then 1 else 0) + WillingDrives(d, n, events[1..], ref)
  }

  lemma RemainingIsPositive(w: Cleanup)
    requires !w.finished
    ensures Remaining(w) > 0
  {
  }

  lemma FinishedIsRetired(c: Control, m: Membership, ref: PublicationRef)
    requires ControlInv(c, m) && ref in c.work && c.work[ref].finished
    ensures ref.key in c.gcs.records && c.gcs.records[ref.key].Has(Retired)
  {
  }

  lemma WorkIsOk(c: Control, m: Membership, ref: PublicationRef)
    requires ControlInv(c, m) && ref in c.work
    ensures WorkOk(c.gcs, m, ref, c.work[ref]) && Filing(c.gcs, c.gcs.records[ref.key]) && MembershipOk(m)
  {
    hide Inv, Filing;
    RecordIsFiled(c.gcs, ref.key);
  }

  // One drive of some cleanup, seen by the cleanup under ref.
  lemma DriveRemains(c: Control, m: Membership, other: PublicationRef, e: Weather, ref: PublicationRef)
    requires ControlInv(c, m) && ref in c.work && Enabled(c, m, Drives(other, e))
    ensures var c' := Drive(c, m, other, e).0;
      && ref in c'.work && Remaining(c'.work[ref]) <= Remaining(c.work[ref])
      && (WillingDrive(c, m, Drives(other, e), ref) ==> Remaining(c'.work[ref]) < Remaining(c.work[ref]))
  {
    hide ControlInv, WorkOk, Filing, Drive, Remaining, Willing, Honest, Calm, RetiredBy;
    WorkIsOk(c, m, other);
    DriveDrives(c, m, other, e);
    if WillingDrive(c, m, Drives(other, e), ref) {
      WillingIsDone(c, m, ref, e);
    }
  }

  lemma StepRemains(c: Control, m: Membership, e: Event, ref: PublicationRef)
    requires ControlInv(c, m) && Enabled(c, m, e) && ref in c.work
    ensures var c' := Next(c, m, e).0;
      && ref in c'.work && Remaining(c'.work[ref]) <= Remaining(c.work[ref])
      && (WillingDrive(c, m, e, ref) ==> Remaining(c'.work[ref]) < Remaining(c.work[ref]))
  {
    hide Inv, WorkSound, AllQueued, Handle, Drive, CommitDeaths, Remaining, Willing, Honest, Committing;
    match e
    case Asks(r) => HandleEntries(c, m, r);
    case Drives(other, weather) => DriveRemains(c, m, other, weather, ref);
    case ClosesAdmission =>
    case Moves(m', deaths) => CommitDeathsEntries(c, deaths);
  }

  lemma {:induction false} RunRemains(c: Control, m: Membership, events: seq<Event>, c': Control, m': Membership,
                                      ref: PublicationRef)
    requires ControlInv(c, m) && Reaches(c, m, events, c', m') && ref in c.work
    ensures ref in c'.work && WillingDrives(c, m, events, ref) + Remaining(c'.work[ref]) <= Remaining(c.work[ref])
    decreases |events|
  {
    hide ControlInv, Enabled, Next, Remaining, WillingDrive;
    if events == [] {
    } else {
      var (d, n) := Next(c, m, events[0]);
      NextKeepsInv(c, m, events[0]);
      StepRemains(c, m, events[0], ref);
      RunRemains(d, n, events[1..], c', m', ref);
    }
  }

  /** Main result: in any run, whatever else happens between the drives, a
      queued cleanup of n transfers is finished and its graph retired once as
      many of its drives had their calls answered as remained, never more than
      2n + 3. */
  lemma WillingDrivesFinish(c: Control, m: Membership, events: seq<Event>, c': Control, m': Membership,
                            ref: PublicationRef)
    requires ControlInv(c, m) && Reaches(c, m, events, c', m') && ref in c.work
    requires WillingDrives(c, m, events, ref) >= Remaining(c.work[ref])
    ensures ref in c'.work && c'.work[ref].finished && ref.key in c'.gcs.records && c'.gcs.records[ref.key].Has(Retired)
  {
    hide ControlInv, Reaches, Remaining, WillingDrives;
    RunRemains(c, m, events, c', m', ref);
    if !c'.work[ref].finished { RemainingIsPositive(c'.work[ref]); }
    ReachesKeepsInv(c, m, events, c', m');
    FinishedIsRetired(c', m', ref);
  }

  /** A fresh control state satisfies the invariant under every membership. */
  lemma StartIsInv(m: Membership, admissionClosed: bool)
    requires MembershipOk(m)
    ensures ControlInv(Control(EMPTY, map[], admissionClosed), m)
  {
    EmptyIsInv();
  }

  // ------------------------------------------------------------------------
  // The control object

  class PublicationControl {
    const authority: Authority
    var work: map<PublicationRef, Cleanup>
    var admissionClosed: bool

    ghost predicate Valid()
      reads this, authority
    {
      authority.Valid()
    }

    ghost function View(): Control
      reads this, authority
    {
      Control(authority.View(), work, admissionClosed)
    }

    constructor ()
      ensures Valid() && fresh(authority) && View() == Control(EMPTY, map[], false)
    {
      var gcs := new Authority();
      authority, work, admissionClosed := gcs, map[], false;
    }

    /** Fence and queue every publication of a dead owner. */
    method CommitOwnerDeath(d: Death)
      requires Valid()
      modifies this, authority
      ensures Valid() && View() == CommitDeath(old(View()), d)
    {
      var keys := authority.order;
      var i := 0;
      assert keys[0..] == keys;
      while i < |keys|
        invariant 0 <= i <= |keys| && Valid()
        invariant CommitAll(View(), keys[i..], d) == CommitDeath(old(View()), d)
      {
        assert keys[i..][0] == keys[i] && keys[i..][1..] == keys[i + 1..];
        CommitRecord(keys[i], d);
        i := i + 1;
      }
    }

    method CommitRecord(key: PublicationKey, d: Death)
      requires Valid()
      modifies this, authority
      ensures Valid() && View() == CommitOne(old(View()), key, d)
    {
      if key in authority.records && authority.records[key].publication.owner == d.worker {
        var u := authority.records[key];
        if u.fence.None? {
          var _ := authority.Handle(FencePublication(u.publication, OwnerDeath(d)));
        }
        if u.Ref() !in work {
          work := work[u.Ref() := Cleanup(u.publication, d, [], [], u.closed, false, false, false)];
        }
      }
    }

    /** One guarded request. */
    method Respond(m: Membership, r: Request) returns (reply: Reply)
      requires Valid()
      modifies this, authority
      ensures Valid() && (View(), reply) == Handle(old(View()), m, r)
    {
      var query := authority.Handle(GetPublication(r.Ref()));
      if !query.accepted { return Reply(false, None, None, query.error); }
      if r.BeginPublication? && admissionClosed && (query.snapshot.None? || !query.snapshot.value.Has(Intent)) {
        return Refused(InvalidState);
      }
      if !Available(m, r, query.snapshot) { return Refused(Unavailable); }
      if OnlySchedules(r, query.snapshot) {
        CommitOwnerDeath(r.fence.death);
        return Reply(true, query.snapshot, query.snapshot.value.At(Fenced), None);
      }
      reply := authority.Handle(r);
      if reply.accepted && reply.snapshot.Some? && !r.GetPublication? {
        var death := OwnerDeathOf(m, reply.snapshot.value.publication.owner);
        if death.Some? {
          CommitOwnerDeath(death.value);
        }
      }
    }

    /** One attempt at one queued cleanup. */
    method DriveOne(m: Membership, ref: PublicationRef, e: Weather) returns (done: bool)
      requires Valid() && ref in work
      modifies this, authority
      ensures Valid() && (View(), done) == Drive(old(View()), m, ref, e)
    {
      var w := work[ref];
      if w.publication.TaskPublication? && !w.nodeFinalized {
        var view := ViewOf(m, w.publication);
        if view.Lost? { return false; }
        if view.Living? {
          w, done := AskNode(w, m, ref, e).0, AskNode(w, m, ref, e).1;
          work := work[ref := w];
          return;
        }
      }
      hide Settle;
      done := SettleOne(m, ref, w.(nodeFinalized := w.nodeFinalized || w.publication.TaskPublication?), e);
    }

    // Release one hold, or close the evidence and retire.
    method SettleOne(m: Membership, ref: PublicationRef, w: Cleanup, e: Weather) returns (done: bool)
      requires Valid()
      modifies this, authority
      ensures Valid() && (View(), done) == Settle(old(View()), m, ref, w, e)
    {
      hide Retire, ReleaseOne, Apply;
      var closing := w;
      if w.closed.None? {
        var needed := FindNeeded(w);
        var (released, progressed) := ReleaseOne(w, m, e.released);
        if progressed {
          work := work[ref := released];
          return true;
        }
        if needed.Some? {
          work := work[ref := w];
          return false;
        }
        closing := w.(closed := Some(ClosedHolds(ref, w.releases, w.childDeaths, None)));
      }
      done := RetireOne(ref, closing, e);
    }

    method FindNeeded(w: Cleanup) returns (needed: Option<HoldKey>)
      ensures needed == NextNeeded(Requests(w.publication.transfers), w)
    {
      var keys := Requests(w.publication.transfers);
      var i := 0;
      while i < |keys|
        invariant 0 <= i <= |keys|
        invariant NextNeeded(keys[i..], w) == NextNeeded(keys, w)
      {
        if !w.Resolved(keys[i]) { return Some(keys[i]); }
        assert keys[i..][1..] == keys[i + 1..];
        i := i + 1;
      }
      needed := None;
    }

    method RetireOne(ref: PublicationRef, w: Cleanup, e: Weather) returns (done: bool)
      requires Valid() && w.closed.Some?
      modifies this, authority
      ensures Valid() && (View(), done) == Retire(old(View()), ref, w, e)
    {
      hide Apply;
      work := work[ref := w];
      var snapshot := Lookup(authority.View(), ref.key);
      if snapshot.None? { return false; }
      if !snapshot.value.Has(Retired) {
        ghost var before := authority.View();
        var reply := authority.Handle(RetireGraph(w.closed.value));
        if !reply.accepted { RefusedUnchanged(before, RetireGraph(w.closed.value)); }
        if !reply.accepted { return false; }
      }
      if e.sweeping { return false; }
      work := work[ref := w.(finished := true)];
      assert work == old(work)[ref := w.(finished := true)];
      done := true;
    }
  }
}
