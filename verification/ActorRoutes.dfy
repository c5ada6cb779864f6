/** Actor routes: the registry that allocates generations and route epochs, and
    the owner-side cache that fences calls by them. */
module ActorRoutes {
  import opened Ids

  datatype Home = Home(node: NodeID, pid: nat, registration: nat)
  datatype Endpoint = Endpoint(node: NodeID, worker: WorkerID, address: Address, pid: nat)
  datatype Exit = Exit(detection: string, actor: ActorID, generation: nat, epoch: nat, home: Home, worker: WorkerID,
                       pid: nat)
  datatype Reservation = Reservation(generation: nat, target: NodeID, epoch: nat, restart: Option<Exit>)

  datatype Phase = Creating | Alive | Restarting | Dead

  datatype Record = Record(actor: ActorID, maxRestarts: nat, generation: nat, phase: Phase, epoch: nat,
                           restartsUsed: nat, lastExit: Option<Exit>, endpoint: Option<Endpoint>,
                           error: Option<string>, initial: Option<Reservation>, restart: Option<Reservation>)

  datatype Snapshot = Snapshot(actor: ActorID, generation: nat, phase: Phase, epoch: nat, restartsUsed: nat,
                               maxRestarts: nat, lastExit: Option<Exit>, endpoint: Option<Endpoint>,
                               error: Option<string>)

  datatype Outcome = Outcome(exit: Exit, reduction: Snapshot)
  datatype Registry = Registry(actors: map<ActorID, Record>, exits: map<string, Outcome>)

  // A physical endpoint is exposed only while the Actor is alive.
  function SnapshotOf(r: Record): Snapshot {
    Snapshot(r.actor, r.generation, r.phase, r.epoch, r.restartsUsed, r.maxRestarts, r.lastExit,
             if r.phase.Alive? then r.endpoint else None, r.error)
  }

  // What constructing a snapshot checks.
  predicate SnapshotOk(s: Snapshot) {
    && s.restartsUsed <= s.maxRestarts && s.generation == s.restartsUsed
    && (s.lastExit.Some? ==> s.lastExit.value.actor == s.actor && s.lastExit.value.generation <= s.generation
                             && s.epoch > s.lastExit.value.epoch)
    && (s.phase.Alive? <==> s.endpoint.Some?)
    && (s.phase.Dead? <==> s.error.Some?)
    && (s.phase.Creating? ==> s.generation == 0 && s.epoch == 0 && s.lastExit.None?)
    && (s.phase.Restarting? ==> s.lastExit.Some?)
    && (s.phase.Alive? && s.generation == 0 ==> s.epoch > 0)
    && (s.phase.Alive? ==> (s.lastExit.Some? <==> s.generation > 0))
    && (s.phase.Restarting? || s.phase.Alive? ==> s.lastExit.Some? ==> s.lastExit.value.generation + 1 == s.generation)
  }

  // ------------------------------------------------------------------------
  // Registry transitions

  datatype Op =
    | Begin(actor: ActorID, maxRestarts: nat)
    | Cancel(cancelled: ActorID, why: string)
    | Reserve(reserved: ActorID, reservation: Reservation)
    | Finish(finished: ActorID, accepted: bool, retryable: bool, endpoint: Option<Endpoint>, why: string, epoch: nat)
    | AcceptExit(exit: Exit, seen: Home, nodeAlive: bool, restartAllowed: bool)
    | PublishRestart(proof: Exit, restarted: bool, generation: nat, place: Endpoint)
    | FailRestart(rejected: Exit, why: string)
    | FailOnNode(failed: ActorID, node: NodeID, why: string)
  {
    // What the reply types enforce.
    predicate Valid() {
      Finish? ==> (accepted <==> endpoint.Some?) && (accepted ==> epoch > 0 && !retryable)
    }
  }

  datatype Disposition = Applied | AlreadyApplied | Conflict | UnknownActor | StaleExit

  function Max(a: nat, b: nat): nat { if a < b then b else a }

  function Killed(r: Record, epoch: nat, why: string): Record { r.(phase := Dead, epoch := epoch, error := Some(why)) }

  function ExitVerdict(g: Registry, e: Exit, seen: Home, nodeAlive: bool): Disposition {
    if e.detection in g.exits then if g.exits[e.detection].exit == e then AlreadyApplied else Conflict
    else if e.actor !in g.actors then UnknownActor
    else
      var r := g.actors[e.actor];
      if e.generation < r.generation then StaleExit
      else if !r.phase.Alive? || e.generation != r.generation then Conflict
      else if !nodeAlive || seen != e.home || r.endpoint.None? || r.endpoint.value.node != e.home.node
        || r.endpoint.value.worker != e.worker || r.endpoint.value.pid != e.pid || r.epoch != e.epoch then Conflict
      else Applied
  }

  // The record after an accepted exit: out of budget, or the next generation.
  function Exited(r: Record, e: Exit, restartAllowed: bool): Record {
    var gone := r.(lastExit := Some(e), endpoint := None, epoch := r.epoch + 1);
    if !restartAllowed || r.restartsUsed >= r.maxRestarts then
      gone.(phase := Dead, restart := None, error := Some(if restartAllowed then "Actor restart budget exhausted"
                                                        else "Actor restart admission is closed"))
    else
      gone.(phase := Restarting, restartsUsed := r.restartsUsed + 1, generation := r.generation + 1, error := None,
            restart := Some(Reservation(r.generation + 1, e.home.node, r.epoch + 2, Some(e))))
  }

  // The node whose loss takes the Actor's current or pending route with it.
  function TargetOf(r: Record): Option<NodeID> {
    if r.endpoint.Some? then Some(r.endpoint.value.node)
    else if r.phase.Creating? && r.initial.Some? then Some(r.initial.value.target)
    else if r.restart.Some? then Some(r.restart.value.target)
    else None
  }

  // One record after an operation on it; operations that are refused change nothing.
  function Reduce(r: Record, op: Op): Record {
    match op
    case Cancel(_, why) => if r.phase.Creating? && r.initial.None? then Killed(r, r.epoch + 1, why) else r
    case Reserve(_, reservation) => if r.phase.Creating? && r.initial.None? then r.(initial := Some(reservation)) else r
    case Finish(_, accepted, retryable, endpoint, why, epoch) =>
      if !r.phase.Creating? || retryable then r
      else if accepted then r.(phase := Alive, epoch := Max(r.epoch + 1, epoch), endpoint := endpoint, error := None)
      else Killed(r, Max(r.epoch + 1, epoch), why)
    case PublishRestart(_, restarted, generation, place) =>
      if r.phase.Restarting? && r.restart.Some? && restarted && generation == r.restart.value.generation
        && place.node == r.restart.value.target then
        r.(phase := Alive, epoch := r.restart.value.epoch, endpoint := Some(place), error := None)
      else r
    case FailRestart(proof, why) =>
      if r.phase.Restarting? && r.lastExit == Some(proof) && r.restart.Some? && r.restart.value.restart == Some(proof)
        && r.restart.value.generation == r.generation then
        Killed(r, r.restart.value.epoch, why).(restart := None)
      else r
    case FailOnNode(_, node, why) =>
      if TargetOf(r) == Some(node) && !r.phase.Dead? then
        Killed(r, if r.initial.Some? then Max(r.epoch + 1, r.initial.value.epoch) else r.epoch + 1, why)
          .(endpoint := None, initial := None, restart := None)
      else r
    case _ => r
  }

  function Subject(op: Op): ActorID {
    match op
    case Begin(a, _) => a
    case Cancel(a, _) => a
    case Reserve(a, _) => a
    case Finish(a, _, _, _, _, _) => a
    case AcceptExit(e, _, _, _) => e.actor
    case PublishRestart(e, _, _, _) => e.actor
    case FailRestart(e, _) => e.actor
    case FailOnNode(a, _, _) => a
  }

  // Restart outcomes need an exit this registry accepted.
  predicate ProofKnown(g: Registry, op: Op) {
    match op
    case PublishRestart(e, _, _, _) => e.detection in g.exits && g.exits[e.detection].exit == e
    case FailRestart(e, _) => e.detection in g.exits && g.exits[e.detection].exit == e
    case _ => true
  }

  function Perform(g: Registry, op: Op): Registry {
    var a := Subject(op);
    match op
    case Begin(_, maxRestarts) =>
      if a in g.actors then g
      else g.(actors := g.actors[a := Record(a, maxRestarts, 0, Creating, 0, 0, None, None, None, None, None)])
    case AcceptExit(e, seen, nodeAlive, restartAllowed) =>
      if !ExitVerdict(g, e, seen, nodeAlive).Applied? then g
      else
        var r := Exited(g.actors[a], e, restartAllowed);
        Registry(g.actors[a := r], g.exits[e.detection := Outcome(e, SnapshotOf(r))])
    case _ =>
      if a !in g.actors || !ProofKnown(g, op) then g else g.(actors := g.actors[a := Reduce(g.actors[a], op)])
  }

  // ------------------------------------------------------------------------
  // What every registry satisfies

  ghost predicate RecordOk(r: Record) {
    && SnapshotOk(SnapshotOf(r))
    && (r.phase.Alive? || r.endpoint.None?)
    && (r.phase.Restarting? ==>
          && r.restart.Some? && r.restart.value.generation == r.generation && r.restart.value.restart == r.lastExit
          && r.restart.value.epoch == r.epoch + 1
          && r.lastExit.Some? && r.restart.value.target == r.lastExit.value.home.node)
    && (r.phase.Creating? ==> r.restart.None?)
  }

  // The exits already consumed by each actor's history.
  ghost predicate RegistryInv(g: Registry) {
    && (forall a :: a in g.actors ==> RecordOk(g.actors[a]) && g.actors[a].actor == a)
    && (forall d :: d in g.exits ==> g.exits[d].exit.detection == d)
  }

  // `later` is the same route, or a strictly later one.
  ghost predicate Follows(earlier: Snapshot, later: Snapshot) {
    earlier == later || (earlier.epoch < later.epoch && earlier.generation <= later.generation)
  }

  lemma ReduceKeeps(r: Record, op: Op)
    requires RecordOk(r) && op.Valid()
    ensures RecordOk(Reduce(r, op)) && Reduce(r, op).actor == r.actor
    ensures Follows(SnapshotOf(r), SnapshotOf(Reduce(r, op)))
  {
  }

  lemma ExitKeeps(r: Record, e: Exit, restartAllowed: bool)
    requires RecordOk(r) && r.phase.Alive? && e.generation == r.generation && e.actor == r.actor && e.epoch == r.epoch
    ensures RecordOk(Exited(r, e, restartAllowed)) && Exited(r, e, restartAllowed).actor == r.actor
    ensures Follows(SnapshotOf(r), SnapshotOf(Exited(r, e, restartAllowed)))
  {
  }

  /** Every transition keeps snapshots constructible, and every visible change
      of a route takes a strictly larger epoch. */
  lemma PerformKeeps(g: Registry, op: Op)
    requires RegistryInv(g) && op.Valid()
    ensures RegistryInv(Perform(g, op))
    ensures forall a :: a in g.actors ==>
      a in Perform(g, op).actors && Follows(SnapshotOf(g.actors[a]), SnapshotOf(Perform(g, op).actors[a]))
  {
    hide RecordOk, Follows, Exited, Reduce, ExitVerdict, ProofKnown, SnapshotOf;
    var a := Subject(op);
    if a in g.actors { ReduceKeeps(g.actors[a], op); }
    if op.AcceptExit? && ExitVerdict(g, op.exit, op.seen, op.nodeAlive).Applied? {
      AppliedMeans(g, op);
      ExitKeeps(g.actors[a], op.exit, op.restartAllowed);
    }
    BegunKeeps(op);
    FollowsItself();
  }

  lemma AppliedMeans(g: Registry, op: Op)
    requires RegistryInv(g) && op.AcceptExit? && ExitVerdict(g, op.exit, op.seen, op.nodeAlive).Applied?
    ensures var a, e := op.exit.actor, op.exit;
      && a in g.actors && g.actors[a].phase.Alive? && e.actor == g.actors[a].actor
      && e.generation == g.actors[a].generation && e.epoch == g.actors[a].epoch
  {
  }

  lemma BegunKeeps(op: Op)
    ensures op.Begin? ==> RecordOk(Record(op.actor, op.maxRestarts, 0, Creating, 0, 0, None, None, None, None, None))
  {
  }

  lemma FollowsItself()
    ensures forall s :: Follows(s, s)
  {
  }

  // ------------------------------------------------------------------------
  // Each exit detection is consumed once

  /** An exit that was applied is only ever replayed, and no other exit may
      reuse its detection. */
  lemma {:induction false} ExitConsumedOnce(g: Registry, ops: seq<Op>, e: Exit, other: Exit, seen: Home,
                                            nodeAlive: bool)
    requires RegistryInv(g) && (forall op :: op in ops ==> op.Valid()) && other.detection == e.detection
    requires e.detection in g.exits && g.exits[e.detection].exit == e
    ensures e.detection in Run(g, ops).exits && Run(g, ops).exits[e.detection] == g.exits[e.detection]
    ensures ExitVerdict(Run(g, ops), other, seen, nodeAlive) == if other == e then AlreadyApplied else Conflict
    decreases |ops|
  {
    if ops == [] {
    } else {
      PerformKeeps(g, ops[0]);
      ExitConsumedOnce(Perform(g, ops[0]), ops[1..], e, other, seen, nodeAlive);
    }
  }

  ghost function Run(g: Registry, ops: seq<Op>): Registry
    decreases |ops|
  {
    if ops == [] then g else Run(Perform(g, ops[0]), ops[1..])
  }

  /** Main result: along any run, an Actor's later snapshot is the same one or
      has a strictly larger epoch and no smaller generation, so one epoch never
      names two snapshots. */
  lemma {:induction false} EpochsGrow(g: Registry, ops: seq<Op>, a: ActorID)
    requires RegistryInv(g) && (forall op :: op in ops ==> op.Valid()) && a in g.actors
    ensures RegistryInv(Run(g, ops)) && a in Run(g, ops).actors
    ensures Follows(SnapshotOf(g.actors[a]), SnapshotOf(Run(g, ops).actors[a]))
    decreases |ops|
  {
    if ops == [] {
    } else {
      PerformKeeps(g, ops[0]);
      EpochsGrow(Perform(g, ops[0]), ops[1..], a);
    }
  }

  // Snapshots of one Actor that some run published: any two are ordered.
  ghost predicate Linear(history: set<Snapshot>, a: ActorID) {
    && (forall s :: s in history ==> s.actor == a)
    && forall s, t :: s in history && t in history ==> Follows(s, t) || Follows(t, s)
  }

  // The snapshots of one Actor in every state of a run.
  ghost function History(g: Registry, ops: seq<Op>, a: ActorID): set<Snapshot>
    decreases |ops|
  {
    (if a in g.actors then {SnapshotOf(g.actors[a])} else {})
    + if ops == [] then {} else History(Perform(g, ops[0]), ops[1..], a)
  }

  lemma {:induction false} HistoryFollows(g: Registry, ops: seq<Op>, a: ActorID)
    requires RegistryInv(g) && (forall op :: op in ops ==> op.Valid())
    ensures a in g.actors ==> forall s :: s in History(g, ops, a) ==> Follows(SnapshotOf(g.actors[a]), s)
    ensures Linear(History(g, ops, a), a)
    decreases |ops|
  {
    if ops == [] {
    } else {
      PerformKeeps(g, ops[0]);
      HistoryFollows(Perform(g, ops[0]), ops[1..], a);
    }
  }

  // ------------------------------------------------------------------------
  // The owner's cache

  datatype Fence = Fence(actor: ActorID, epoch: nat, generation: nat, worker: WorkerID)
  datatype Entry = Entry(snapshot: Snapshot, nextSequence: nat, inflight: map<ObjectID, Fence>)

  datatype ClientError = UnknownEntry | ReusedEpoch | NotCallable
  datatype Result<+T> = Ok(value: T) | Err(error: ClientError)

  function Install(e: Entry, s: Snapshot): Result<(Entry, set<ObjectID>)> {
    if s.epoch < e.snapshot.epoch then Ok((e, {}))
    else if s.epoch == e.snapshot.epoch then if s != e.snapshot then Err(ReusedEpoch) else Ok((e, {}))
    else
      var fenced := set o | o in e.inflight && e.inflight[o].epoch < s.epoch;
      Ok((Entry(s, if s.generation != e.snapshot.generation then 0 else e.nextSequence, e.inflight - fenced), fenced))
  }

  function BeginCall(e: Entry, o: ObjectID): Result<(Entry, nat, Fence)> {
    if !e.snapshot.phase.Alive? || e.snapshot.endpoint.None? then Err(NotCallable)
    else
      var fence := Fence(e.snapshot.actor, e.snapshot.epoch, e.snapshot.generation, e.snapshot.endpoint.value.worker);
      Ok((e.(nextSequence := e.nextSequence + 1, inflight := e.inflight[o := fence]), e.nextSequence, fence))
  }

  predicate CanPublish(e: Entry, o: ObjectID, fence: Fence) {
    && o in e.inflight && e.inflight[o] == fence
    && e.snapshot.phase.Alive? && e.snapshot.epoch == fence.epoch && e.snapshot.generation == fence.generation
    && e.snapshot.endpoint.Some? && e.snapshot.endpoint.value.worker == fence.worker
  }

  function FinishCall(e: Entry, o: ObjectID, fence: Fence): (Entry, bool) {
    if o !in e.inflight || e.inflight[o] != fence then (e, false) else (e.(inflight := e.inflight - {o}), true)
  }

  datatype ClientOp = Installs(snapshot: Snapshot) | Begins(id: ObjectID) | Finishes(done: ObjectID, fence: Fence)

  function ClientStep(e: Entry, op: ClientOp): Entry {
    match op
    case Installs(s) => if Install(e, s).Ok? then Install(e, s).value.0 else e
    case Begins(o) => if BeginCall(e, o).Ok? then BeginCall(e, o).value.0 else e
    case Finishes(o, fence) => FinishCall(e, o, fence).0
  }

  // The (generation, sequence) pairs handed out so far.
  function Issued(e: Entry, log: seq<(nat, nat)>, op: ClientOp): seq<(nat, nat)> {
    if op.Begins? && BeginCall(e, op.id).Ok? then log + [(e.snapshot.generation, e.nextSequence)] else log
  }

  // Calls in flight were begun on the current route; numbers are never handed out twice.
  ghost predicate EntryOk(e: Entry, log: seq<(nat, nat)>, history: set<Snapshot>) {
    && e.snapshot in history
    && (forall o :: o in e.inflight ==> e.inflight[o].epoch == e.snapshot.epoch)
    && (forall i :: 0 <= i < |log| ==> log[i].0 <= e.snapshot.generation
                                       && (log[i].0 == e.snapshot.generation ==> log[i].1 < e.nextSequence))
    && forall i, j :: 0 <= i < j < |log| ==> log[i] != log[j]
  }

  lemma ClientStepKeeps(e: Entry, log: seq<(nat, nat)>, op: ClientOp, history: set<Snapshot>, a: ActorID)
    requires EntryOk(e, log, history) && Linear(history, a) && (op.Installs? ==> op.snapshot in history)
    ensures EntryOk(ClientStep(e, op), Issued(e, log, op), history)
    ensures op.Installs? ==> Install(e, op.snapshot).Ok?
    ensures e.snapshot.epoch <= ClientStep(e, op).snapshot.epoch
    ensures op.Installs? ==> op.snapshot.epoch <= ClientStep(e, op).snapshot.epoch
    ensures ClientStep(e, op).snapshot == e.snapshot || (op.Installs? && ClientStep(e, op).snapshot == op.snapshot)
  {
    if op.Installs? {
      assert Follows(e.snapshot, op.snapshot) || Follows(op.snapshot, e.snapshot);
    }
  }

  ghost function ClientRun(e: Entry, log: seq<(nat, nat)>, ops: seq<ClientOp>): (Entry, seq<(nat, nat)>)
    decreases |ops|
  {
    if ops == [] then (e, log) else ClientRun(ClientStep(e, ops[0]), Issued(e, log, ops[0]), ops[1..])
  }

  // No install of the run is refused.
  ghost predicate NeverRefused(e: Entry, ops: seq<ClientOp>)
    decreases |ops|
  {
    ops == [] ||
    ((ops[0].Installs? ==> Install(e, ops[0].snapshot).Ok?) && NeverRefused(ClientStep(e, ops[0]), ops[1..]))
  }

  /** Main result: fed the registry's snapshots in any order, with duplicates,
      the cache never meets a reused epoch, ends at the largest epoch it was
      given, and never hands out one sequence number twice in a generation. */
  lemma {:induction false} CacheConverges(e: Entry, log: seq<(nat, nat)>, ops: seq<ClientOp>, history: set<Snapshot>,
                                          a: ActorID)
    requires EntryOk(e, log, history) && Linear(history, a)
    requires forall op :: op in ops && op.Installs? ==> op.snapshot in history
    ensures NeverRefused(e, ops)
    ensures var (e', log') := ClientRun(e, log, ops);
      && EntryOk(e', log', history) && e.snapshot.epoch <= e'.snapshot.epoch
      && (forall op :: op in ops && op.Installs? ==> op.snapshot.epoch <= e'.snapshot.epoch)
      && (e'.snapshot == e.snapshot || Installs(e'.snapshot) in ops)
    decreases |ops|
  {
    if ops == [] {
    } else {
      ClientStepKeeps(e, log, ops[0], history, a);
      CacheConverges(ClientStep(e, ops[0]), Issued(e, log, ops[0]), ops[1..], history, a);
      assert ops == [ops[0]] + ops[1..];
    }
  }

  /** Main result: the same, for exactly the snapshots one registry run
      published for the Actor. */
  lemma CacheFollowsRegistry(g: Registry, runs: seq<Op>, a: ActorID, e: Entry, ops: seq<ClientOp>)
    requires RegistryInv(g) && (forall op :: op in runs ==> op.Valid())
    requires e.snapshot in History(g, runs, a) && e.inflight == map[]
    requires forall op :: op in ops && op.Installs? ==> op.snapshot in History(g, runs, a)
    ensures NeverRefused(e, ops)
    ensures var e' := ClientRun(e, [], ops).0;
      e'.snapshot in History(g, runs, a) && forall op :: op in ops && op.Installs? ==>
        op.snapshot.epoch <= e'.snapshot.epoch
  {
    HistoryFollows(g, runs, a);
    CacheConverges(e, [], ops, History(g, runs, a), a);
  }

  /** Main result: once a newer route is installed, a call begun on the older
      one can never publish, whatever happens to its ObjectID afterwards. */
  lemma FencedNeverPublishes(e: Entry, log: seq<(nat, nat)>, ops: seq<ClientOp>, history: set<Snapshot>,
                             a: ActorID, o: ObjectID, fence: Fence)
    requires EntryOk(e, log, history) && Linear(history, a) && fence.epoch < e.snapshot.epoch
    requires forall op :: op in ops && op.Installs? ==> op.snapshot in history
    ensures !CanPublish(ClientRun(e, log, ops).0, o, fence)
  {
    CacheConverges(e, log, ops, history, a);
  }

  // A call that was not fenced can publish exactly while it is in flight.
  lemma InflightCanPublish(e: Entry, o: ObjectID)
    requires BeginCall(e, o).Ok?
    ensures var (e', _, fence) := BeginCall(e, o).value;
      CanPublish(e', o, fence) && !CanPublish(FinishCall(e', o, fence).0, o, fence)
  {
  }

  // ------------------------------------------------------------------------
  // The cache object

  class ActorClientTable {
    var entries: map<ActorID, Entry>

    /** Install one route update and return the calls it fenced. */
    method InstallRoute(s: Snapshot) returns (fenced: Result<(bool, set<ObjectID>)>)
      modifies this
      ensures s.actor !in old(entries) ==> fenced == Err(UnknownEntry) && entries == old(entries)
      ensures s.actor in old(entries) ==>
        var done := Install(old(entries)[s.actor], s);
        && (done.Err? ==> fenced == Err(done.error) && entries == old(entries))
        && (done.Ok? ==> fenced == Ok((done.value.0 != old(entries)[s.actor], done.value.1))
                         && entries == old(entries)[s.actor := done.value.0])
    {
      if s.actor !in entries { return Err(UnknownEntry); }
      var entry := entries[s.actor];
      if s.epoch < entry.snapshot.epoch { return Ok((false, {})); }
      if s.epoch == entry.snapshot.epoch {
        return if s != entry.snapshot then Err(ReusedEpoch) else Ok((false, {}));
      }
      var stale := set o | o in entry.inflight && entry.inflight[o].epoch < s.epoch;
      var left, inflight := stale, entry.inflight;
      while left != {}
        invariant left <= stale && inflight == entry.inflight - (stale - left)
        decreases left
      {
        var o :| o in left;
        inflight, left := inflight - {o}, left - {o};
      }
      assert inflight == entry.inflight - stale;
      var next := if s.generation != entry.snapshot.generation then 0 else entry.nextSequence;
      entries := entries[s.actor := Entry(s, next, inflight)];
      fenced := Ok((true, stale));
    }

    method Begin(actor: ActorID, id: ObjectID) returns (call: Result<(nat, Fence)>)
      requires actor in entries
      modifies this
      ensures var done := BeginCall(old(entries)[actor], id);
        && (done.Err? ==> call == Err(done.error) && entries == old(entries))
        && (done.Ok? ==> call == Ok((done.value.1, done.value.2)) && entries == old(entries)[actor := done.value.0])
    {
      var entry := entries[actor];
      if !entry.snapshot.phase.Alive? || entry.snapshot.endpoint.None? { return Err(NotCallable); }
      var fence := Fence(entry.snapshot.actor, entry.snapshot.epoch, entry.snapshot.generation,
                         entry.snapshot.endpoint.value.worker);
      entries := entries[actor := entry.(nextSequence := entry.nextSequence + 1,
                                         inflight := entry.inflight[id := fence])];
      call := Ok((entry.nextSequence, fence));
    }

    method MayPublish(id: ObjectID, fence: Fence) returns (may: bool)
      ensures may <==> fence.actor in entries && CanPublish(entries[fence.actor], id, fence)
    {
      if fence.actor !in entries { return false; }
      var entry := entries[fence.actor];
      if id !in entry.inflight || entry.inflight[id] != fence { return false; }
      var route := entry.snapshot;
      may := route.phase.Alive? && route.epoch == fence.epoch && route.generation == fence.generation
             && route.endpoint.Some? && route.endpoint.value.worker == fence.worker;
    }

    method Finish(id: ObjectID, fence: Fence) returns (finished: bool)
      modifies this
      ensures fence.actor !in old(entries) ==> !finished && entries == old(entries)
      ensures fence.actor in old(entries) ==>
        var done := FinishCall(old(entries)[fence.actor], id, fence);
        finished == done.1 && entries == old(entries)[fence.actor := done.0]
    {
      if fence.actor !in entries { return false; }
      var entry := entries[fence.actor];
      if id !in entry.inflight || entry.inflight[id] != fence { return false; }
      entries := entries[fence.actor := entry.(inflight := entry.inflight - {id})];
      finished := true;
    }
  }

  // ------------------------------------------------------------------------
  // The registry object

  class ActorRegistry {
    var actors: map<ActorID, Record>
    var exits: map<string, Outcome>

    function View(): Registry
      reads this
    {
      Registry(actors, exits)
    }

    ghost predicate Valid()
      reads this
    {
      RegistryInv(View())
    }

    method CheckExit(e: Exit, seen: Home, nodeAlive: bool) returns (verdict: Disposition)
      ensures verdict == ExitVerdict(View(), e, seen, nodeAlive)
    {
      if e.detection in exits {
        return if exits[e.detection].exit == e then AlreadyApplied else Conflict;
      }
      if e.actor !in actors { return UnknownActor; }
      var r := actors[e.actor];
      if !r.phase.Alive? { return if e.generation < r.generation then StaleExit else Conflict; }
      if e.generation < r.generation { return StaleExit; }
      if e.generation != r.generation { return Conflict; }
      var same := nodeAlive && seen == e.home && r.endpoint.Some? && r.endpoint.value.node == e.home.node
        && r.endpoint.value.worker == e.worker && r.endpoint.value.pid == e.pid && r.epoch == e.epoch;
      verdict := if same then Applied else Conflict;
    }

    method ReduceExit(r: Record, e: Exit, restartAllowed: bool) returns (r': Record)
      ensures r' == Exited(r, e, restartAllowed)
    {
      r' := r.(lastExit := Some(e), endpoint := None, epoch := r.epoch + 1);
      if !restartAllowed || r.restartsUsed >= r.maxRestarts {
        r' := r'.(phase := Dead, restart := None, error := Some(if restartAllowed then "Actor restart budget exhausted"
                                                                else "Actor restart admission is closed"));
      } else {
        r' := r'.(phase := Restarting, restartsUsed := r.restartsUsed + 1, generation := r.generation + 1,
                  error := None);
        r' := r'.(restart := Some(Reservation(r'.generation, e.home.node, r'.epoch + 1, Some(e))));
      }
    }

    /** Validate one exit report and allocate at most one generation for it. */
    method AcceptWorkerExit(e: Exit, seen: Home, nodeAlive: bool, restartAllowed: bool) returns (verdict: Disposition)
      requires Valid()
      modifies this
      ensures Valid() && View() == Perform(old(View()), AcceptExit(e, seen, nodeAlive, restartAllowed))
      ensures verdict == ExitVerdict(old(View()), e, seen, nodeAlive)
    {
      PerformKeeps(View(), AcceptExit(e, seen, nodeAlive, restartAllowed));
      verdict := CheckExit(e, seen, nodeAlive);
      if verdict.Applied? {
        var r := ReduceExit(actors[e.actor], e, restartAllowed);
        actors, exits := actors[e.actor := r], exits[e.detection := Outcome(e, SnapshotOf(r))];
      }
    }
  }
}
