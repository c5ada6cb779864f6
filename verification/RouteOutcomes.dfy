/** The owner's route cache over whole runs: which calls may publish, and the
    numbers it hands to the Actor's mailbox. */
module RouteOutcomes {
  import opened Ids
  import opened ActorRoutes

  // ------------------------------------------------------------------------
  // Single steps

  /** A call begins exactly on a live route with an endpoint. It takes the next number
      and the fence of that route, and nothing else changes. */
  lemma BeginIff(e: Entry, o: ObjectID)
    ensures var done := BeginCall(e, o);
      && (done.Ok? <==> e.snapshot.phase.Alive? && e.snapshot.endpoint.Some?)
      && (done.Ok? ==>
            var (t, number, fence) := done.value;
            && number == e.nextSequence
            && fence == Fence(e.snapshot.actor, e.snapshot.epoch, e.snapshot.generation,
                              e.snapshot.endpoint.value.worker)
            && t == Entry(e.snapshot, e.nextSequence + 1, e.inflight[o := fence]))
  {
  }

  /** A snapshot is refused exactly when it reuses the epoch for other contents. A
      newer one becomes the route and fences exactly the calls of older routes; the
      numbers start again exactly with a new generation. */
  lemma InstallIff(e: Entry, s: Snapshot)
    ensures var done := Install(e, s);
      && (done.Err? <==> s.epoch == e.snapshot.epoch && s != e.snapshot)
      && (done.Ok? && s.epoch <= e.snapshot.epoch ==> done.value == (e, {}))
      && (s.epoch > e.snapshot.epoch ==>
            && done.Ok? && done.value.0.snapshot == s
            && (forall o :: o in done.value.1 <==> o in e.inflight && e.inflight[o].epoch < s.epoch)
            && (forall o :: o in done.value.0.inflight <==> o in e.inflight && o !in done.value.1)
            && (forall o :: o in done.value.0.inflight ==> done.value.0.inflight[o] == e.inflight[o])
            && done.value.0.nextSequence == if s.generation == e.snapshot.generation then e.nextSequence else 0)
  {
  }

  // ------------------------------------------------------------------------
  // Who may publish

  // The call under this fence is in flight on the current route.
  ghost predicate OnRoute(e: Entry, o: ObjectID, fence: Fence) {
    && o in e.inflight && e.inflight[o] == fence && e.snapshot.phase.Alive? && e.snapshot.endpoint.Some?
    && fence == Fence(fence.actor, e.snapshot.epoch, e.snapshot.generation, e.snapshot.endpoint.value.worker)
  }

  // The route of the fence was replaced, or the call is no longer in flight.
  ghost predicate OffRoute(e: Entry, o: ObjectID, fence: Fence) {
    e.snapshot.epoch > fence.epoch || o !in e.inflight
  }

  // This operation ends the call: it finishes, or a newer route arrives.
  predicate Ends(op: ClientOp, o: ObjectID, fence: Fence) {
    op == Finishes(o, fence) || (op.Installs? && op.snapshot.epoch > fence.epoch)
  }

  lemma RouteStep(e: Entry, op: ClientOp, o: ObjectID, fence: Fence)
    requires op != Begins(o)
    ensures OnRoute(e, o, fence) && !Ends(op, o, fence) ==> OnRoute(ClientStep(e, op), o, fence)
    ensures OnRoute(e, o, fence) && Ends(op, o, fence) ==> OffRoute(ClientStep(e, op), o, fence)
    ensures OffRoute(e, o, fence) ==> OffRoute(ClientStep(e, op), o, fence)
  {
  }

  lemma {:induction false} RouteRun(e: Entry, log: seq<(nat, nat)>, ops: seq<ClientOp>, o: ObjectID, fence: Fence)
    requires Begins(o) !in ops && (OnRoute(e, o, fence) || OffRoute(e, o, fence))
    ensures var t := ClientRun(e, log, ops).0;
      if OnRoute(e, o, fence) && forall op :: op in ops ==> !Ends(op, o, fence)
      then OnRoute(t, o, fence) else OffRoute(t, o, fence)
    decreases |ops|
  {
    hide OnRoute, OffRoute, Ends, ClientStep;
    if ops == [] {
    } else {
      RouteStep(e, ops[0], o, fence);
      RouteRun(ClientStep(e, ops[0]), Issued(e, log, ops[0]), ops[1..], o, fence);
      assert ops == [ops[0]] + ops[1..];
      if OnRoute(e, o, fence) { OneRoute(e, o, fence); }
      if OnRoute(ClientStep(e, ops[0]), o, fence) { OneRoute(ClientStep(e, ops[0]), o, fence); }
    }
  }

  lemma OneRoute(e: Entry, o: ObjectID, fence: Fence)
    requires OnRoute(e, o, fence)
    ensures !OffRoute(e, o, fence)
  {
  }

  /** Main result: whatever else the cache does, a begun call can publish exactly
      until it is finished or a newer route is installed. */
  lemma PublishesIff(e: Entry, log: seq<(nat, nat)>, ops: seq<ClientOp>, o: ObjectID)
    requires BeginCall(e, o).Ok? && Begins(o) !in ops
    ensures var (begun, _, fence) := BeginCall(e, o).value;
      CanPublish(ClientRun(begun, log, ops).0, o, fence) <==> forall op :: op in ops ==> !Ends(op, o, fence)
  {
    hide ClientStep, Ends;
    var (begun, _, fence) := BeginCall(e, o).value;
    RouteRun(begun, log, ops, o, fence);
  }

  // ------------------------------------------------------------------------
  // The numbers of one generation

  // The numbers handed out under one generation, in order.
  function NumbersOf(log: seq<(nat, nat)>, generation: nat): seq<nat> {
    if log == [] then []
    else NumbersOf(log[..|log| - 1], generation)
         + if log[|log| - 1].0 == generation then [log[|log| - 1].1] else []
  }

  // The n-th number is n.
  ghost predicate CountsUp(numbers: seq<nat>) { forall i :: 0 <= i < |numbers| ==> numbers[i] == i }

  // Every generation so far was numbered 0, 1, 2, ...; the current one is at nextSequence.
  ghost predicate Numbered(e: Entry, log: seq<(nat, nat)>) {
    && (forall g: nat :: CountsUp(NumbersOf(log, g)))
    && |NumbersOf(log, e.snapshot.generation)| == e.nextSequence
    && forall g: nat :: g > e.snapshot.generation ==> NumbersOf(log, g) == []
  }

  lemma NumbersAppend(log: seq<(nat, nat)>, last: (nat, nat), generation: nat)
    ensures NumbersOf(log + [last], generation)
         == NumbersOf(log, generation) + if last.0 == generation then [last.1] else []
  {
    assert (log + [last])[..|log|] == log;
  }

  lemma IssueNumbers(e: Entry, log: seq<(nat, nat)>, o: ObjectID)
    requires Numbered(e, log) && BeginCall(e, o).Ok?
    ensures Numbered(ClientStep(e, Begins(o)), Issued(e, log, Begins(o)))
  {
    var last := (e.snapshot.generation, e.nextSequence);
    forall g: nat
      ensures CountsUp(NumbersOf(log + [last], g))
      ensures NumbersOf(log + [last], g) == NumbersOf(log, g) + if last.0 == g then [last.1] else []
    {
      NumbersAppend(log, last, g);
      assert CountsUp(NumbersOf(log, g));
    }
  }

  lemma StepNumbers(e: Entry, log: seq<(nat, nat)>, op: ClientOp, history: set<Snapshot>, a: ActorID)
    requires Numbered(e, log) && Linear(history, a) && e.snapshot in history
    requires op.Installs? ==> op.snapshot in history
    ensures Numbered(ClientStep(e, op), Issued(e, log, op)) && ClientStep(e, op).snapshot in history
  {
    hide NumbersOf;
    match op
    case Begins(o) => if BeginCall(e, o).Ok? { IssueNumbers(e, log, o); }
    case Installs(s) => assert Follows(e.snapshot, s) || Follows(s, e.snapshot);
    case Finishes(_, _) =>
  }

  /** Main result: fed the snapshots of one Actor in any order, the cache numbers the
      calls of every generation 0, 1, 2, ... without a gap, which is the order in which
      the mailbox of that generation starts them. */
  lemma {:induction false} NumbersAreConsecutive(e: Entry, log: seq<(nat, nat)>, ops: seq<ClientOp>,
                                                 history: set<Snapshot>, a: ActorID)
    requires Numbered(e, log) && Linear(history, a) && e.snapshot in history
    requires forall op :: op in ops && op.Installs? ==> op.snapshot in history
    ensures var (t, issued) := ClientRun(e, log, ops); Numbered(t, issued) && t.snapshot in history
    decreases |ops|
  {
    hide Numbered, Linear, ClientStep, Issued;
    if ops == [] {
    } else {
      StepNumbers(e, log, ops[0], history, a);
      NumbersAreConsecutive(ClientStep(e, ops[0]), Issued(e, log, ops[0]), ops[1..], history, a);
    }
  }

  /** A registered entry starts with no numbers handed out. */
  lemma StartIsNumbered(s: Snapshot)
    ensures Numbered(Entry(s, 0, map[]), [])
  {
  }
}
