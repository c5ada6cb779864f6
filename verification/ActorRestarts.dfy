/** What each registry operation does to the published route of an Actor, and how
    many exits a restart budget survives. */
module ActorRestarts {
  import opened Ids
  import opened ActorRoutes

  // ------------------------------------------------------------------------
  // Exits

  // The route the registry publishes for the Actor.
  function Route(g: Registry, a: ActorID): Snapshot
    requires a in g.actors
  {
    SnapshotOf(g.actors[a])
  }

  // Everything else in the registry is as it was.
  ghost predicate Only(g: Registry, h: Registry, a: ActorID) {
    h.actors.Keys == g.actors.Keys && forall b :: b in g.actors && b != a ==> h.actors[b] == g.actors[b]
  }

  // The report is new and describes exactly the route that is published.
  predicate Matches(g: Registry, e: Exit, seen: Home, nodeAlive: bool) {
    && e.detection !in g.exits && e.actor in g.actors
    && var s := Route(g, e.actor);
    && s.phase.Alive? && s.endpoint.Some? && e.generation == s.generation && e.epoch == s.epoch
    && nodeAlive && seen == e.home
    && e.home.node == s.endpoint.value.node && e.worker == s.endpoint.value.worker && e.pid == s.endpoint.value.pid
  }

  /** An exit report is applied exactly when it is new and matches the published
      route; otherwise it changes nothing and is classified by what it misses. */
  lemma ExitClassified(g: Registry, e: Exit, seen: Home, nodeAlive: bool, allowed: bool)
    requires RegistryInv(g)
    ensures var verdict := ExitVerdict(g, e, seen, nodeAlive);
      && (verdict.Applied? <==> Matches(g, e, seen, nodeAlive))
      && (!verdict.Applied? ==> Perform(g, AcceptExit(e, seen, nodeAlive, allowed)) == g)
      && (verdict.AlreadyApplied? <==> e.detection in g.exits && g.exits[e.detection].exit == e)
      && (verdict.UnknownActor? <==> e.detection !in g.exits && e.actor !in g.actors)
      && (verdict.StaleExit? <==>
            e.detection !in g.exits && e.actor in g.actors && e.generation < Route(g, e.actor).generation)
  {
  }

  // The route after an exit: the next generation while the budget lasts, or the end.
  function AfterExit(s: Snapshot, e: Exit, allowed: bool): Snapshot {
    if allowed && s.restartsUsed < s.maxRestarts then
      Snapshot(s.actor, s.generation + 1, Restarting, s.epoch + 1, s.restartsUsed + 1, s.maxRestarts, Some(e), None,
               None)
    else
      Snapshot(s.actor, s.generation, Dead, s.epoch + 1, s.restartsUsed, s.maxRestarts, Some(e), None,
               Some(if allowed then "Actor restart budget exhausted" else "Actor restart admission is closed"))
  }

  /** Main result: an applied exit restarts the Actor, with generation and restarts
      one larger, exactly when restarts are admitted and the budget is not used up;
      otherwise the Actor is dead. The exit is remembered with that outcome. */
  lemma ExitMeans(g: Registry, e: Exit, seen: Home, nodeAlive: bool, allowed: bool)
    requires RegistryInv(g) && Matches(g, e, seen, nodeAlive)
    ensures var h, before := Perform(g, AcceptExit(e, seen, nodeAlive, allowed)), Route(g, e.actor);
      && Only(g, h, e.actor) && Route(h, e.actor) == AfterExit(before, e, allowed)
      && (Route(h, e.actor).phase.Restarting? <==> allowed && before.restartsUsed < before.maxRestarts)
      && (Route(h, e.actor).phase.Dead? <==> !(allowed && before.restartsUsed < before.maxRestarts))
      && h.exits == g.exits[e.detection := Outcome(e, Route(h, e.actor))]
  {
    hide ExitVerdict, RecordOk;
    ExitClassified(g, e, seen, nodeAlive, allowed);
  }

  // ------------------------------------------------------------------------
  // The other operations

  // The registry accepted this exit before.
  predicate Proven(g: Registry, e: Exit) { e.detection in g.exits && g.exits[e.detection].exit == e }

  /** Creation opens a fresh route, once. */
  lemma CreationMeans(g: Registry, a: ActorID, budget: nat)
    ensures var h := Perform(g, Begin(a, budget));
      && a in h.actors && h.exits == g.exits && h.actors - {a} == g.actors - {a}
      && (a in g.actors ==> h == g)
      && (a !in g.actors ==>
            Route(h, a) == Snapshot(a, 0, Creating, 0, 0, budget, None, None, None) && h.actors[a].initial.None?)
  {
  }

  // A creation that no Node was asked for yet.
  ghost predicate Idle(g: Registry, a: ActorID)
    requires a in g.actors
  {
    Route(g, a).phase.Creating? && g.actors[a].initial.None?
  }

  // What an operation on one record does to the registry.
  lemma Reduced(g: Registry, a: ActorID, op: Op)
    requires a in g.actors && Subject(op) == a && !op.Begin? && !op.AcceptExit?
    ensures var h := Perform(g, op);
      && Only(g, h, a) && h.exits == g.exits
      && h.actors[a] == if ProofKnown(g, op) then Reduce(g.actors[a], op) else g.actors[a]
  {
    hide Reduce, ProofKnown;
  }

  /** A creation without a reservation can be cancelled; it then takes none. */
  lemma CancelMeans(g: Registry, a: ActorID, why: string)
    requires RegistryInv(g) && a in g.actors
    ensures var h, s := Perform(g, Cancel(a, why)), Route(g, a);
      && Only(g, h, a) && h.exits == g.exits
      && Route(h, a) == if Idle(g, a) then s.(phase := Dead, epoch := s.epoch + 1, error := Some(why)) else s
  {
    hide Perform;
    Reduced(g, a, Cancel(a, why));
  }

  /** The first reservation of a creation is frozen. */
  lemma ReserveMeans(g: Registry, a: ActorID, reservation: Reservation)
    requires a in g.actors
    ensures var h := Perform(g, Reserve(a, reservation));
      && Only(g, h, a) && h.exits == g.exits && Route(h, a) == Route(g, a)
      && h.actors[a].initial == if Idle(g, a) then Some(reservation) else g.actors[a].initial
  {
    hide Perform;
    Reduced(g, a, Reserve(a, reservation));
  }

  /** The first outcome of a creation is published with a larger epoch; ambiguous
      replies and replies after an outcome change nothing. */
  lemma FinishMeans(g: Registry, a: ActorID, accepted: bool, retryable: bool, place: Option<Endpoint>, why: string,
                    epoch: nat)
    requires RegistryInv(g) && a in g.actors && Finish(a, accepted, retryable, place, why, epoch).Valid()
    ensures var h, s := Perform(g, Finish(a, accepted, retryable, place, why, epoch)), Route(g, a);
      var larger := if epoch > s.epoch then epoch else s.epoch + 1;
      && Only(g, h, a) && h.exits == g.exits
      && Route(h, a) ==
           if !s.phase.Creating? || retryable then s
           else if accepted then s.(phase := Alive, epoch := larger, endpoint := place, error := None)
           else s.(phase := Dead, epoch := larger, endpoint := None, error := Some(why))
  {
    hide Perform;
    Reduced(g, a, Finish(a, accepted, retryable, place, why, epoch));
  }

  /** A restart is published exactly when it is of the waiting generation on the
      Node of the exit; it takes the reserved epoch. */
  lemma PublishMeans(g: Registry, e: Exit, restarted: bool, generation: nat, place: Endpoint)
    requires RegistryInv(g) && e.actor in g.actors
    ensures var h, s := Perform(g, PublishRestart(e, restarted, generation, place)), Route(g, e.actor);
      var fits := Proven(g, e) && s.phase.Restarting? && restarted && generation == s.generation
                  && s.lastExit.Some? && place.node == s.lastExit.value.home.node;
      && Only(g, h, e.actor) && h.exits == g.exits
      && Route(h, e.actor) ==
           if fits then s.(phase := Alive, epoch := s.epoch + 1, endpoint := Some(place), error := None) else s
  {
    hide Perform;
    Reduced(g, e.actor, PublishRestart(e, restarted, generation, place));
  }

  /** A rejected restart ends the Actor exactly when it is the restart of the last exit. */
  lemma FailRestartMeans(g: Registry, e: Exit, why: string)
    requires RegistryInv(g) && e.actor in g.actors
    ensures var h, s := Perform(g, FailRestart(e, why)), Route(g, e.actor);
      && Only(g, h, e.actor) && h.exits == g.exits
      && Route(h, e.actor) ==
           if Proven(g, e) && s.phase.Restarting? && s.lastExit == Some(e) then
             s.(phase := Dead, epoch := s.epoch + 1, error := Some(why))
           else s
  {
    hide Perform;
    Reduced(g, e.actor, FailRestart(e, why));
  }

  // The Node this Actor runs on, or is to be created or restarted on.
  ghost predicate Uses(g: Registry, a: ActorID, node: NodeID)
    requires a in g.actors
  {
    var s := Route(g, a);
    match s.phase
    case Alive => s.endpoint.Some? && s.endpoint.value.node == node
    case Creating => g.actors[a].initial.Some? && g.actors[a].initial.value.target == node
    case Restarting => s.lastExit.Some? && s.lastExit.value.home.node == node
    case Dead => false
  }

  /** The loss of a Node ends exactly the Actors that use it, or wait for it. */
  lemma FailOnNodeMeans(g: Registry, a: ActorID, node: NodeID, why: string)
    requires RegistryInv(g) && a in g.actors
    ensures var h, s := Perform(g, FailOnNode(a, node, why)), Route(g, a);
      && Only(g, h, a) && h.exits == g.exits
      && (if Uses(g, a, node) then
            && Route(h, a) == s.(phase := Dead, epoch := Route(h, a).epoch, endpoint := None, error := Some(why))
            && Route(h, a).epoch > s.epoch
            && (Route(h, a).epoch == s.epoch + 1 ||
                (g.actors[a].initial.Some? && Route(h, a).epoch == g.actors[a].initial.value.epoch))
          else Route(h, a) == s)
  {
    hide Perform;
    Reduced(g, a, FailOnNode(a, node, why));
  }

  // ------------------------------------------------------------------------
  // The restart budget

  // How many more exits the Actor survives, and the one it does not.
  function Lives(s: Snapshot): int { if s.phase.Dead? then 0 else s.maxRestarts - s.restartsUsed + 1 }

  // Restarts are admitted, and nothing but an exit ends this Actor.
  predicate Kindly(op: Op, a: ActorID) {
    Subject(op) == a ==>
      match op
      case Begin(_, _) => true
      case Reserve(_, _) => true
      case PublishRestart(_, _, _, _) => true
      case Finish(_, accepted, retryable, _, _, _) => accepted || retryable
      case AcceptExit(_, _, _, restartAllowed) => restartAllowed
      case _ => false
  }

  // This operation applies an exit of the Actor.
  ghost predicate Exits(g: Registry, op: Op, a: ActorID) {
    op.AcceptExit? && op.exit.actor == a && Matches(g, op.exit, op.seen, op.nodeAlive)
  }

  ghost function ExitCount(g: Registry, ops: seq<Op>, a: ActorID): nat
    decreases |ops|
  {
    if ops == [] then 0 else (if Exits(g, ops[0], a) then 1 else 0) + ExitCount(Perform(g, ops[0]), ops[1..], a)
  }

  lemma LivesAreBounded(g: Registry, a: ActorID)
    requires RegistryInv(g) && a in g.actors
    ensures Lives(Route(g, a)) >= 0 && (Lives(Route(g, a)) == 0 <==> Route(g, a).phase.Dead?)
  {
  }

  lemma ElsewhereKeeps(g: Registry, op: Op, a: ActorID)
    requires RegistryInv(g) && a in g.actors && Subject(op) != a
    ensures a in Perform(g, op).actors && Perform(g, op).actors[a] == g.actors[a]
  {
    hide Reduce, ExitVerdict, ProofKnown, Exited, RecordOk;
  }

  lemma KindStep(g: Registry, op: Op, a: ActorID)
    requires RegistryInv(g) && op.Valid() && a in g.actors && Kindly(op, a)
    ensures a in Perform(g, op).actors
    ensures Lives(Route(Perform(g, op), a)) == Lives(Route(g, a)) - (if Exits(g, op, a) then 1 else 0)
    ensures Route(Perform(g, op), a).maxRestarts == Route(g, a).maxRestarts
  {
    hide Perform, RegistryInv, SnapshotOf;
    if Subject(op) != a {
      ElsewhereKeeps(g, op, a);
    } else {
      match op
      case Begin(_, budget) => CreationMeans(g, a, budget);
      case Reserve(_, reservation) => ReserveMeans(g, a, reservation);
      case PublishRestart(e, restarted, generation, place) => PublishMeans(g, e, restarted, generation, place);
      case Finish(_, accepted, retryable, place, why, epoch) =>
        FinishMeans(g, a, accepted, retryable, place, why, epoch);
      case AcceptExit(e, seen, nodeAlive, allowed) =>
        BudgetHolds(g, a);
        ExitClassified(g, e, seen, nodeAlive, allowed);
        if Matches(g, e, seen, nodeAlive) { ExitMeans(g, e, seen, nodeAlive, allowed); }
    }
  }

  lemma BudgetHolds(g: Registry, a: ActorID)
    requires RegistryInv(g) && a in g.actors
    ensures Route(g, a).restartsUsed <= Route(g, a).maxRestarts
  {
  }

  /** Main result: over any run that admits restarts, each applied exit costs
      exactly one life, so an Actor created with budget n survives its first n exits
      and is dead after exit n + 1, and at no other time. */
  lemma {:induction false} ExitsCostLives(g: Registry, ops: seq<Op>, a: ActorID)
    requires RegistryInv(g) && a in g.actors && forall op :: op in ops ==> op.Valid() && Kindly(op, a)
    ensures RegistryInv(Run(g, ops)) && a in Run(g, ops).actors
    ensures var t := Route(Run(g, ops), a);
      && Lives(t) == Lives(Route(g, a)) - ExitCount(g, ops, a)
      && (t.phase.Dead? <==> ExitCount(g, ops, a) == Lives(Route(g, a)))
      && t.maxRestarts == Route(g, a).maxRestarts
    decreases |ops|
  {
    hide Perform, RegistryInv, Exits, Kindly, Lives;
    if ops == [] {
      LivesAreBounded(g, a);
    } else {
      PerformKeeps(g, ops[0]);
      KindStep(g, ops[0], a);
      ExitsCostLives(Perform(g, ops[0]), ops[1..], a);
    }
  }

  // The exit of the Worker the route names, seen on its own Node.
  function OwnExit(s: Snapshot, detection: string, home: Home): Exit
    requires s.endpoint.Some?
  {
    Exit(detection, s.actor, s.generation, s.epoch, home, s.endpoint.value.worker, s.endpoint.value.pid)
  }

  // Detections the registry never saw, each used once.
  predicate Unused(g: Registry, detections: seq<string>) {
    && (forall d :: d in detections ==> d !in g.exits)
    && forall i, j :: 0 <= i < j < |detections| ==> detections[i] != detections[j]
  }

  lemma ExitApplies(g: Registry, a: ActorID, detection: string, home: Home)
    requires RegistryInv(g) && a in g.actors && Route(g, a).phase.Alive? && detection !in g.exits
    requires Route(g, a).endpoint.Some? ==> home.node == Route(g, a).endpoint.value.node
    ensures Route(g, a).endpoint.Some?
    ensures var e := OwnExit(Route(g, a), detection, home);
      e.actor == a && Matches(g, e, home, true) && AcceptExit(e, home, true, true).Valid()
  {
  }

  lemma RestartApplies(g: Registry, a: ActorID, e: Exit, place: Endpoint)
    requires RegistryInv(g) && a in g.actors && e.actor == a && Proven(g, e) && Route(g, a).phase.Restarting?
    requires Route(g, a).lastExit == Some(e) && place.node == e.home.node
    ensures var h := Perform(g, PublishRestart(e, true, Route(g, a).generation, place));
      && RegistryInv(h) && Only(g, h, a) && h.exits == g.exits
      && Route(h, a) == Route(g, a).(phase := Alive, epoch := Route(g, a).epoch + 1, endpoint := Some(place),
                                     error := None)
  {
    hide Perform, RegistryInv;
    PerformKeeps(g, PublishRestart(e, true, Route(g, a).generation, place));
    PublishMeans(g, e, true, Route(g, a).generation, place);
  }

  // One exit of a live Actor, and the registry after it.
  lemma OneExit(g: Registry, a: ActorID, detection: string, home: Home) returns (op: Op)
    requires RegistryInv(g) && a in g.actors && Route(g, a).phase.Alive? && detection !in g.exits
    requires Route(g, a).endpoint.Some? ==> home.node == Route(g, a).endpoint.value.node
    ensures op.Valid() && Kindly(op, a) && Exits(g, op, a)
    ensures op.AcceptExit? && op.exit.home == home && op.exit.actor == a
    ensures var h := Perform(g, op);
      && RegistryInv(h) && a in h.actors && h.exits.Keys == g.exits.Keys + {detection} && Proven(h, op.exit)
      && Route(h, a) == AfterExit(Route(g, a), op.exit, true) && op.exit.detection == detection
  {
    hide Perform, RegistryInv, Matches;
    ExitApplies(g, a, detection, home);
    var e := OwnExit(Route(g, a), detection, home);
    op := AcceptExit(e, home, true, true);
    ExitMeans(g, e, home, true, true);
    PerformKeeps(g, op);
  }

  /** A live Actor can be driven through every exit its budget allows: each time it
      comes back on the same Node, and the last exit ends it. */
  lemma {:induction false} SpendsBudget(g: Registry, a: ActorID, detections: seq<string>, home: Home)
      returns (ops: seq<Op>)
    requires RegistryInv(g) && a in g.actors && Route(g, a).phase.Alive? && Unused(g, detections)
    requires Route(g, a).endpoint.Some? ==> home.node == Route(g, a).endpoint.value.node
    requires |detections| == Lives(Route(g, a))
    ensures forall op :: op in ops ==> op.Valid() && Kindly(op, a)
    ensures ExitCount(g, ops, a) == |detections| && a in Run(g, ops).actors && Route(Run(g, ops), a).phase.Dead?
    decreases |detections|
  {
    hide Perform, RegistryInv, Matches, Exits, Kindly;
    BudgetHolds(g, a);
    var exit := OneExit(g, a, detections[0], home);
    var h := Perform(g, exit);
    if |detections| == 1 {
      ops := [exit];
      assert Run(g, ops) == Run(h, []) && ExitCount(h, [], a) == 0;
    } else {
      var place := Route(g, a).endpoint;
      ExitApplies(g, a, detections[0], home);
      RestartApplies(h, a, exit.exit, place.value);
      var publish := PublishRestart(exit.exit, true, Route(h, a).generation, place.value);
      var k := Perform(h, publish);
      assert Unused(k, detections[1..]) by { UnusedRest(g, k, detections); }
      var rest := SpendsBudget(k, a, detections[1..], home);
      ops := [exit, publish] + rest;
      PublishIsKind(h, publish, a);
      assert ops[1..] == [publish] + rest && ([publish] + rest)[1..] == rest;
    }
  }

  lemma PublishIsKind(g: Registry, op: Op, a: ActorID)
    requires op.PublishRestart?
    ensures op.Valid() && Kindly(op, a) && !Exits(g, op, a)
  {
  }

  lemma UnusedRest(g: Registry, k: Registry, detections: seq<string>)
    requires detections != [] && Unused(g, detections) && k.exits.Keys == g.exits.Keys + {detections[0]}
    ensures Unused(k, detections[1..])
  {
    forall d | d in detections[1..] ensures d !in k.exits {
      var i :| 0 <= i < |detections[1..]| && detections[1..][i] == d;
      assert detections[i + 1] == d && d in detections;
    }
  }
}
