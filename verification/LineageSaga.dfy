/** The borrower-side saga over one task's foreign credentials: renewing them
    owner by owner under lost replies, owner shutdown and owner death, and
    releasing them after the last output is collected. One event is one region
    the runtime executes under its lock, or one atomic owner operation. */
module LineageSaga {
  import opened Ids
  import opened ForeignLineage

  // ------------------------------------------------------------------------
  // Owners

  // What one owner keeps for one dependency: live holds, release tombstones and
  // the permanent old-to-new bindings, all named by origin attempt.
  datatype OwnerSide = OwnerSide(retained: set<nat>, released: set<nat>, successor: map<nat, nat>)

  datatype Failure = Stopped | DeadBorrower | UnknownObject | Inactive | ReleasedOld | ReplacementReleased
                   | Busy | Conflict | Collecting
  datatype Outcome = Replaced | AlreadyReplaced | Failed(why: Failure)

  // `obstacle` is what the owner's own state puts in the way, if anything.
  function OwnerReplace(o: OwnerSide, expected: nat, replacement: nat, open: bool, obstacle: Option<Failure>)
    : (OwnerSide, Outcome)
  {
    if !open then (o, Failed(Stopped))
    else if expected in o.successor then
      (o, if o.successor[expected] == replacement then AlreadyReplaced else Failed(Conflict))
    else if obstacle == Some(DeadBorrower) then (o, Failed(DeadBorrower))
    else if replacement in o.released then (o, Failed(ReplacementReleased))
    else if expected in o.released then (o, Failed(ReleasedOld))
    else if obstacle == Some(UnknownObject) then (o, Failed(UnknownObject))
    else if obstacle == Some(Collecting) then (o, Failed(Collecting))
    else if expected !in o.retained then (o, Failed(Inactive))
    else if replacement in o.retained then (o, Failed(Conflict))
    else if obstacle == Some(Busy) then (o, Failed(Busy))
    else (OwnerSide(o.retained - {expected} + {replacement}, o.released + {expected},
                    o.successor[expected := replacement]), Replaced)
  }

  function OwnerRelease(o: OwnerSide, hold: nat): OwnerSide {
    o.(retained := o.retained - {hold}, released := o.released + {hold})
  }

  // ------------------------------------------------------------------------
  // The borrower's runtime

  datatype Swap = Swap(expected: nat, replacement: nat)

  // A replacement call in flight; `before` says an earlier one was ambiguous.
  datatype Call = Call(key: EdgeKey, before: bool, outcome: Option<Outcome>)
  datatype Freeing = Freeing(key: EdgeKey, accepted: Option<bool>)

  datatype Session = Session(attempt: nat, swaps: map<EdgeKey, Swap>, acked: set<EdgeKey>, uncertain: set<EdgeKey>,
                             failed: set<EdgeKey>, ready: bool, driving: bool, shutdown: bool, epoch: nat,
                             startEpoch: nat, call: Option<Call>)

  datatype Collection = Collection(plan: map<EdgeKey, nat>, acked: set<EdgeKey>, uncertain: set<EdgeKey>,
                                   driving: bool, call: Option<Freeing>)

  // `edges` is the registry's credential per edge. `listed` says the session is
  // still in the runtime's table; a popped one lives on while it is driven.
  // `popping` counts the shutdown passes between their traversal and their pop.
  datatype Saga = Saga(edges: map<EdgeKey, nat>, registered: bool, claimed: bool, owners: map<EdgeKey, OwnerSide>,
                       gone: set<WorkerID>, dead: set<WorkerID>, session: Option<Session>, listed: bool,
                       collection: Option<Collection>, completed: bool, closed: bool, popping: nat)

  datatype Event =
    | StartRenewal(attempt: nat)
    | SendReplace(key: EdgeKey)
    | OwnerReplaces(open: bool, obstacle: Option<Failure>)
    | ReplaceReply
    | ReplaceLost
    | ReplaceOwnerDead
    | BecomeReady
    | EndPass(failures: set<EdgeKey>, keepsReady: bool)
    | CompleteRenewal(completed: nat)
    | Abandon
    | OwnerDies(worker: WorkerID)
    | MarkDead(owner: WorkerID)
    | Close
    | StartShutdownPass
    | PopAfterShutdown
    | StartCollection
    | SendRelease(released: EdgeKey)
    | OwnerReleases(accepting: bool)
    | ReleaseReply
    | ReleaseLost
    | ReleaseOwnerDead
    | FinishCollection
    | EndCollection
  {
    predicate OfCollection() {
      StartCollection? || SendRelease? || OwnerReleases? || ReleaseReply? || ReleaseLost? || ReleaseOwnerDead?
      || FinishCollection? || EndCollection?
    }
  }

  // The session a renewal of `attempt` starts from; edges already there are acknowledged.
  function NewSession(edges: map<EdgeKey, nat>, attempt: nat): Session {
    Session(attempt, map k | k in edges :: Swap(edges[k], attempt), (set k | k in edges && edges[k] == attempt), {}, {},
            false, false, false, 0, 0, None)
  }

  // Every check that must pass before the caller may commit its reconstruction.
  predicate ReadyToCommit(s: Saga, attempt: nat) {
    && s.session.Some? && s.listed && s.session.value.attempt == attempt
    && !s.closed && !s.session.value.driving && s.session.value.ready
    && s.session.value.uncertain == {} && s.session.value.failed == {}
    && s.session.value.acked == s.session.value.swaps.Keys
    && forall k :: k in s.session.value.swaps ==> k.owner !in s.dead
  }

  // A session with a call in flight, and one without.
  predicate Calling(s: Saga) { s.session.Some? && s.session.value.driving && s.session.value.call.Some? }
  predicate Between(s: Saga) { s.session.Some? && s.session.value.driving && s.session.value.call.None? }
  predicate Releasing(s: Saga) { s.collection.Some? && s.collection.value.driving && s.collection.value.call.Some? }
  predicate BetweenReleases(s: Saga) {
    s.collection.Some? && s.collection.value.driving && s.collection.value.call.None?
  }

  predicate Enabled(s: Saga, e: Event) {
    match e
    case StartRenewal(attempt) =>
      && !s.closed
      && (if s.session.Some? && s.listed then s.session.value.attempt == attempt && !s.session.value.driving
          else s.session.None? && s.collection.None? && s.registered && !s.claimed
               && forall k :: k in s.edges ==> s.edges[k] <= attempt)
    case SendReplace(key) =>
      && Between(s) && key in s.session.value.swaps && key !in s.session.value.acked
      && (s.session.value.failed == {} || key in s.session.value.uncertain)
    case OwnerReplaces(_, _) =>
      && Calling(s) && s.session.value.call.value.outcome.None?
      && s.session.value.call.value.key in s.owners && s.session.value.call.value.key.owner !in s.gone
      && s.session.value.call.value.key in s.session.value.swaps
    case ReplaceReply =>
      && Calling(s) && s.session.value.call.value.outcome.Some?
      && s.session.value.call.value.key in s.session.value.swaps
    case ReplaceLost => Calling(s)
    case ReplaceOwnerDead => Calling(s) && s.session.value.call.value.key.owner in s.dead
    case BecomeReady =>
      && Between(s) && !s.session.value.shutdown && s.session.value.failed == {}
      && s.session.value.acked == s.session.value.swaps.Keys
      && s.session.value.epoch == s.session.value.startEpoch
      && (forall k :: k in s.session.value.swaps ==> k.owner !in s.dead)
    case EndPass(failures, _) => Between(s) && failures <= s.session.value.swaps.Keys
    case CompleteRenewal(attempt) => ReadyToCommit(s, attempt)
    case Abandon =>
      && s.session.Some? && s.listed && !s.session.value.driving && s.session.value.uncertain == {}
      && forall k :: k in s.session.value.acked && k in s.session.value.swaps ==>
           s.session.value.swaps[k].expected == s.session.value.swaps[k].replacement
    case OwnerDies(_) => true
    case MarkDead(owner) => owner in s.gone
    case Close => true
    case StartShutdownPass => s.closed && s.session.Some? && s.listed && !s.session.value.driving
    case PopAfterShutdown => s.closed && s.popping > 0
    case StartCollection =>
      && !s.completed && s.registered
      && (s.session.Some? && s.listed ==> !s.session.value.driving && s.session.value.uncertain == {})
      && (s.collection.Some? ==> !s.collection.value.driving)
    case SendRelease(key) => BetweenReleases(s) && key in s.collection.value.plan && key !in s.collection.value.acked
    case OwnerReleases(_) =>
      && Releasing(s) && s.collection.value.call.value.accepted.None?
      && s.collection.value.call.value.key in s.owners && s.collection.value.call.value.key.owner !in s.gone
      && s.collection.value.call.value.key in s.collection.value.plan
    case ReleaseReply => Releasing(s) && s.collection.value.call.value.accepted.Some?
    case ReleaseLost => Releasing(s)
    case ReleaseOwnerDead => Releasing(s) && s.collection.value.call.value.key.owner in s.dead
    case FinishCollection =>
      BetweenReleases(s) && s.collection.value.acked == s.collection.value.plan.Keys
        && s.collection.value.uncertain == {}
    case EndCollection => BetweenReleases(s)
  }

  // What a reply does to the session and the registry.
  function TakeReply(s: Saga): Saga
    requires Enabled(s, ReplaceReply)
  {
    var sess := s.session.value;
    var call := sess.call.value;
    var swap := sess.swaps[call.key];
    match call.outcome.value
    case Failed(why) =>
      s.(session := Some(sess.(
           call := None,
           uncertain := if why.Stopped? && call.before then sess.uncertain else sess.uncertain - {call.key},
           failed := if why.Busy? || why.Collecting? then sess.failed else sess.failed + {call.key})))
    case _ =>
      // The registry refuses a claimed task or a changed edge, and the pass fails.
      if s.claimed || !s.registered || call.key !in s.edges
        || s.edges[call.key] !in {swap.expected, swap.replacement} then
        EndSession(s, sess.(call := None, driving := false))
      else
        s.(edges := s.edges[call.key := swap.replacement],
           session := Some(sess.(call := None, uncertain := sess.uncertain - {call.key},
                                 acked := sess.acked + {call.key},
                                 failed := sess.failed - {call.key})))
  }

  // A popped session disappears with its last driver.
  function EndSession(s: Saga, sess: Session): Saga {
    s.(session := if s.listed then Some(sess) else None)
  }

  // The pass that finished its traversal finds the session in the table with
  // nothing uncertain, and takes it off.
  predicate Pops(s: Saga) { s.session.Some? && s.listed && s.session.value.uncertain == {} }

  function Next(s: Saga, e: Event): Saga
    requires Enabled(s, e)
  {
    match e
    case StartRenewal(attempt) =>
      var sess := if s.session.Some? then s.session.value else NewSession(s.edges, attempt);
      s.(session := Some(sess.(driving := true, shutdown := false, startEpoch := sess.epoch)), listed := true)
    case SendReplace(key) =>
      var sess := s.session.value;
      s.(session := Some(sess.(uncertain := sess.uncertain + {key},
                               call := Some(Call(key, key in sess.uncertain, None)))))
    case OwnerReplaces(open, obstacle) =>
      var sess := s.session.value;
      var call := sess.call.value;
      var swap := sess.swaps[call.key];
      var (o, outcome) := OwnerReplace(s.owners[call.key], swap.expected, swap.replacement, open, obstacle);
      s.(owners := s.owners[call.key := o], session := Some(sess.(call := Some(call.(outcome := Some(outcome))))))
    case ReplaceReply => TakeReply(s)
    case ReplaceLost => s.(session := Some(s.session.value.(call := None)))
    case ReplaceOwnerDead =>
      var sess := s.session.value;
      s.(session := Some(sess.(call := None, uncertain := sess.uncertain - {sess.call.value.key},
                               failed := sess.failed + {sess.call.value.key})))
    case BecomeReady => EndSession(s, s.session.value.(ready := true, driving := false))
    case EndPass(failures, keepsReady) =>
      var sess := s.session.value;
      EndSession(s.(popping := if sess.shutdown then s.popping + 1 else s.popping),
                 sess.(failed := sess.failed + failures, ready := sess.ready && keepsReady, driving := false))
    case CompleteRenewal(_) => s.(session := None)
    case Abandon => s.(session := None)
    case OwnerDies(worker) => s.(gone := s.gone + {worker})
    case MarkDead(owner) => MarkedDead(s, owner)
    case Close => s.(closed := true)
    case StartShutdownPass => s.(session := Some(s.session.value.(driving := true, shutdown := true)))
    case PopAfterShutdown =>
      if !Pops(s) then s.(popping := s.popping - 1)
      else s.(popping := s.popping - 1, listed := false, session := if s.session.value.driving then s.session else None)
    case _ => Collect(s, e)
  }

  // The collection side of `Next`.
  function Collect(s: Saga, e: Event): Saga
    requires Enabled(s, e) && e.OfCollection()
  {
    match e
    case StartCollection =>
      var c := if s.collection.Some? then s.collection.value else Collection(s.edges, {}, {}, false, None);
      s.(session := if s.listed then None else s.session, listed := false, claimed := true,
         collection := Some(c.(driving := true)))
    case SendRelease(key) =>
      var c := s.collection.value;
      s.(collection := Some(c.(uncertain := c.uncertain + {key}, call := Some(Freeing(key, None)))))
    case OwnerReleases(accepting) =>
      var c := s.collection.value;
      var call := c.call.value;
      var freed := s.owners[call.key := OwnerRelease(s.owners[call.key], c.plan[call.key])];
      s.(owners := if accepting then freed else s.owners,
         collection := Some(c.(call := Some(call.(accepted := Some(accepting))))))
    case ReleaseReply =>
      var c := s.collection.value;
      var key, accepted := c.call.value.key, c.call.value.accepted.value;
      s.(collection := Some(c.(call := None, uncertain := if accepted then c.uncertain - {key} else c.uncertain,
                               acked := if accepted then c.acked + {key} else c.acked)))
    case ReleaseLost => s.(collection := Some(s.collection.value.(call := None)))
    case ReleaseOwnerDead =>
      var c := s.collection.value;
      s.(collection := Some(c.(call := None, uncertain := c.uncertain - {c.call.value.key},
                               acked := c.acked + {c.call.value.key})))
    case FinishCollection => s.(registered := false, claimed := false, completed := true, collection := None)
    case EndCollection => s.(collection := Some(s.collection.value.(driving := false)))
  }

  // An owner's death settles everything it could still owe.
  function MarkedDead(s: Saga, owner: WorkerID): Saga {
    s.(dead := s.dead + {owner},
       session := if s.session.None? || !s.listed then s.session
                  else
                    var sess := s.session.value;
                    var hit := set k | k in sess.swaps && k.owner == owner;
                    if hit == {} then s.session
                    else Some(sess.(uncertain := sess.uncertain - hit, failed := sess.failed + hit, ready := false,
                                    epoch := sess.epoch + |hit|)),
       collection := if s.collection.None? then None
                     else
                       var c := s.collection.value;
                       var hit := set k | k in c.plan && k.owner == owner;
                       Some(c.(uncertain := c.uncertain - hit, acked := c.acked + hit)))
  }

  // ------------------------------------------------------------------------
  // What holds between events

  // No identity from attempt g on was ever released or replaced.
  ghost predicate Unspent(o: OwnerSide, g: nat) {
    forall n: nat :: n >= g ==> n !in o.released && n !in o.successor
  }

  ghost predicate OwnerAt(o: OwnerSide, g: nat) { o.retained == {g} && Unspent(o, g) }

  // The owner moved on to n, and will say so to anyone replaying g to n.
  ghost predicate OwnerAhead(o: OwnerSide, g: nat, n: nat) {
    g < n && o.retained == {n} && g in o.successor && o.successor[g] == n && Unspent(o, n)
  }

  // The credential a living owner has is the registry's, or the successor of an ambiguous send.
  ghost predicate Held(o: OwnerSide, current: nat, swap: Swap, uncertain: bool) {
    OwnerAt(o, current) || (uncertain && OwnerAhead(o, swap.expected, swap.replacement))
  }

  // What a call in flight may still report about a living owner.
  ghost predicate CallOk(o: OwnerSide, swap: Swap, call: Call) {
    match call.outcome
    case None => !call.before ==> OwnerAt(o, swap.expected)
    case Some(Failed(why)) => (why.Stopped? ==> !call.before ==> OwnerAt(o, swap.expected))
                              && (!why.Stopped? ==> OwnerAt(o, swap.expected))
    case Some(_) => OwnerAhead(o, swap.expected, swap.replacement)
  }

  ghost predicate SessionOk(s: Saga, sess: Session)
    requires s.edges.Keys == s.owners.Keys
  {
    && s.registered && !s.claimed && s.collection.None? && !s.completed
    && sess.swaps.Keys == s.edges.Keys
    && sess.acked + sess.uncertain + sess.failed <= sess.swaps.Keys && sess.acked !! sess.uncertain
    && (forall k :: k in sess.swaps ==>
          && sess.swaps[k].replacement == sess.attempt
          && (k in sess.acked ==> s.edges[k] == sess.attempt)
          && (k !in sess.acked ==> s.edges[k] == sess.swaps[k].expected < sess.attempt))
    && (forall k :: k in sess.swaps && k.owner !in s.gone ==>
          Held(s.owners[k], s.edges[k], sess.swaps[k], k in sess.uncertain))
    && (sess.call.Some? ==>
          var call := sess.call.value;
          && sess.driving && call.key in sess.swaps && call.key !in sess.acked
          && (call.key.owner !in s.gone ==>
               call.key in sess.uncertain && CallOk(s.owners[call.key], sess.swaps[call.key], call)))
  }

  ghost predicate CollectionOk(s: Saga, c: Collection)
    requires s.edges.Keys == s.owners.Keys
  {
    && s.registered && s.claimed && !s.completed
    && c.plan == s.edges && c.acked + c.uncertain <= c.plan.Keys && c.acked !! c.uncertain
    && (forall k :: k in c.plan && k.owner !in s.gone ==>
          s.owners[k].retained <= {c.plan[k]} && (k in c.acked ==> s.owners[k].retained == {}))
    && (c.call.Some? ==>
          && c.driving && c.call.value.key in c.plan
          && (c.call.value.key.owner !in s.gone && c.call.value.accepted == Some(true) ==>
                s.owners[c.call.value.key].retained == {}))
  }

  // What becomes of one call: it may not reach the owner, and its reply may be lost.
  datatype Weather = Weather(reaches: bool, open: bool, obstacle: Option<Failure>, replies: bool)

  // The call in flight took effect, and the last recorded failure is its own.
  predicate LastFailureLifts(sess: Session) {
    && sess.call.Some? && sess.call.value.outcome.Some? && !sess.call.value.outcome.value.Failed?
    && sess.failed == {sess.call.value.key}
  }

  // Whoever drives this session has nothing left to send to a living owner.
  predicate Quiet(s: Saga, sess: Session) {
    || !sess.driving
    || (forall k :: k in sess.swaps && k.owner !in s.gone ==> k in sess.acked)
    || (sess.failed != {} && sess.uncertain == {} && !LastFailureLifts(sess))
  }

  // A session taken off the table while it was driven, with its calls to dead owners.
  ghost predicate Harmless(s: Saga, sess: Session) {
    && s.closed && sess.driving && Quiet(s, sess)
    && (sess.call.Some? ==> sess.call.value.key.owner in s.gone)
  }

  predicate Listed(s: Saga) { s.session.Some? && s.listed }

  ghost predicate SagaInv(s: Saga) {
    && s.edges.Keys == s.owners.Keys && s.dead <= s.gone
    && (Listed(s) ==> SessionOk(s, s.session.value))
    && (s.session.Some? && !s.listed ==> Harmless(s, s.session.value))
    && (s.collection.Some? ==> CollectionOk(s, s.collection.value) && !Listed(s))
    && (s.claimed <==> s.collection.Some?)
    && (s.registered <==> !s.completed)
    && (s.registered && !s.claimed && !Listed(s) ==>
          forall k :: k in s.edges && k.owner !in s.gone ==> OwnerAt(s.owners[k], s.edges[k]))
    && (s.completed ==> !Listed(s) && forall k :: k in s.edges && k.owner !in s.gone ==> s.owners[k].retained == {})
  }

  // Shutdown pops a session only when nobody can still send for it.
  predicate Orderly(s: Saga, e: Event) {
    e.PopAfterShutdown? && Pops(s) ==> Quiet(s, s.session.value)
  }

  // ------------------------------------------------------------------------
  // Every orderly event keeps it

  lemma OwnerReplaceMeaning(o: OwnerSide, swap: Swap, open: bool, obstacle: Option<Failure>, before: bool)
    requires swap.expected < swap.replacement
    requires OwnerAt(o, swap.expected) || (before && OwnerAhead(o, swap.expected, swap.replacement))
    ensures var (o', outcome) := OwnerReplace(o, swap.expected, swap.replacement, open, obstacle);
      && Held(o', swap.expected, swap, true)
      && forall key :: CallOk(o', swap, Call(key, before, Some(outcome)))
  {
    assert swap.replacement !in o.released;
  }

  lemma SendKeeps(s: Saga, key: EdgeKey)
    requires SagaInv(s) && Enabled(s, SendReplace(key))
    ensures SagaInv(Next(s, SendReplace(key)))
  {
  }

  lemma OwnerReplacesKeeps(s: Saga, open: bool, obstacle: Option<Failure>)
    requires SagaInv(s) && Enabled(s, OwnerReplaces(open, obstacle))
    ensures SagaInv(Next(s, OwnerReplaces(open, obstacle)))
  {
    var sess := s.session.value;
    var call := sess.call.value;
    OwnerReplaceMeaning(s.owners[call.key], sess.swaps[call.key], open, obstacle, call.before);
  }

  lemma FailureKeeps(s: Saga)
    requires SagaInv(s) && Enabled(s, ReplaceReply) && s.session.value.call.value.outcome.value.Failed?
    ensures SagaInv(Next(s, ReplaceReply))
  {
    if Listed(s) { ListedFailure(s); } else { PoppedFailure(s); }
  }

  lemma ListedFailure(s: Saga)
    requires SagaInv(s) && Listed(s) && Enabled(s, ReplaceReply) && s.session.value.call.value.outcome.value.Failed?
    ensures SagaInv(Next(s, ReplaceReply))
  {
    hide CollectionOk, Harmless, Collect, MarkedDead;
  }

  lemma PoppedFailure(s: Saga)
    requires SagaInv(s) && !Listed(s) && Enabled(s, ReplaceReply) && s.session.value.call.value.outcome.value.Failed?
    ensures SagaInv(Next(s, ReplaceReply))
  {
    hide SessionOk, Collect, MarkedDead;
  }

  lemma ReplyKeeps(s: Saga)
    requires SagaInv(s) && Enabled(s, ReplaceReply)
    ensures SagaInv(Next(s, ReplaceReply))
  {
    hide SagaInv, Next;
    if s.session.value.call.value.outcome.value.Failed? { FailureKeeps(s); } else { SuccessKeeps(s); }
  }

  lemma SuccessKeeps(s: Saga)
    requires SagaInv(s) && Enabled(s, ReplaceReply) && !s.session.value.call.value.outcome.value.Failed?
    ensures SagaInv(Next(s, ReplaceReply))
  {
    if Listed(s) { ListedSuccess(s); } else { PoppedSuccess(s); }
  }

  // The session a pass keeps after taking the successor its owner confirmed.
  function Moved(sess: Session, key: EdgeKey): Session {
    sess.(call := None, uncertain := sess.uncertain - {key}, acked := sess.acked + {key}, failed := sess.failed - {key})
  }

  // The registry's side of it.
  function Installed(s: Saga, key: EdgeKey): Saga
    requires s.session.Some? && key in s.session.value.swaps
  {
    s.(edges := s.edges[key := s.session.value.swaps[key].replacement], session := Some(Moved(s.session.value, key)))
  }

  lemma ConfirmedIs(s: Saga)
    requires Enabled(s, ReplaceReply) && !s.session.value.call.value.outcome.value.Failed?
    ensures var key := s.session.value.call.value.key;
      Next(s, ReplaceReply) ==
        if Movable(s, key) then Installed(s, key)
        else EndSession(s, s.session.value.(call := None, driving := false))
  {
    hide EndSession;
  }

  // The registry accepts the replacement of an edge the session still has to move.
  predicate Movable(s: Saga, key: EdgeKey) {
    && s.session.Some? && s.registered && !s.claimed && key in s.edges && key in s.session.value.swaps
    && s.edges[key] in {s.session.value.swaps[key].expected, s.session.value.swaps[key].replacement}
  }

  lemma InstalledIsOk(s: Saga, key: EdgeKey)
    requires s.edges.Keys == s.owners.Keys && Listed(s) && SessionOk(s, s.session.value)
    requires s.session.value.call.Some? && s.session.value.call.value.key == key
    requires s.session.value.call.value.outcome.Some? && !s.session.value.call.value.outcome.value.Failed?
    ensures Movable(s, key) && SessionOk(Installed(s, key), Moved(s.session.value, key))
  {
    hide Quiet;
  }

  lemma ListedSuccess(s: Saga)
    requires SagaInv(s) && Listed(s) && Enabled(s, ReplaceReply) && !s.session.value.call.value.outcome.value.Failed?
    ensures SagaInv(Next(s, ReplaceReply))
  {
    hide CollectionOk, SessionOk, Harmless, Moved, Next;
    ConfirmedIs(s);
    InstalledIsOk(s, s.session.value.call.value.key);
  }

  lemma PoppedSuccess(s: Saga)
    requires SagaInv(s) && !Listed(s) && Enabled(s, ReplaceReply) && !s.session.value.call.value.outcome.value.Failed?
    ensures SagaInv(Next(s, ReplaceReply))
  {
    hide SessionOk, Next, Movable;
    ConfirmedIs(s);
    if Movable(s, s.session.value.call.value.key) { PoppedInstall(s, s.session.value.call.value.key); }
  }

  lemma PoppedInstall(s: Saga, key: EdgeKey)
    requires SagaInv(s) && s.session.Some? && !s.listed && s.session.value.call.Some?
    requires s.session.value.call.value.key == key
    requires s.session.value.call.value.outcome.Some? && !s.session.value.call.value.outcome.value.Failed?
    requires Movable(s, key)
    ensures SagaInv(Installed(s, key))
  {
    hide SessionOk, CollectionOk;
  }

  lemma LostKeeps(s: Saga)
    requires SagaInv(s) && Enabled(s, ReplaceLost)
    ensures SagaInv(Next(s, ReplaceLost))
  {
  }

  lemma OwnerDeadKeeps(s: Saga)
    requires SagaInv(s) && Enabled(s, ReplaceOwnerDead)
    ensures SagaInv(Next(s, ReplaceOwnerDead))
  {
  }

  lemma PassEndKeeps(s: Saga, e: Event)
    requires SagaInv(s) && Enabled(s, e) && (e.BecomeReady? || e.EndPass?)
    ensures SagaInv(Next(s, e))
  {
    hide Collect;
  }

  lemma SessionEndKeeps(s: Saga, e: Event)
    requires SagaInv(s) && Enabled(s, e) && (e.CompleteRenewal? || e.Abandon?)
    ensures SagaInv(Next(s, e))
  {
    hide Collect;
  }

  lemma StartKeeps(s: Saga, e: Event)
    requires SagaInv(s) && Enabled(s, e) && (e.StartRenewal? || e.StartShutdownPass? || e.Close?)
    ensures SagaInv(Next(s, e))
  {
  }

  lemma DiesKeeps(s: Saga, worker: WorkerID)
    requires SagaInv(s)
    ensures SagaInv(Next(s, OwnerDies(worker)))
  {
  }

  lemma MarkedSession(s: Saga, owner: WorkerID)
    requires s.edges.Keys == s.owners.Keys && owner in s.gone && Listed(s) && SessionOk(s, s.session.value)
    ensures Listed(MarkedDead(s, owner)) && SessionOk(MarkedDead(s, owner), MarkedDead(s, owner).session.value)
  {
  }

  lemma MarkedCollection(s: Saga, owner: WorkerID)
    requires s.edges.Keys == s.owners.Keys && owner in s.gone && s.collection.Some?
    requires CollectionOk(s, s.collection.value)
    ensures CollectionOk(MarkedDead(s, owner), MarkedDead(s, owner).collection.value)
  {
  }

  lemma MarkKeeps(s: Saga, owner: WorkerID)
    requires SagaInv(s) && Enabled(s, MarkDead(owner))
    ensures SagaInv(Next(s, MarkDead(owner)))
  {
    if Listed(s) { MarkedSession(s, owner); }
    if s.collection.Some? { MarkedCollection(s, owner); }
    hide SessionOk, CollectionOk;
  }

  // A session taken off the table settled leaves the registry's credential everywhere.
  lemma SettledSession(s: Saga)
    requires s.edges.Keys == s.owners.Keys && Listed(s) && SessionOk(s, s.session.value)
    requires s.session.value.uncertain == {}
    ensures forall k :: k in s.edges && k.owner !in s.gone ==> OwnerAt(s.owners[k], s.edges[k])
    ensures s.registered && !s.claimed && s.collection.None? && !s.completed
    ensures s.session.value.call.Some? ==> s.session.value.driving && s.session.value.call.value.key.owner in s.gone
  {
    hide OwnerAt, OwnerAhead, CallOk;
  }

  lemma StartCollectionKeeps(s: Saga)
    requires SagaInv(s) && Enabled(s, StartCollection)
    ensures SagaInv(Next(s, StartCollection))
  {
    hide SessionOk;
    if Listed(s) { SettledSession(s); }
  }

  lemma PopKeeps(s: Saga)
    requires SagaInv(s) && Enabled(s, PopAfterShutdown) && Orderly(s, PopAfterShutdown)
    ensures SagaInv(Next(s, PopAfterShutdown))
  {
    hide SessionOk, CollectionOk, Quiet, OwnerAt;
    if Listed(s) && s.session.value.uncertain == {} { SettledSession(s); }
    PassedOver(s, s.popping - 1);
    if s.session.Some? { QuietStays(s, s.session.value, s.popping - 1, false); }
  }

  lemma PassedOver(s: Saga, n: nat)
    requires s.edges.Keys == s.owners.Keys
    ensures Listed(s) ==>
      SessionOk(s.(popping := n), s.session.value) == SessionOk(s, s.session.value)
    ensures s.collection.Some? ==>
      CollectionOk(s.(popping := n), s.collection.value) == CollectionOk(s, s.collection.value)
  {
  }

  lemma QuietStays(s: Saga, sess: Session, n: nat, listed: bool)
    ensures Quiet(s.(popping := n, listed := listed), sess) == Quiet(s, sess)
  {
  }

  lemma SendReleaseKeeps(s: Saga, key: EdgeKey)
    requires SagaInv(s) && Enabled(s, SendRelease(key))
    ensures SagaInv(Next(s, SendRelease(key)))
  {
  }

  lemma OwnerReleasesKeeps(s: Saga, accepting: bool)
    requires SagaInv(s) && Enabled(s, OwnerReleases(accepting))
    ensures SagaInv(Next(s, OwnerReleases(accepting)))
  {
  }

  lemma ReleaseReplyKeeps(s: Saga)
    requires SagaInv(s) && Enabled(s, ReleaseReply)
    ensures SagaInv(Next(s, ReleaseReply))
  {
  }

  lemma ReleaseLostKeeps(s: Saga)
    requires SagaInv(s) && Enabled(s, ReleaseLost)
    ensures SagaInv(Next(s, ReleaseLost))
  {
  }

  lemma ReleaseOwnerDeadKeeps(s: Saga)
    requires SagaInv(s) && Enabled(s, ReleaseOwnerDead)
    ensures SagaInv(Next(s, ReleaseOwnerDead))
  {
  }

  lemma CollectionEnds(s: Saga, e: Event)
    requires SagaInv(s) && Enabled(s, e) && (e.FinishCollection? || e.EndCollection?)
    ensures SagaInv(Next(s, e))
  {
    hide SessionOk;
  }

  lemma NextKeepsInv(s: Saga, e: Event)
    requires SagaInv(s) && Enabled(s, e) && Orderly(s, e)
    ensures SagaInv(Next(s, e))
  {
    hide *;
    match e
    case SendReplace(key) => SendKeeps(s, key);
    case OwnerReplaces(open, obstacle) => OwnerReplacesKeeps(s, open, obstacle);
    case ReplaceReply => ReplyKeeps(s);
    case StartRenewal(_) => StartKeeps(s, e);
    case StartShutdownPass => StartKeeps(s, e);
    case Close => StartKeeps(s, e);
    case OwnerDies(worker) => DiesKeeps(s, worker);
    case MarkDead(owner) => MarkKeeps(s, owner);
    case StartCollection => StartCollectionKeeps(s);
    case PopAfterShutdown => PopKeeps(s);
    case ReplaceLost => LostKeeps(s);
    case ReplaceOwnerDead => OwnerDeadKeeps(s);
    case BecomeReady => PassEndKeeps(s, e);
    case EndPass(_, _) => PassEndKeeps(s, e);
    case CompleteRenewal(_) => SessionEndKeeps(s, e);
    case Abandon => SessionEndKeeps(s, e);
    case FinishCollection => CollectionEnds(s, e);
    case EndCollection => CollectionEnds(s, e);
    case SendRelease(key) => SendReleaseKeeps(s, key);
    case OwnerReleases(accepting) => OwnerReleasesKeeps(s, accepting);
    case ReleaseReply => ReleaseReplyKeeps(s);
    case ReleaseLost => ReleaseLostKeeps(s);
    case ReleaseOwnerDead => ReleaseOwnerDeadKeeps(s);
  }

  // ------------------------------------------------------------------------
  // Whole runs

  ghost predicate Reaches(s: Saga, events: seq<Event>, t: Saga)
    decreases |events|
  {
    if events == [] then s == t else Enabled(s, events[0]) && Reaches(Next(s, events[0]), events[1..], t)
  }

  // No shutdown pass pops a session that another pass can still send for.
  ghost predicate OrderlyRun(s: Saga, events: seq<Event>)
    decreases |events|
  {
    events == [] ||
    (Enabled(s, events[0]) && Orderly(s, events[0]) && OrderlyRun(Next(s, events[0]), events[1..]))
  }

  // A task just registered with the credentials its owners hold.
  ghost predicate JustRegistered(s: Saga) {
    && s.edges.Keys == s.owners.Keys && s.dead <= s.gone && s.registered && !s.claimed && !s.completed && s.popping == 0
    && s.session.None? && s.collection.None?
    && forall k :: k in s.edges && k.owner !in s.gone ==> OwnerAt(s.owners[k], s.edges[k])
  }

  lemma {:induction false} RunKeepsInv(s: Saga, events: seq<Event>, t: Saga)
    requires SagaInv(s) && Reaches(s, events, t) && OrderlyRun(s, events)
    ensures SagaInv(t)
    decreases |events|
  {
    if events == [] {
    } else {
      NextKeepsInv(s, events[0]);
      RunKeepsInv(Next(s, events[0]), events[1..], t);
    }
  }

  lemma RegisteredIsInv(s: Saga)
    requires JustRegistered(s)
    ensures SagaInv(s)
  {
  }

  /** Main result: until it is collected, a living owner has exactly the
      registry's credential, or exactly the session's successor while that key
      is marked uncertain. */
  lemma NoCredentialLeaks(s: Saga, events: seq<Event>, t: Saga, k: EdgeKey)
    requires JustRegistered(s) && Reaches(s, events, t) && OrderlyRun(s, events)
    requires k in t.edges && k.owner !in t.gone && t.registered && !t.claimed
    ensures k in t.owners
    ensures t.owners[k].retained == {t.edges[k]}
         || (t.session.Some? && k in t.session.value.uncertain && k in t.session.value.swaps
             && t.owners[k].retained == {t.session.value.swaps[k].replacement})
  {
    RegisteredIsInv(s);
    RunKeepsInv(s, events, t);
    if Listed(t) {
      assert Held(t.owners[k], t.edges[k], t.session.value.swaps[k], k in t.session.value.uncertain);
    }
  }

  /** Main result: when the caller may commit its reconstruction, every living
      owner has the new attempt's credential and nothing else. */
  lemma ReadyHoldsEverywhere(s: Saga, events: seq<Event>, t: Saga, attempt: nat, k: EdgeKey)
    requires JustRegistered(s) && Reaches(s, events, t) && OrderlyRun(s, events)
    requires ReadyToCommit(t, attempt) && k in t.edges && k.owner !in t.gone
    ensures k in t.owners && t.owners[k].retained == {attempt} && t.edges[k] == attempt
  {
    RegisteredIsInv(s);
    RunKeepsInv(s, events, t);
    assert k in t.session.value.acked;
    assert Held(t.owners[k], t.edges[k], t.session.value.swaps[k], k in t.session.value.uncertain);
  }

  /** Main result: a complete collection leaves no credential at any living owner. */
  lemma CompleteLeavesNothing(s: Saga, events: seq<Event>, t: Saga, k: EdgeKey)
    requires JustRegistered(s) && Reaches(s, events, t) && OrderlyRun(s, events)
    requires t.completed && k in t.edges && k.owner !in t.gone
    ensures k in t.owners && t.owners[k].retained == {}
  {
    RegisteredIsInv(s);
    RunKeepsInv(s, events, t);
  }

  // The state after the owner handled one more send of k.
  function Exchanged(s: Saga, k: EdgeKey, obstacle: Option<Failure>): Saga
    requires Enabled(s, SendReplace(k)) && k in s.owners && k.owner !in s.gone
  {
    Next(Next(s, SendReplace(k)), OwnerReplaces(true, obstacle))
  }

  lemma ExchangeHandled(s: Saga, k: EdgeKey, obstacle: Option<Failure>)
    requires SagaInv(s) && Enabled(s, SendReplace(k)) && k.owner !in s.gone
    ensures k in s.owners && SagaInv(Exchanged(s, k, obstacle)) && Enabled(Exchanged(s, k, obstacle), ReplaceReply)
    ensures var sess := Exchanged(s, k, obstacle).session.value;
      sess.call.value.key == k && sess.call.value.outcome.value != Failed(Stopped)
        && sess.attempt == s.session.value.attempt
  {
    SendKeeps(s, k);
    OwnerReplacesKeeps(Next(s, SendReplace(k)), true, obstacle);
    OpenOwnerNeverStopped(s.owners[k], s.session.value.swaps[k], obstacle);
  }

  /** One delivered exchange with an open owner settles a key, however ambiguous
      it was, and settles it the way the owner really stands. */
  lemma ExchangeResolves(s: Saga, k: EdgeKey, obstacle: Option<Failure>)
    requires SagaInv(s) && Enabled(s, SendReplace(k)) && k in s.owners && k.owner !in s.gone
    requires Enabled(Exchanged(s, k, obstacle), ReplaceReply)
    ensures var t := Next(Exchanged(s, k, obstacle), ReplaceReply);
      && t.session.Some? && k !in t.session.value.uncertain && k in t.edges && k in t.owners
      && t.owners[k].retained == {t.edges[k]}
      && (k in t.session.value.acked <==> t.edges[k] == t.session.value.attempt)
  {
    ExchangeHandled(s, k, obstacle);
    ReplySettles(Exchanged(s, k, obstacle), k);
  }

  lemma ReplySettles(s: Saga, k: EdgeKey)
    requires SagaInv(s) && Enabled(s, ReplaceReply) && s.session.value.call.value.key == k && k.owner !in s.gone
    requires s.session.value.call.value.outcome.value != Failed(Stopped)
    ensures var t := Next(s, ReplaceReply);
      && t.session.Some? && k !in t.session.value.uncertain && k in t.edges && k in t.owners
      && t.owners[k].retained == {t.edges[k]}
      && (k in t.session.value.acked <==> t.edges[k] == t.session.value.attempt)
  {
    hide Next, TakeReply, SagaInv, SessionOk;
    ReplyKeeps(s);
    ReplyHears(s, k);
    SettledKey(Next(s, ReplaceReply), k);
  }

  lemma ReplyHears(s: Saga, k: EdgeKey)
    requires SagaInv(s) && Enabled(s, ReplaceReply) && s.session.value.call.value.key == k && k.owner !in s.gone
    requires s.session.value.call.value.outcome.value != Failed(Stopped)
    ensures var t := Next(s, ReplaceReply);
      Listed(t) && t.gone == s.gone && k in t.session.value.swaps && k !in t.session.value.uncertain
  {
    hide TakeReply, Next, CollectionOk, Held, CallOk;
    var w := Weather(true, true, None, true);
    ListedCall(s);
    HeardReply(s, w);
    ReplyIs(s);
  }

  // A call to a living owner belongs to a session on the table, and its edge may still move.
  lemma ListedCall(s: Saga)
    requires SagaInv(s) && Calling(s) && s.session.value.call.value.key.owner !in s.gone
    ensures Listed(s) && Movable(s, s.session.value.call.value.key) && s.dead <= s.gone
    ensures s.session.value.call.value.key in s.session.value.swaps
  {
    hide CollectionOk;
  }

  lemma SettledKey(t: Saga, k: EdgeKey)
    requires SagaInv(t) && Listed(t) && k in t.session.value.swaps && k !in t.session.value.uncertain
    requires k.owner !in t.gone
    ensures k in t.edges && k in t.owners && t.owners[k].retained == {t.edges[k]}
    ensures k in t.session.value.acked <==> t.edges[k] == t.session.value.attempt
  {
    hide CollectionOk;
    assert Held(t.owners[k], t.edges[k], t.session.value.swaps[k], k in t.session.value.uncertain);
  }

  lemma OpenOwnerNeverStopped(o: OwnerSide, swap: Swap, obstacle: Option<Failure>)
    ensures OwnerReplace(o, swap.expected, swap.replacement, true, obstacle).1 != Failed(Stopped)
  {
  }

  // ------------------------------------------------------------------------
  // Overlapping shutdown passes

  // Some run from here ends in a leak.
  ghost predicate CanLeak(s: Saga) { exists events, t :: Reaches(s, events, t) && Leaks(t) }

  // Collection reported completion although a living owner still keeps a credential.
  ghost predicate Leaks(s: Saga) {
    s.completed && exists k :: k in s.edges && k in s.owners && k.owner !in s.gone && s.owners[k].retained != {}
  }

  ghost predicate Steps(s: Saga, e: Event, t: Saga) { Enabled(s, e) && Next(s, e) == t }

  // Put one event in front of a run.
  lemma Earlier(s: Saga, e: Event, s': Saga, rest: seq<Event>, t: Saga) returns (events: seq<Event>)
    requires Steps(s, e, s') && Reaches(s', rest, t)
    ensures events == [e] + rest && Reaches(s, events, t)
  {
    events := [e] + rest;
    assert events[1..] == rest;
  }

  // A collection pass at work although the living owner of k already moved on to n.
  ghost predicate Doomed(s: Saga, k: EdgeKey, n: nat) {
    && BetweenReleases(s) && s.collection.value.uncertain == {} && s.dead <= s.gone
    && s.collection.value.acked <= s.collection.value.plan.Keys == s.owners.Keys
    && k in s.edges && k in s.owners && k.owner !in s.gone && n in s.owners[k].retained
    && s.collection.value.plan[k] != n
  }

  // One more key of the pass is acknowledged, and k's owner keeps n.
  ghost predicate Closer(s: Saga, t: Saga, k: EdgeKey, n: nat, j: EdgeKey) {
    && s.collection.Some? && Doomed(t, k, n) && t.collection.value.plan == s.collection.value.plan
    && s.collection.value.acked + {j} <= t.collection.value.acked
  }

  lemma DoomedStep(s: Saga, k: EdgeKey, n: nat, j: EdgeKey)
    requires Doomed(s, k, n) && j in s.collection.value.plan && j !in s.collection.value.acked
    ensures j.owner in s.gone ==> Enabled(s, MarkDead(j.owner)) && Closer(s, Next(s, MarkDead(j.owner)), k, n, j)
    ensures j.owner !in s.gone ==>
      && Enabled(s, SendRelease(j)) && Enabled(Next(s, SendRelease(j)), OwnerReleases(true))
      && Enabled(Next(Next(s, SendRelease(j)), OwnerReleases(true)), ReleaseReply)
      && Closer(s, Next(Next(Next(s, SendRelease(j)), OwnerReleases(true)), ReleaseReply), k, n, j)
  {
    if j.owner !in s.gone {
      ReleasedCloser(s, k, n, j);
    }
  }

  // One release call that gets to its owner, and the pass after an accepted reply.
  function Sent(s: Saga, key: EdgeKey, accepted: Option<bool>): Saga
    requires s.collection.Some? && key in s.owners && key in s.collection.value.plan
  {
    var c := s.collection.value;
    s.(owners := if accepted == Some(true) then s.owners[key := OwnerRelease(s.owners[key], c.plan[key])] else s.owners,
       collection := Some(c.(uncertain := c.uncertain + {key}, call := Some(Freeing(key, accepted)))))
  }

  lemma SendIs(s: Saga, key: EdgeKey)
    requires Enabled(s, SendRelease(key)) && key in s.owners
    ensures Next(s, SendRelease(key)) == Sent(s, key, None)
  {
    hide TakeReply, MarkedDead;
  }

  lemma FreedIs(s: Saga, key: EdgeKey, accepting: bool)
    requires Enabled(s, SendRelease(key)) && key in s.owners && key.owner !in s.gone
    ensures var sent := Next(s, SendRelease(key));
      Enabled(sent, OwnerReleases(accepting)) && Next(sent, OwnerReleases(accepting)) == Sent(s, key, Some(accepting))
  {
    hide TakeReply, MarkedDead;
    SendIs(s, key);
  }

  // The pass between calls: this key let go, or not.
  function PassHeard(s: Saga, key: EdgeKey, freed: bool): Saga
    requires s.collection.Some?
  {
    var c := s.collection.value;
    s.(collection := Some(c.(call := None, uncertain := if freed then c.uncertain - {key} else c.uncertain,
                             acked := if freed then c.acked + {key} else c.acked)))
  }

  // The owner let go, and the answer arrived.
  predicate LetGo(s: Saga, w: Weather)
    requires Releasing(s)
  {
    var call := s.collection.value.call.value;
    call.key.owner in s.dead || (w.replies && call.accepted == Some(true))
  }

  lemma HeardReleaseIs(s: Saga, w: Weather)
    requires Releasing(s)
    ensures Enabled(s, HearingRelease(s, w))
    ensures Next(s, HearingRelease(s, w)) == PassHeard(s, s.collection.value.call.value.key, LetGo(s, w))
  {
    hide TakeReply, MarkedDead;
  }

  // The reply, its loss, or the owner's confirmed death.
  function HearingRelease(s: Saga, w: Weather): Event
    requires Releasing(s)
  {
    var call := s.collection.value.call.value;
    if call.key.owner in s.dead then ReleaseOwnerDead
    else if w.replies && call.accepted.Some? then ReleaseReply
    else ReleaseLost
  }

  lemma ReleasedCloser(s: Saga, k: EdgeKey, n: nat, j: EdgeKey)
    requires Doomed(s, k, n) && j in s.collection.value.plan && j !in s.collection.value.acked
    requires j.owner !in s.gone && j.owner !in s.dead
    ensures Enabled(s, SendRelease(j)) && Enabled(Next(s, SendRelease(j)), OwnerReleases(true))
    ensures Enabled(Next(Next(s, SendRelease(j)), OwnerReleases(true)), ReleaseReply)
    ensures Closer(s, Next(Next(Next(s, SendRelease(j)), OwnerReleases(true)), ReleaseReply), k, n, j)
  {
    hide Next, Closer;
    FreedIs(s, j, true);
    HeardReleaseIs(Sent(s, j, Some(true)), Weather(true, true, None, true));
    SentCloser(s, k, n, j);
  }

  lemma SentCloser(s: Saga, k: EdgeKey, n: nat, j: EdgeKey)
    requires Doomed(s, k, n) && j in s.collection.value.plan && j !in s.collection.value.acked
    requires j.owner !in s.gone
    ensures Closer(s, PassHeard(Sent(s, j, Some(true)), j, true), k, n, j)
  {
  }

  // The rest of the pass follows the events that acknowledge j.
  lemma Chained(s: Saga, j: EdgeKey, t: Saga, rest: seq<Event>, u: Saga) returns (events: seq<Event>)
    requires Reaches(t, rest, u)
    requires if j.owner in s.gone then t == Next(s, MarkDead(j.owner))
             else
               && Enabled(s, SendRelease(j)) && Enabled(Next(s, SendRelease(j)), OwnerReleases(true))
               && Enabled(Next(Next(s, SendRelease(j)), OwnerReleases(true)), ReleaseReply)
               && t == Next(Next(Next(s, SendRelease(j)), OwnerReleases(true)), ReleaseReply)
    ensures Reaches(s, events, u)
  {
    hide Next;
    if j.owner in s.gone {
      events := Earlier(s, MarkDead(j.owner), t, rest, u);
    } else {
      var sent := Next(s, SendRelease(j));
      var freed := Next(sent, OwnerReleases(true));
      events := Earlier(freed, ReleaseReply, t, rest, u);
      events := Earlier(sent, OwnerReleases(true), freed, events, u);
      events := Earlier(s, SendRelease(j), sent, events, u);
    }
  }

  lemma DoomedFinish(s: Saga, k: EdgeKey, n: nat)
    requires Doomed(s, k, n) && s.collection.value.acked == s.collection.value.plan.Keys
    ensures Enabled(s, FinishCollection) && Leaks(Next(s, FinishCollection))
  {
  }

  lemma {:induction false} DoomedLeaks(s: Saga, k: EdgeKey, n: nat) returns (t: Saga, events: seq<Event>)
    requires Doomed(s, k, n)
    ensures Reaches(s, events, t) && Leaks(t)
    decreases s.collection.value.plan.Keys - s.collection.value.acked
  {
    hide Next, Leaks, Enabled;
    var c := s.collection.value;
    if c.acked == c.plan.Keys {
      DoomedFinish(s, k, n);
      t := Next(s, FinishCollection);
      events := Earlier(s, FinishCollection, t, [], t);
    } else {
      var j :| j in c.plan && j !in c.acked;
      DoomedStep(s, k, n, j);
      var next := if j.owner in s.gone then Next(s, MarkDead(j.owner))
                  else Next(Next(Next(s, SendRelease(j)), OwnerReleases(true)), ReleaseReply);
      t, events := DoomedLeaks(next, k, n);
      events := Chained(s, j, next, events, t);
    }
  }

  // A popped session whose driver may still replace the living owner's credential for k.
  ghost predicate Poised(s: Saga, k: EdgeKey) {
    && Between(s) && !s.listed && s.registered && !s.completed && s.collection.None? && s.edges.Keys == s.owners.Keys
    && k in s.edges && k.owner !in s.gone && s.dead <= s.gone && OwnerAt(s.owners[k], s.edges[k])
    && var sess := s.session.value;
    && sess.failed == {} && k in sess.swaps && k !in sess.acked
    && sess.swaps[k].expected == s.edges[k] < sess.swaps[k].replacement
  }

  // Collection claims the old credential between the send and the owner's answer.
  lemma PoisedLeaks(s: Saga, k: EdgeKey) returns (t: Saga, events: seq<Event>)
    requires Poised(s, k)
    ensures Reaches(s, events, t) && Leaks(t)
  {
    var sent := Next(s, SendReplace(k));
    var claimed := Next(sent, StartCollection);
    var moved := Next(claimed, OwnerReplaces(true, None));
    t, events := DoomedLeaks(moved, k, s.session.value.swaps[k].replacement);
    events := Earlier(claimed, OwnerReplaces(true, None), moved, events, t);
    events := Earlier(sent, StartCollection, claimed, events, t);
    events := Earlier(s, SendReplace(k), sent, events, t);
  }

  // The driver of a popped session finishes its call and turns to k.
  lemma UnquietIsPoised(s: Saga) returns (k: EdgeKey, t: Saga, events: seq<Event>)
    requires SagaInv(s) && Enabled(s, PopAfterShutdown) && Pops(s) && !Quiet(s, s.session.value)
    ensures Poised(t, k) && |events| <= 1
    ensures events == [] ==> t == Next(s, PopAfterShutdown)
    ensures events != [] ==> Steps(Next(s, PopAfterShutdown), events[0], t)
  {
    var sess, popped := s.session.value, Next(s, PopAfterShutdown);
    k :| k in sess.swaps && k.owner !in s.gone && k !in sess.acked;
    assert Held(s.owners[k], s.edges[k], sess.swaps[k], k in sess.uncertain);
    if sess.call.None? {
      events, t := [], popped;
    } else if sess.failed == {} {
      events, t := [ReplaceLost], Next(popped, ReplaceLost);
    } else {
      events, t := [ReplaceReply], Next(popped, ReplaceReply);
    }
  }

  /** A pass that pops a session another pass can still send for allows a run in
      which collection completes and a living owner keeps the successor. */
  lemma UnquietPopLeaks(s: Saga) returns (t: Saga, events: seq<Event>)
    requires SagaInv(s) && Enabled(s, PopAfterShutdown) && Pops(s) && !Quiet(s, s.session.value)
    ensures Reaches(Next(s, PopAfterShutdown), events, t) && Leaks(t)
  {
    var k, poised, first := UnquietIsPoised(s);
    t, events := PoisedLeaks(poised, k);
    if first != [] {
      events := Earlier(Next(s, PopAfterShutdown), first[0], poised, events, t);
    }
  }

  lemma StaysOffTheTable(s: Saga, e: Event)
    requires s.closed && !Listed(s) && Enabled(s, e)
    ensures Next(s, e).closed && !Listed(Next(s, e)) && Orderly(s, e)
  {
    if e.OfCollection() { CollectLeavesTable(s, e); }
    hide Collect;
  }

  lemma CollectLeavesTable(s: Saga, e: Event)
    requires Enabled(s, e) && e.OfCollection() && !Listed(s)
    ensures Collect(s, e).closed == s.closed && !Listed(Collect(s, e))
  {
    hide Enabled, OwnerRelease;
    if e.StartCollection? {
    } else {
      assert Collect(s, e).session == s.session && Collect(s, e).listed == s.listed;
    }
  }

  lemma {:induction false} NothingToPop(s: Saga, events: seq<Event>, t: Saga)
    requires s.closed && !Listed(s) && Reaches(s, events, t)
    ensures OrderlyRun(s, events)
    decreases |events|
  {
    if events == [] {
    } else {
      hide Next, Enabled, Orderly, Listed;
      StaysOffTheTable(s, events[0]);
      NothingToPop(Next(s, events[0]), events[1..], t);
    }
  }

  lemma QuietPopIsSafe(s: Saga, events: seq<Event>, t: Saga)
    requires SagaInv(s) && Enabled(s, PopAfterShutdown) && Pops(s) && Quiet(s, s.session.value)
    requires Reaches(Next(s, PopAfterShutdown), events, t)
    ensures !Leaks(t)
  {
    PopKeeps(s);
    NothingToPop(Next(s, PopAfterShutdown), events, t);
    RunKeepsInv(Next(s, PopAfterShutdown), events, t);
    hide Next, Reaches;
  }

  /** Main result: popping a session during shutdown is safe exactly when nobody
      has anything left to send for it; the guard only asks that nothing is
      uncertain, which is not enough while another pass drives the session. */
  lemma PopIsSafeIffQuiet(s: Saga)
    requires SagaInv(s) && Enabled(s, PopAfterShutdown) && Pops(s)
    ensures CanLeak(Next(s, PopAfterShutdown)) <==> !Quiet(s, s.session.value)
  {
    hide Next, Quiet, Reaches, Leaks, SagaInv;
    if Quiet(s, s.session.value) {
      forall events, t | Reaches(Next(s, PopAfterShutdown), events, t) ensures !Leaks(t) {
        QuietPopIsSafe(s, events, t);
      }
    } else {
      var t, events := UnquietPopLeaks(s);
    }
  }

  const LEAKING_KEY := EdgeKey(ObjectID(TaskID(1), 0), WorkerID(1))

  // One edge whose owner holds attempt zero.
  function OneEdge(): Saga {
    var owners := map[LEAKING_KEY := OwnerSide({0}, {}, map[])];
    Saga(map[LEAKING_KEY := 0], true, false, owners, {}, {}, None, false, None, false, false, 0)
  }

  // Its renewal, between or during calls.
  function Renewing(uncertain: set<EdgeKey>, driving: bool, call: Option<Call>): Saga {
    var swaps := map[LEAKING_KEY := Swap(0, 1)];
    OneEdge().(session := Some(Session(1, swaps, {}, uncertain, {}, false, driving, false, 0, 0, call)), listed := true)
  }

  // Shutdown has begun; so many passes have finished their traversal without popping.
  function Shutting(driving: bool, shutdown: bool, popping: nat): Saga {
    var s := Renewing({}, driving, None);
    s.(closed := true, popping := popping, session := Some(s.session.value.(shutdown := shutdown)))
  }

  // The owner is busy, so the renewal stays listed with its edge unacknowledged.
  lemma BusyAnswer()
    ensures var k := LEAKING_KEY;
      && Steps(OneEdge(), StartRenewal(1), Renewing({}, true, None))
      && Steps(Renewing({}, true, None), SendReplace(k), Renewing({k}, true, Some(Call(k, false, None))))
      && Steps(Renewing({k}, true, Some(Call(k, false, None))), OwnerReplaces(true, Some(Busy)),
               Renewing({k}, true, Some(Call(k, false, Some(Failed(Busy))))))
  {
    var none: set<EdgeKey> := {};
    assert none + {LEAKING_KEY} == {LEAKING_KEY};
    assert NewSession(OneEdge().edges, 1).swaps == map[LEAKING_KEY := Swap(0, 1)];
    assert NewSession(OneEdge().edges, 1).acked == {};
    assert OneEdge().owners[LEAKING_KEY := OneEdge().owners[LEAKING_KEY]] == OneEdge().owners;
  }

  lemma BusyRenewal()
    ensures var k := LEAKING_KEY;
      && Steps(Renewing({k}, true, Some(Call(k, false, Some(Failed(Busy))))), ReplaceReply, Renewing({}, true, None))
      && Steps(Renewing({}, true, None), EndPass({}, false), Renewing({}, false, None))
  {
    var none: set<EdgeKey> := {};
    assert {LEAKING_KEY} - {LEAKING_KEY} == none && none + none == none;
  }

  // A second pass starts after the first has sent everything and before it pops.
  lemma SecondPass()
    ensures Steps(Renewing({}, false, None), Close, Shutting(false, false, 0))
    ensures Steps(Shutting(false, false, 0), StartShutdownPass, Shutting(true, true, 0))
    ensures Steps(Shutting(true, true, 0), EndPass({}, false), Shutting(false, true, 1))
    ensures Steps(Shutting(false, true, 1), StartShutdownPass, Shutting(true, true, 1))
  {
    var none: set<EdgeKey> := {};
    assert none + none == none;
  }

  // The first renewal attempt, then whatever follows it.
  lemma AfterBusyRenewal(rest: seq<Event>, t: Saga) returns (events: seq<Event>)
    requires Reaches(Renewing({}, false, None), rest, t)
    ensures Reaches(OneEdge(), events, t)
  {
    hide Next, Enabled, Renewing, OneEdge;
    BusyAnswer();
    BusyRenewal();
    var k := LEAKING_KEY;
    var calling := Renewing({k}, true, Some(Call(k, false, None)));
    var answered := Renewing({k}, true, Some(Call(k, false, Some(Failed(Busy)))));
    events := Earlier(Renewing({}, true, None), EndPass({}, false), Renewing({}, false, None), rest, t);
    events := Earlier(answered, ReplaceReply, Renewing({}, true, None), events, t);
    events := Earlier(calling, OwnerReplaces(true, Some(Busy)), answered, events, t);
    events := Earlier(Renewing({}, true, None), SendReplace(k), calling, events, t);
    events := Earlier(OneEdge(), StartRenewal(1), Renewing({}, true, None), events, t);
  }

  /** Two overlapping shutdown passes reach such a pop from a fresh registration,
      so the restriction to orderly runs above cannot be dropped. */
  lemma OverlappingShutdownLeaks() returns (t: Saga, events: seq<Event>)
    ensures JustRegistered(OneEdge()) && Reaches(OneEdge(), events, t) && Leaks(t)
  {
    hide Next, Enabled, Shutting, Renewing, SagaInv, Quiet, Pops, Leaks;
    SecondPass();
    OverlapIsInv();
    OneEdgeIsRegistered();
    t, events := UnquietPopLeaks(Shutting(true, true, 1));
    events := Earlier(Shutting(true, true, 1), PopAfterShutdown, Next(Shutting(true, true, 1), PopAfterShutdown),
                      events, t);
    events := Earlier(Shutting(false, true, 1), StartShutdownPass, Shutting(true, true, 1), events, t);
    events := Earlier(Shutting(true, true, 0), EndPass({}, false), Shutting(false, true, 1), events, t);
    events := Earlier(Shutting(false, false, 0), StartShutdownPass, Shutting(true, true, 0), events, t);
    events := Earlier(Renewing({}, false, None), Close, Shutting(false, false, 0), events, t);
    events := AfterBusyRenewal(events, t);
  }

  lemma OneEdgeIsRegistered()
    ensures JustRegistered(OneEdge())
  {
  }

  lemma OverlapIsInv()
    ensures var s := Shutting(true, true, 1);
      SagaInv(s) && Enabled(s, PopAfterShutdown) && Pops(s) && !Quiet(s, s.session.value)
  {
    var s := Shutting(true, true, 1);
    assert LEAKING_KEY in s.session.value.swaps;
    assert OwnerAt(s.owners[LEAKING_KEY], 0);
  }

  // Every pop finds a session that nobody drives.
  ghost predicate IdleRun(s: Saga, events: seq<Event>)
    decreases |events|
  {
    events == [] ||
    (Enabled(s, events[0]) && (events[0].PopAfterShutdown? && Pops(s) ==> !s.session.value.driving)
     && IdleRun(Next(s, events[0]), events[1..]))
  }

  /** Checking the driving flag before a pop is enough for every run. */
  lemma {:induction false} IdleIsOrderly(s: Saga, events: seq<Event>)
    requires IdleRun(s, events)
    ensures OrderlyRun(s, events)
    decreases |events|
  {
    hide Next, Enabled;
    if events == [] {
    } else {
      IdleIsOrderly(Next(s, events[0]), events[1..]);
    }
  }

  // ------------------------------------------------------------------------
  // The driving loops

  lemma RunAppend(s: Saga, events: seq<Event>, t: Saga, e: Event)
    requires Reaches(s, events, t) && OrderlyRun(s, events) && Enabled(t, e) && Orderly(t, e)
    ensures Reaches(s, events + [e], Next(t, e)) && OrderlyRun(s, events + [e])
    decreases |events|
  {
    if events == [] {
      assert (events + [e])[1..] == [];
    } else {
      RunAppend(Next(s, events[0]), events[1..], t, e);
      assert (events + [e])[1..] == events[1..] + [e];
    }
  }

  // What a step of a renewal pass leaves alone.
  predicate SamePass(s: Saga, t: Saga) {
    && s.session.Some? && t.session.Some? && t.session.value.swaps == s.session.value.swaps && t.listed == s.listed
    && t.gone == s.gone && t.dead == s.dead && t.claimed == s.claimed && t.registered == s.registered
    && t.owners.Keys == s.owners.Keys && t.closed == s.closed
    && t.session.value.attempt == s.session.value.attempt && t.session.value.shutdown == s.session.value.shutdown
    && t.session.value.epoch == s.session.value.epoch && t.session.value.startEpoch == s.session.value.startEpoch
  }

  // The call reaches an open owner and its reply comes back.
  predicate Delivered(w: Weather) { w.reaches && w.open && w.replies }

  // The owner asks to try again.
  predicate Retry(w: Weather) { w.obstacle in {Some(Busy), Some(Collecting)} }

  // Mark the key uncertain and make the call; a known dead owner is not called.
  function Asked(s: Saga, key: EdgeKey, w: Weather): Saga
    requires Enabled(s, SendReplace(key)) && key in s.owners
  {
    var sent := Next(s, SendReplace(key));
    if key.owner !in s.dead && w.reaches && key.owner !in s.gone then Next(sent, OwnerReplaces(w.open, w.obstacle))
    else sent
  }

  // The reply, its loss, or the owner's confirmed death.
  function Hearing(s: Saga, w: Weather): Event
    requires Calling(s)
  {
    if s.session.value.call.value.key.owner in s.dead then ReplaceOwnerDead
    else if w.replies && s.session.value.call.value.outcome.Some? then ReplaceReply
    else ReplaceLost
  }

  // What the owner answers, if the call gets to it.
  function AnswerTo(s: Saga, key: EdgeKey, w: Weather): Option<Outcome>
    requires Enabled(s, SendReplace(key)) && key in s.owners
  {
    var swap := s.session.value.swaps[key];
    if key.owner !in s.dead && w.reaches && key.owner !in s.gone
    then Some(OwnerReplace(s.owners[key], swap.expected, swap.replacement, w.open, w.obstacle).1) else None
  }

  // The session once the call to this key is out, with what the owner answered so far.
  function CallOut(s: Saga, key: EdgeKey, outcome: Option<Outcome>): Session
    requires s.session.Some?
  {
    var sess := s.session.value;
    sess.(uncertain := sess.uncertain + {key}, call := Some(Call(key, key in sess.uncertain, outcome)))
  }

  lemma SendFacts(s: Saga, key: EdgeKey)
    requires Enabled(s, SendReplace(key))
    ensures Between(s) && key in s.session.value.swaps
  {
  }

  lemma SendReplaceIs(s: Saga, key: EdgeKey)
    requires Enabled(s, SendReplace(key))
    ensures Next(s, SendReplace(key)) == s.(session := Some(CallOut(s, key, None)))
  {
    hide Collect, TakeReply, MarkedDead, OwnerReplace;
  }

  lemma OwnerReplacesIs(s: Saga, key: EdgeKey, w: Weather)
    requires Enabled(s, SendReplace(key)) && key in s.owners && key.owner !in s.gone
    ensures var sent, swap := s.(session := Some(CallOut(s, key, None))), s.session.value.swaps[key];
      var (o, outcome) := OwnerReplace(s.owners[key], swap.expected, swap.replacement, w.open, w.obstacle);
      && Enabled(sent, OwnerReplaces(w.open, w.obstacle))
      && Next(sent, OwnerReplaces(w.open, w.obstacle))
         == s.(owners := s.owners[key := o], session := Some(CallOut(s, key, Some(outcome))))
  {
    hide Collect, TakeReply, MarkedDead, OwnerReplace;
  }

  lemma AskedIs(s: Saga, key: EdgeKey, w: Weather)
    requires Enabled(s, SendReplace(key)) && key in s.owners
    ensures var t, sess := Asked(s, key, w), s.session.value;
      && SamePass(s, t) && t.edges == s.edges && Calling(t)
      && t.session.value == sess.(uncertain := sess.uncertain + {key},
                                  call := Some(Call(key, key in sess.uncertain, AnswerTo(s, key, w))))
  {
    hide Next, OwnerReplace, Enabled;
    SendFacts(s, key);
    SendReplaceIs(s, key);
    if key.owner !in s.gone { OwnerReplacesIs(s, key, w); }
  }

  // An open owner whose credential is known settles the key; only its own
  // obstacle makes it ask for another try.
  lemma OpenAnswer(o: OwnerSide, swap: Swap, obstacle: Option<Failure>, before: bool)
    requires swap.expected < swap.replacement
    requires OwnerAt(o, swap.expected) || (before && OwnerAhead(o, swap.expected, swap.replacement))
    ensures var outcome := OwnerReplace(o, swap.expected, swap.replacement, true, obstacle).1;
      && outcome != Failed(Stopped) && (obstacle.None? ==> !outcome.Failed?)
      && (outcome in {Failed(Busy), Failed(Collecting)} ==> obstacle == Some(outcome.why))
  {
    assert swap.replacement !in o.released;
  }

  // What hearing about a call leaves of its session, and what a reply settles.
  ghost predicate HeardDone(s: Saga, w: Weather, t: Saga)
    requires Calling(s) && Between(t)
  {
    var sess, call, sess' := s.session.value, s.session.value.call.value, t.session.value;
    && sess.acked <= sess'.acked
    && sess.failed - {call.key} <= sess'.failed <= sess.failed + {call.key}
    && sess.uncertain - {call.key} <= sess'.uncertain <= sess.uncertain
    && (call.key.owner !in s.dead && w.replies && call.outcome.Some? ==>
          && (!call.outcome.value.Failed? ==>
                call.key in sess'.acked && call.key !in sess'.uncertain && sess'.failed == sess.failed - {call.key})
          && (call.outcome.value.Failed? && call.outcome.value.why != Stopped ==>
                && call.key !in sess'.uncertain
                && (call.outcome.value.why in {Busy, Collecting} || call.key in sess'.failed)))
  }

  lemma LostIs(s: Saga)
    requires Calling(s)
    ensures Enabled(s, ReplaceLost) && Next(s, ReplaceLost) == s.(session := Some(s.session.value.(call := None)))
  {
  }

  lemma OwnerDeadIs(s: Saga)
    requires Calling(s) && s.session.value.call.value.key.owner in s.dead
    ensures var sess := s.session.value;
      && Enabled(s, ReplaceOwnerDead)
      && Next(s, ReplaceOwnerDead) ==
           s.(session := Some(sess.(call := None, uncertain := sess.uncertain - {sess.call.value.key},
                                    failed := sess.failed + {sess.call.value.key})))
  {
  }

  lemma HeardNothing(s: Saga, w: Weather)
    requires Calling(s) && !Hearing(s, w).ReplaceReply?
    ensures Enabled(s, Hearing(s, w)) && SamePass(s, Next(s, Hearing(s, w))) && Between(Next(s, Hearing(s, w)))
    ensures HeardDone(s, w, Next(s, Hearing(s, w)))
  {
    hide Enabled, Next;
    if s.session.value.call.value.key.owner in s.dead { OwnerDeadIs(s); } else { LostIs(s); }
  }

  lemma ReplyIs(s: Saga)
    requires Calling(s) && Movable(s, s.session.value.call.value.key) && s.session.value.call.value.outcome.Some?
    ensures Enabled(s, ReplaceReply) && Next(s, ReplaceReply) == TakeReply(s)
  {
    hide TakeReply;
  }

  // A refusal leaves the registry alone, and is remembered unless the owner asks to try again.
  ghost predicate Refused(s: Saga, t: Saga)
    requires Calling(s) && s.session.value.call.value.outcome.Some? && s.session.value.call.value.outcome.value.Failed?
  {
    && t.session.Some? && t == s.(session := t.session)
    && var sess, sess', call := s.session.value, t.session.value, s.session.value.call.value;
    && sess' == sess.(call := None, uncertain := sess'.uncertain, failed := sess'.failed)
    && sess.uncertain - {call.key} <= sess'.uncertain <= sess.uncertain
    && sess.failed <= sess'.failed <= sess.failed + {call.key}
    && (call.outcome.value.why != Stopped ==>
          call.key !in sess'.uncertain && (call.outcome.value.why in {Busy, Collecting} || call.key in sess'.failed))
  }

  lemma ConfirmedHeard(s: Saga, w: Weather, key: EdgeKey)
    requires Calling(s) && s.session.value.call.value.key == key && key in s.session.value.swaps
    requires s.session.value.call.value.outcome.Some? && !s.session.value.call.value.outcome.value.Failed?
    ensures Between(Installed(s, key)) && SamePass(s, Installed(s, key)) && HeardDone(s, w, Installed(s, key))
  {
  }

  lemma RefusedHeard(s: Saga, w: Weather, t: Saga)
    requires Calling(s) && s.session.value.call.value.outcome.Some? && s.session.value.call.value.outcome.value.Failed?
    requires Refused(s, t)
    ensures Between(t) && SamePass(s, t) && HeardDone(s, w, t)
  {
  }

  lemma RefusedIs(s: Saga)
    requires Enabled(s, ReplaceReply) && Calling(s) && s.session.value.call.value.outcome.Some?
    requires s.session.value.call.value.outcome.value.Failed?
    ensures Refused(s, TakeReply(s))
  {
    hide Enabled, EndSession;
  }

  lemma HeardReply(s: Saga, w: Weather)
    requires Calling(s) && Movable(s, s.session.value.call.value.key) && Enabled(s, ReplaceReply)
    requires s.session.value.call.value.outcome.Some?
    ensures SamePass(s, TakeReply(s)) && Between(TakeReply(s)) && HeardDone(s, w, TakeReply(s))
  {
    hide Enabled, TakeReply, HeardDone, SamePass;
    if s.session.value.call.value.outcome.value.Failed? {
      RefusedIs(s);
      RefusedHeard(s, w, TakeReply(s));
    } else {
      ReplyIs(s);
      ConfirmedIs(s);
      ConfirmedHeard(s, w, s.session.value.call.value.key);
    }
  }

  lemma HeardIs(s: Saga, w: Weather)
    requires Calling(s) && Movable(s, s.session.value.call.value.key)
    ensures Enabled(s, Hearing(s, w)) && SamePass(s, Next(s, Hearing(s, w))) && Between(Next(s, Hearing(s, w)))
    ensures HeardDone(s, w, Next(s, Hearing(s, w)))
  {
    hide HeardDone, SamePass, TakeReply, Next, Enabled;
    if Hearing(s, w).ReplaceReply? {
      ReplyIs(s);
      HeardReply(s, w);
    } else {
      HeardNothing(s, w);
    }
  }

  // One exchange of a pass: only its own key moves, a delivered call settles it,
  // and nothing but the owner's obstacles keeps it from being acknowledged.
  ghost predicate ExchangeDone(s: Saga, key: EdgeKey, w: Weather, t: Saga)
    requires s.session.Some? && t.session.Some?
  {
    var sess, sess' := s.session.value, t.session.value;
    && sess.acked <= sess'.acked && sess.failed - {key} <= sess'.failed <= sess.failed + {key}
    && sess.uncertain - {key} <= sess'.uncertain <= sess.uncertain + {key}
    && (key.owner !in s.gone && Delivered(w) ==>
          && key !in sess'.uncertain && (key in sess'.acked || key in sess'.failed || Retry(w))
          && (w.obstacle.None? ==> key in sess'.acked && key !in sess'.failed))
  }

  lemma ExchangeEffect(s: Saga, key: EdgeKey, w: Weather)
    requires SagaInv(s) && Listed(s) && Enabled(s, SendReplace(key)) && key in s.owners
    ensures var asked := Asked(s, key, w);
      && Calling(asked) && Movable(asked, key) && asked.session.value.call.value.key == key
      && Enabled(asked, Hearing(asked, w))
      && var t := Next(asked, Hearing(asked, w)); SamePass(s, t) && Between(t) && ExchangeDone(s, key, w, t)
  {
    hide Next, Hearing, SagaInv, SessionOk, Asked, OwnerReplace, Held, OwnerAt, OwnerAhead;
    AskedIs(s, key, w);
    ListedMoves(s, key);
    var asked := Asked(s, key, w);
    HeardIs(asked, w);
    if key.owner !in s.gone && Delivered(w) {
      DeliveredAnswer(s, key, w);
    }
  }

  lemma ListedMoves(s: Saga, key: EdgeKey)
    requires SagaInv(s) && Listed(s) && Enabled(s, SendReplace(key))
    ensures Movable(s, key) && key in s.owners && s.dead <= s.gone
  {
  }

  lemma DeliveredAnswer(s: Saga, key: EdgeKey, w: Weather)
    requires SagaInv(s) && Listed(s) && Enabled(s, SendReplace(key)) && key in s.owners
    requires key.owner !in s.gone && Delivered(w)
    ensures AnswerTo(s, key, w).Some? && AnswerTo(s, key, w).value != Failed(Stopped)
    ensures w.obstacle.None? ==> !AnswerTo(s, key, w).value.Failed?
    ensures AnswerTo(s, key, w).value in {Failed(Busy), Failed(Collecting)} ==> Retry(w)
  {
    hide CollectionOk, OwnerReplace;
    var sess := s.session.value;
    assert Held(s.owners[key], s.edges[key], sess.swaps[key], key in sess.uncertain);
    OpenAnswer(s.owners[key], sess.swaps[key], w.obstacle, key in sess.uncertain);
  }

  lemma CollectionCloses(s: Saga, complete: bool)
    requires SagaInv(s) && BetweenReleases(s)
    requires complete <==>
      s.collection.value.acked == s.collection.value.plan.Keys && s.collection.value.uncertain == {}
    ensures complete ==> Enabled(s, FinishCollection) && Next(s, FinishCollection).completed
    ensures Enabled(s, EndCollection) && !Next(s, EndCollection).completed
  {
  }

  // The key's owner lives and the call is delivered.
  predicate Settling(s: Saga, k: EdgeKey, w: Weather) { k.owner !in s.gone && Delivered(w) }

  // What one key's turn achieved, whether it got a call or not.
  ghost predicate KeyDone(s: Saga, key: EdgeKey, w: Weather, t: Saga) {
    && s.session.Some? && t.session.Some? && t.gone == s.gone
    && var sess, sess' := s.session.value, t.session.value;
    && sess.acked <= sess'.acked && sess.failed - {key} <= sess'.failed <= sess.failed + {key}
    && sess.uncertain - {key} <= sess'.uncertain <= sess.uncertain + {key}
    && (Settling(s, key, w) ==> key !in sess'.uncertain)
    && (sess.failed == {} && Settling(s, key, w) ==> key in sess'.acked || key in sess'.failed || Retry(w))
    && (sess.failed == {} && (key in sess.acked || (Settling(s, key, w) && w.obstacle.None?)) ==>
          key in sess'.acked && sess'.failed == {})
  }

  lemma ExchangeIsKeyDone(s: Saga, key: EdgeKey, w: Weather, t: Saga)
    requires s.session.Some? && t.session.Some? && t.gone == s.gone && ExchangeDone(s, key, w, t)
    requires key !in s.session.value.acked
    ensures KeyDone(s, key, w, t)
  {
  }

  lemma SkipIsKeyDone(s: Saga, key: EdgeKey, w: Weather)
    requires SagaInv(s) && Listed(s)
    requires var sess := s.session.value; key in sess.acked || (sess.failed != {} && key !in sess.uncertain)
    ensures KeyDone(s, key, w, s)
  {
    hide CollectionOk, Held;
  }

  // What a pass over these keys achieved.
  ghost predicate PassDone(s: Saga, keys: seq<EdgeKey>, weather: map<EdgeKey, Weather>, t: Saga) {
    && s.session.Some? && t.session.Some? && t.gone == s.gone && (forall k :: k in keys ==> k in weather)
    && var sess, sess' := s.session.value, t.session.value;
    && sess.acked <= sess'.acked
    // Only lost calls leave anything ambiguous behind.
    && (forall k :: k in sess'.uncertain ==> if k in keys then !Settling(s, k, weather[k]) else k in sess.uncertain)
    // From a clean start, every delivered key gets its verdict.
    && (sess.failed == {} ==>
          && (forall k :: k in sess'.failed ==> k in keys)
          && (forall k :: k in keys && Settling(s, k, weather[k]) ==>
                k in sess'.acked || sess'.failed != {} || Retry(weather[k]))
          && (AllSettle(s, keys, weather) ==> sess'.failed == {} && forall k :: k in keys ==> k in sess'.acked))
  }

  // Every key is acknowledged already or gets a delivered call without an obstacle.
  ghost predicate AllSettle(s: Saga, keys: seq<EdgeKey>, weather: map<EdgeKey, Weather>)
    requires s.session.Some? && forall k :: k in keys ==> k in weather
  {
    forall k :: k in keys ==> k in s.session.value.acked || (Settling(s, k, weather[k]) && weather[k].obstacle.None?)
  }

  lemma PassStarts(s: Saga, weather: map<EdgeKey, Weather>)
    requires s.session.Some?
    ensures PassDone(s, [], weather, s)
  {
  }

  lemma PassAdvances(s: Saga, keys: seq<EdgeKey>, key: EdgeKey, weather: map<EdgeKey, Weather>, t: Saga, u: Saga)
    requires PassDone(s, keys, weather, t) && key in weather && KeyDone(t, key, weather[key], u) && key !in keys
    ensures PassDone(s, keys + [key], weather, u)
  {
    var all := keys + [key];
    assert forall k :: k in all <==> k in keys || k == key;
    if AllSettle(s, all, weather) {
      assert AllSettle(s, keys, weather);
    }
    if s.session.value.failed == {} && t.session.value.failed != {} {
      var f :| f in t.session.value.failed;
      assert f != key && f in u.session.value.failed;
    }
  }

  lemma StartsHere(s: Saga)
    ensures Reaches(s, [], s) && OrderlyRun(s, [])
  {
  }

  class LineageRuntime {
    var saga: Saga

    // Execute one locked region.
    method Take(e: Event, ghost start: Saga, ghost trace: seq<Event>) returns (ghost trace': seq<Event>)
      requires Enabled(saga, e) && Orderly(saga, e) && Reaches(start, trace, saga) && OrderlyRun(start, trace)
      modifies this
      ensures saga == Next(old(saga), e) && Reaches(start, trace', saga) && OrderlyRun(start, trace')
    {
      RunAppend(start, trace, saga, e);
      trace' := trace + [e];
      saga := Next(saga, e);
    }

    // Mark the key uncertain and make the call.
    method Ask(key: EdgeKey, w: Weather, ghost start: Saga, ghost trace: seq<Event>) returns (ghost trace': seq<Event>)
      requires Enabled(saga, SendReplace(key)) && key in saga.owners
      requires Reaches(start, trace, saga) && OrderlyRun(start, trace)
      modifies this
      ensures saga == Asked(old(saga), key, w) && Reaches(start, trace', saga) && OrderlyRun(start, trace')
    {
      hide Next, Reaches, OrderlyRun;
      AnswerIsEnabled(saga, key, w);
      trace' := Take(SendReplace(key), start, trace);
      if key.owner !in saga.dead && w.reaches && key.owner !in saga.gone {
        trace' := Take(OwnerReplaces(w.open, w.obstacle), start, trace');
      }
    }

    lemma AnswerIsEnabled(s: Saga, key: EdgeKey, w: Weather)
      requires Enabled(s, SendReplace(key)) && key in s.owners
      ensures var sent := Next(s, SendReplace(key));
        && sent.dead == s.dead && sent.gone == s.gone
        && (key.owner !in s.gone ==> Enabled(sent, OwnerReplaces(w.open, w.obstacle)))
    {
      hide Collect, TakeReply, MarkedDead;
    }

    // Take the reply, its loss, or the owner's confirmed death.
    method Hear(w: Weather, ghost start: Saga, ghost trace: seq<Event>) returns (ghost trace': seq<Event>)
      requires Calling(saga) && Enabled(saga, Hearing(saga, w))
      requires Reaches(start, trace, saga) && OrderlyRun(start, trace)
      modifies this
      ensures saga == Next(old(saga), Hearing(old(saga), w)) && Reaches(start, trace', saga)
      ensures OrderlyRun(start, trace')
    {
      hide Next, Reaches, OrderlyRun, Enabled;
      var call := saga.session.value.call.value;
      if call.key.owner in saga.dead {
        trace' := Take(ReplaceOwnerDead, start, trace);
      } else if w.replies && call.outcome.Some? {
        trace' := Take(ReplaceReply, start, trace);
      } else {
        trace' := Take(ReplaceLost, start, trace);
      }
    }

    // One key of a pass: skipped when it needs no call, or no longer may get one.
    method DriveKey(key: EdgeKey, w: Weather, ghost start: Saga, ghost trace: seq<Event>)
      returns (ghost trace': seq<Event>)
      requires SagaInv(start) && SagaInv(saga) && Between(saga) && saga.listed && key in saga.session.value.swaps
      requires Reaches(start, trace, saga) && OrderlyRun(start, trace)
      modifies this
      ensures SagaInv(saga) && Between(saga) && SamePass(old(saga), saga)
      ensures Reaches(start, trace', saga) && OrderlyRun(start, trace')
      ensures KeyDone(old(saga), key, w, saga)
    {
      hide Next, Reaches, OrderlyRun, SagaInv, Asked, Hearing, ExchangeDone, KeyDone;
      var sess := saga.session.value;
      trace' := trace;
      if key !in sess.acked && (sess.failed == {} || key in sess.uncertain) {
        ListedMoves(saga, key);
        ExchangeEffect(saga, key, w);
        trace' := Ask(key, w, start, trace);
        trace' := Hear(w, start, trace');
        RunKeepsInv(start, trace', saga);
        ExchangeIsKeyDone(old(saga), key, w, saga);
      } else {
        SkipIsKeyDone(saga, key, w);
      }
    }

    /** One pass over the replacements in the given order is an orderly run of
        the machine above. Whatever was ambiguous is settled by a delivered call;
        when nothing had failed before, each delivered key ends acknowledged,
        failed, waiting for its owner, or passed over after another's failure. */
    method DriveReplacements(keys: seq<EdgeKey>, weather: map<EdgeKey, Weather>) returns (ghost trace: seq<Event>)
      requires SagaInv(saga) && Between(saga) && saga.listed
      requires forall k :: k in keys ==> k in saga.session.value.swaps && k in weather
      requires forall i, j :: 0 <= i < j < |keys| ==> keys[i] != keys[j]
      modifies this
      ensures SagaInv(saga) && Between(saga) && Reaches(old(saga), trace, saga) && OrderlyRun(old(saga), trace)
      ensures PassDone(old(saga), keys, weather, saga)
    {
      hide Next, Enabled, Reaches, OrderlyRun, SagaInv, KeyDone, PassDone;
      ghost var start := saga;
      trace := [];
      StartsHere(saga);
      PassStarts(saga, weather);
      var i := 0;
      assert keys[..0] == [];
      while i < |keys|
        invariant 0 <= i <= |keys| && SamePass(start, saga)
        invariant SagaInv(saga) && Between(saga) && Reaches(start, trace, saga) && OrderlyRun(start, trace)
        invariant PassDone(start, keys[..i], weather, saga)
      {
        ghost var before := saga;
        trace := DriveKey(keys[i], weather[keys[i]], start, trace);
        PassAdvances(start, keys[..i], keys[i], weather, before, saga);
        assert keys[..i + 1] == keys[..i] + [keys[i]];
        i := i + 1;
      }
      assert keys[..i] == keys;
    }

    // Mark the edge uncertain and make the call.
    method AskRelease(key: EdgeKey, w: Weather, ghost start: Saga, ghost trace: seq<Event>)
      returns (ghost trace': seq<Event>)
      requires BetweenReleases(saga) && key in saga.collection.value.plan && key in saga.owners
      requires Enabled(saga, SendRelease(key))
      requires Reaches(start, trace, saga) && OrderlyRun(start, trace)
      modifies this
      ensures saga == AskedRelease(old(saga), key, w) && Reaches(start, trace', saga) && OrderlyRun(start, trace')
    {
      hide Next, Reaches, OrderlyRun, Enabled, Sent;
      SendIs(saga, key);
      if key.owner !in saga.gone { FreedIs(saga, key, w.open); }
      SentLives(saga, key);
      trace' := Take(SendRelease(key), start, trace);
      if key.owner !in saga.dead && w.reaches && key.owner !in saga.gone {
        trace' := Take(OwnerReleases(w.open), start, trace');
      }
    }

    // Take the reply, its loss, or the owner's confirmed death.
    method HearRelease(w: Weather, ghost start: Saga, ghost trace: seq<Event>) returns (ghost trace': seq<Event>)
      requires Releasing(saga) && Reaches(start, trace, saga) && OrderlyRun(start, trace)
      modifies this
      ensures saga == PassHeard(old(saga), old(saga).collection.value.call.value.key, LetGo(old(saga), w))
      ensures Reaches(start, trace', saga) && OrderlyRun(start, trace')
    {
      hide Next, Reaches, OrderlyRun, Enabled, PassHeard, LetGo;
      HeardReleaseIs(saga, w);
      var call := saga.collection.value.call.value;
      if call.key.owner in saga.dead {
        trace' := Take(ReleaseOwnerDead, start, trace);
      } else if w.replies && call.accepted.Some? {
        trace' := Take(ReleaseReply, start, trace);
      } else {
        trace' := Take(ReleaseLost, start, trace);
      }
    }

    // The traversal of a collection pass.
    method Releases(keys: seq<EdgeKey>, weather: map<EdgeKey, Weather>, ghost start: Saga, ghost trace: seq<Event>)
      returns (ghost trace': seq<Event>)
      requires SagaInv(start) && BetweenReleases(saga) && Reaches(start, trace, saga) && OrderlyRun(start, trace)
      requires forall k :: k in keys ==> k in saga.collection.value.plan && k in weather
      modifies this
      ensures BetweenReleases(saga) && SameCollection(old(saga), saga)
      ensures Reaches(start, trace', saga) && OrderlyRun(start, trace')
      ensures Acked(saga) == Acked(old(saga)) + Freed(old(saga), keys, weather)
    {
      hide Next, Reaches, OrderlyRun, Enabled, SagaInv, AskedRelease, PassHeard, LetGo, Freed;
      trace' := trace;
      var i := 0;
      assert keys[..0] == [];
      NothingFreed(saga, weather);
      while i < |keys|
        invariant 0 <= i <= |keys|
        invariant BetweenReleases(saga) && SameCollection(old(saga), saga)
        invariant Reaches(start, trace', saga) && OrderlyRun(start, trace')
        invariant Acked(saga) == Acked(old(saga)) + Freed(old(saga), keys[..i], weather)
      {
        FreedGrows(old(saga), keys, weather, i);
        if keys[i] !in saga.collection.value.acked {
          RunKeepsInv(start, trace', saga);
          MayRelease(saga, keys[i]);
          ReleaseEffect(saga, keys[i], weather[keys[i]]);
          trace' := AskRelease(keys[i], weather[keys[i]], start, trace');
          trace' := HearRelease(weather[keys[i]], start, trace');
        }
        i := i + 1;
      }
      assert keys[..i] == keys;
    }

    /** One collection pass reports completion exactly when each edge was
        acknowledged before, or this pass heard from its owner or of its death;
        and then no living owner keeps anything of this task. */
    method DriveCollection(keys: seq<EdgeKey>, weather: map<EdgeKey, Weather>)
      returns (complete: bool, ghost trace: seq<Event>)
      requires SagaInv(saga) && Enabled(saga, StartCollection)
      requires forall k :: k in keys ==> k in saga.edges && k in weather
      modifies this
      ensures SagaInv(saga) && Reaches(old(saga), trace, saga) && OrderlyRun(old(saga), trace)
      ensures complete == saga.completed
      ensures complete <==> old(saga).edges.Keys == Acked(old(saga)) + Freed(old(saga), keys, weather)
      ensures complete ==> NothingKept(saga)
    {
      hide Next, Enabled, Reaches, OrderlyRun, SagaInv;
      StartsHere(saga);
      PlanIsRegistry(saga);
      trace := Take(StartCollection, saga, []);
      trace := Releases(keys, weather, old(saga), trace);
      SameFreed(old(saga), Next(old(saga), StartCollection), keys, weather);
      RunKeepsInv(old(saga), trace, saga);
      complete, trace := Close(old(saga), trace);
    }

    // The end of a pass: report completion and forget the task, or try again later.
    method Close(ghost start: Saga, ghost trace: seq<Event>) returns (complete: bool, ghost trace': seq<Event>)
      requires SagaInv(start) && SagaInv(saga) && BetweenReleases(saga) && Reaches(start, trace, saga)
      requires OrderlyRun(start, trace)
      modifies this
      ensures SagaInv(saga) && Reaches(start, trace', saga) && OrderlyRun(start, trace')
      ensures complete == saga.completed && (complete ==> NothingKept(saga))
      ensures complete <==> Acked(old(saga)) == old(saga).collection.value.plan.Keys
    {
      hide Next, Enabled, Reaches, OrderlyRun, SagaInv;
      complete := saga.collection.value.acked == saga.collection.value.plan.Keys
        && saga.collection.value.uncertain == {};
      if saga.collection.value.acked == saga.collection.value.plan.Keys { AckedIsCertain(saga); }
      CollectionCloses(saga, complete);
      trace' := Take(if complete then FinishCollection else EndCollection, start, trace);
      RunKeepsInv(start, trace', saga);
      if complete { CompletedKeepsNothing(saga); }
    }
  }

  // The edges a collection of this task need not ask about again.
  function Acked(s: Saga): set<EdgeKey> {
    if s.collection.Some? then s.collection.value.acked else {}
  }

  // What the steps of a collection pass leave alone.
  predicate SameCollection(s: Saga, t: Saga) {
    && s.collection.Some? && t.collection.Some? && t.collection.value.plan == s.collection.value.plan
    && t.gone == s.gone && t.dead == s.dead && t.owners.Keys == s.owners.Keys
  }

  // The owner is known to be dead, or it accepts the release and says so.
  predicate LetsGo(s: Saga, key: EdgeKey, w: Weather) {
    key.owner in s.dead || (key.owner !in s.gone && w.reaches && w.open && w.replies)
  }

  function AskedRelease(s: Saga, key: EdgeKey, w: Weather): Saga
    requires s.collection.Some? && key in s.owners && key in s.collection.value.plan
  {
    Sent(s, key, if key.owner !in s.dead && w.reaches && key.owner !in s.gone then Some(w.open) else None)
  }

  lemma SentLives(s: Saga, key: EdgeKey)
    requires s.collection.Some? && key in s.owners && key in s.collection.value.plan
    ensures Sent(s, key, None).gone == s.gone && Sent(s, key, None).dead == s.dead
  {
  }

  // One exchange acknowledges its own key exactly when the owner lets go.
  lemma ReleaseEffect(s: Saga, key: EdgeKey, w: Weather)
    requires BetweenReleases(s) && key in s.owners && key in s.collection.value.plan && s.dead <= s.gone
    ensures var asked := AskedRelease(s, key, w);
      && Releasing(asked) && asked.collection.value.call.value.key == key
      && var t := PassHeard(asked, key, LetGo(asked, w));
      && BetweenReleases(t) && SameCollection(s, t)
      && Acked(t) == Acked(s) + if LetsGo(s, key, w) then {key} else {}
  {
  }

  lemma NothingFreed(s: Saga, weather: map<EdgeKey, Weather>)
    ensures Freed(s, [], weather) == {}
  {
  }

  // The keys among these whose owners let go.
  function Freed(s: Saga, keys: seq<EdgeKey>, weather: map<EdgeKey, Weather>): set<EdgeKey>
    requires forall k :: k in keys ==> k in weather
  {
    set k | k in keys && LetsGo(s, k, weather[k])
  }

  lemma FreedGrows(s: Saga, keys: seq<EdgeKey>, weather: map<EdgeKey, Weather>, i: nat)
    requires i < |keys| && forall k :: k in keys ==> k in weather
    ensures Freed(s, keys[..i + 1], weather) ==
              Freed(s, keys[..i], weather) + if LetsGo(s, keys[i], weather[keys[i]]) then {keys[i]} else {}
  {
    assert forall k :: k in keys[..i + 1] <==> k in keys[..i] || k == keys[i];
  }

  lemma SameFreed(s: Saga, t: Saga, keys: seq<EdgeKey>, weather: map<EdgeKey, Weather>)
    requires t.dead == s.dead && t.gone == s.gone && forall k :: k in keys ==> k in weather
    ensures Freed(t, keys, weather) == Freed(s, keys, weather)
  {
  }

  lemma MayRelease(s: Saga, key: EdgeKey)
    requires SagaInv(s) && BetweenReleases(s) && key in s.collection.value.plan && key !in s.collection.value.acked
    ensures Enabled(s, SendRelease(key)) && key in s.owners && s.dead <= s.gone
  {
  }

  lemma AckedIsCertain(s: Saga)
    requires SagaInv(s) && s.collection.Some? && s.collection.value.acked == s.collection.value.plan.Keys
    ensures s.collection.value.uncertain == {}
  {
  }

  // No living owner keeps a credential of this task.
  ghost predicate NothingKept(s: Saga) {
    forall k :: k in s.edges && k.owner !in s.gone ==> k in s.owners && s.owners[k].retained == {}
  }

  lemma CompletedKeepsNothing(s: Saga)
    requires SagaInv(s) && s.completed
    ensures NothingKept(s)
  {
  }

  lemma PlanIsRegistry(s: Saga)
    requires SagaInv(s) && Enabled(s, StartCollection)
    ensures var t := Next(s, StartCollection);
      && BetweenReleases(t) && t.collection.value.plan == s.edges
      && t.dead == s.dead && t.gone == s.gone && Acked(t) == Acked(s)
  {
  }
}
