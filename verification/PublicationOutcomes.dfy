/** What the publication authority answers, said of receipts and facts alone:
    which requests it accepts, what an accepted one files, and that every
    acyclic publication can be driven to its end. */
module PublicationOutcomes {
  import opened Ids
  import opened ReferenceGraph
  import opened PublicationFacts
  import opened PublicationAuthority
  import opened PublicationInvariants
  import opened PublicationHistory

  // ------------------------------------------------------------------------
  // Reading a record

  // Some receipt of this stage is filed.
  ghost predicate Received(u: Snapshot, stage: Stage) {
    exists rc :: rc in u.receipts && rc.stage == stage
  }

  // Neither fenced nor retired.
  ghost predicate Open(u: Snapshot) { u.fence.None? && !Received(u, Retired) }

  // One reply per transfer, in order.
  ghost predicate Pinned(p: Publication, replies: seq<PinReply>) {
    |replies| == |p.transfers| && forall i :: 0 <= i < |replies| ==> replies[i].transfer == p.transfers[i]
  }

  // The preparation is of exactly this manifest, at the place its payload is kept.
  ghost predicate Attests(p: Publication, prepared: Prepared) {
    && prepared.reference == p.Ref() && (prepared.TaskPrepared? <==> p.TaskPublication?)
    && Pinned(p, prepared.prepares) && Pinned(p, prepared.promotes)
    && if p.TaskPublication? then prepared.taskNode == p.node
       else if p.payload.tier == Inline then prepared.putNode.None? && prepared.seal.None?
       else
         && prepared.putNode.Some?
         && prepared.seal ==
              Some(SealReply(p.putObject, prepared.putNode.value.node, p.payload.size, p.payload.checksum))
  }

  // A hold that a retirement with these intents still has to settle.
  ghost predicate Owed(ts: seq<Transfer>, prepares: set<nat>, promotes: set<nat>, known: bool, k: HoldKey) {
    exists i: nat :: i < |ts| && Owes(ts, prepares, promotes, i, k) && (known ==> NotConsumed(ts, i, k))
  }

  ghost predicate Owes(ts: seq<Transfer>, prepares: set<nat>, promotes: set<nat>, i: nat, k: HoldKey)
    requires i < |ts|
  {
    (i in prepares && k == ts[i].ProvisionalKey()) || (i in promotes && k == ts[i].FinalKey())
  }

  // No transfer from i on took this hold over as its provisional one.
  ghost predicate NotConsumed(ts: seq<Transfer>, i: nat, k: HoldKey) {
    forall j :: i <= j < |ts| ==> k != ts[j].ProvisionalKey()
  }

  // The rollback scope names this Task, and no success contradicts it.
  ghost predicate ScopeFits(u: Snapshot, scope: RollbackScope) {
    && u.publication.TaskPublication? && scope.reference == u.publication.Ref()
    && (forall i :: i in scope.prepareIntents || i in scope.promoteIntents ==> i < |u.publication.transfers|)
  }

  // A recorded preparation leaves nothing that was not started.
  ghost predicate ScopeWhole(u: Snapshot, scope: RollbackScope) {
    && scope.materializationStarted
    && forall i: nat :: i < |u.publication.transfers| ==> i in scope.prepareIntents && i in scope.promoteIntents
  }

  ghost predicate Within(u: Snapshot, closed: ClosedHolds) {
    && (forall r :: r in closed.releases ==>
          exists t :: t in u.publication.transfers && (r.key == t.ProvisionalKey() || r.key == t.FinalKey()))
    && forall d :: d in closed.deaths ==> exists t :: t in u.publication.transfers && t.childOwner == d.worker
  }

  ghost predicate SettledBy(closed: ClosedHolds, k: HoldKey) {
    (exists r :: r in closed.releases && r.key == k) || (exists d :: d in closed.deaths && d.worker == k.owner)
  }

  ghost predicate PaysAll(u: Snapshot, closed: ClosedHolds) {
    var all := Below(|u.publication.transfers|);
    var prepares := if closed.scope.Some? then closed.scope.value.prepareIntents else all;
    var promotes := if closed.scope.Some? then closed.scope.value.promoteIntents else all;
    forall k :: Owed(u.publication.transfers, prepares, promotes, u.prepared.Some?, k) ==> SettledBy(closed, k)
  }

  // The evidence fits the record and settles every hold that is owed.
  ghost predicate Discharges(u: Snapshot, closed: ClosedHolds) {
    && closed.reference == u.publication.Ref()
    && (closed.scope.Some? ==>
          && ScopeFits(u, closed.scope.value) && u.complete.None? && u.adoption.None?
          && (u.prepared.Some? ==> ScopeWhole(u, closed.scope.value)))
    && Within(u, closed) && PaysAll(u, closed)
  }

  // ------------------------------------------------------------------------
  // Admission

  // The manifest says that w owns x.
  ghost predicate Names(p: Publication, x: ObjectID, w: WorkerID) {
    (x == p.Object() && w == p.owner) || exists t :: t in p.transfers && t.child == x && t.childOwner == w
  }

  ghost predicate NamedWith(s: State, p: Publication, x: ObjectID, w: WorkerID) {
    Names(p, x, w) || exists k :: k in s.records && Names(s.records[k].publication, x, w)
  }

  // An older record stands in no one's way: same job, same route per owner, and
  // per object one owner and one attempt at a time, each newer than the last.
  ghost predicate Compatible(o: Snapshot, p: Publication, starting: bool) {
    && o.publication.job == p.job
    && (o.publication.owner == p.owner ==> o.publication.ownerAddress == p.ownerAddress)
    && (o.publication.Object() == p.Object() ==>
          && o.publication.owner == p.owner
          && (starting && Received(o, Intent) ==>
                Received(o, Retired) && o.publication.AttemptNumber() < p.AttemptNumber()))
  }

  ghost predicate Admissible(s: State, p: Publication, starting: bool) {
    && (forall k :: k in s.records ==> Compatible(s.records[k], p, starting))
    && forall x, v, w :: NamedWith(s, p, x, v) && NamedWith(s, p, x, w) ==> v == w
  }

  // The edges of all publications that are reserved and not retired.
  ghost function Reserved(s: State): Edges {
    set k, t | k in s.records && Received(s.records[k], PreparedGraph) && !Received(s.records[k], Retired)
               && t in s.records[k].publication.transfers :: (s.records[k].publication.Object(), t.child)
  }

  // ------------------------------------------------------------------------
  // What is accepted

  // No other value was recorded.
  predicate Unbound<T(==)>(known: Option<T>, value: T) { known.Some? ==> known.value == value }

  // A registered publication may take this step.
  ghost predicate May(s: State, u: Snapshot, r: Request) {
    match r
    case BeginPublication(p) => u.publication == p && Open(u)
    case PrepareGraph(_) =>
      && Received(u, Intent) && Open(u)
      && (Received(u, PreparedGraph) || Acyclic(Reserved(s) + EdgesFrom(u.publication)))
    case ArmTask(prepared) =>
      Attests(u.publication, prepared) && Unbound(u.prepared, prepared) && Open(u) && Received(u, PreparedGraph)
    case RecordTerminal(complete) =>
      && u.publication.TaskPublication? && Received(u, Armed) && Unbound(u.complete, complete)
      && (u.closed.Some? ==> u.closed.value.scope.None?)
    case CommitGraph(_, put) =>
      && Received(u, PreparedGraph)
      && (if u.publication.TaskPublication? then put.None? && Received(u, Terminal)
          else put.Some? && Attests(u.publication, put.value) && Unbound(u.prepared, put.value))
      && (Received(u, Committed) || Open(u))
    case RecordAdoption(proof) =>
      && Received(u, Committed) && u.complete == Some(proof.complete) && proof.owner == u.publication.owner
      && Unbound(u.adoption, proof)
      && (Received(u, Adopted) || !(u.fence.Some? && u.fence.value.OwnerAbort?))
    case FencePublication(p, fence) =>
      u.publication == p && Unbound(u.fence, fence) && (fence.OwnerAbort? ==> u.adoption.None?)
    case RetireGraph(closed) => u.fence.Some? && Discharges(u, closed) && Unbound(u.closed, closed)
    case GetPublication(_) => true
  }

  // Nothing is registered under the key yet: only a begin, a fence or a query.
  ghost predicate MayFirst(s: State, r: Request) {
    match r
    case BeginPublication(p) => Admissible(s, p, true)
    case FencePublication(p, _) => Admissible(s, p, false)
    case GetPublication(_) => true
    case _ => false
  }

  ghost predicate Acceptable(s: State, r: Request) {
    if r.Ref().key !in s.records then MayFirst(s, r)
    else s.records[r.Ref().key].publication.Ref() == r.Ref() && May(s, s.records[r.Ref().key], r)
  }

  // ------------------------------------------------------------------------
  // The specification reads the same

  lemma ReceivedIsHas(u: Snapshot)
    ensures forall st :: Received(u, st) <==> u.Has(st)
  {
    forall st ensures Received(u, st) <==> u.Has(st) {
      FindReceiptMember(u.receipts, st);
    }
  }

  lemma AttestsIff(p: Publication, prepared: Prepared)
    ensures CheckPrepared(p, prepared) == None <==> Attests(p, prepared)
    ensures CheckPrepared(p, prepared) in {None, Some(Conflict)}
  {
    PinnedIff(p, prepared.prepares);
    PinnedIff(p, prepared.promotes);
    hide PinnedTransfers, Pinned;
  }

  lemma PinnedIff(p: Publication, replies: seq<PinReply>)
    ensures PinnedTransfers(replies) == p.transfers <==> Pinned(p, replies)
  {
    if PinnedTransfers(replies) == p.transfers {
      forall i | 0 <= i < |replies| ensures replies[i].transfer == p.transfers[i] {
        assert PinnedTransfers(replies)[i] == replies[i].transfer;
      }
    }
  }

  lemma {:induction false} OwedIsRequired(ts: seq<Transfer>, prepares: set<nat>, promotes: set<nat>, known: bool,
                                          k: HoldKey)
    ensures k in RequiredHolds(ts, prepares, promotes, known) <==> Owed(ts, prepares, promotes, known, k)
  {
    if ts == [] {
    } else {
      var n := |ts| - 1;
      OwedIsRequired(ts[..n], prepares, promotes, known, k);
      OwedBefore(ts, prepares, promotes, known, k);
    }
  }

  // The last transfer adds its own holds and takes its provisional one off.
  lemma OwedBefore(ts: seq<Transfer>, prepares: set<nat>, promotes: set<nat>, known: bool, k: HoldKey)
    requires ts != []
    ensures var n := |ts| - 1;
      Owed(ts, prepares, promotes, known, k) <==>
        && (Owed(ts[..n], prepares, promotes, known, k) || Owes(ts, prepares, promotes, n, k))
        && (known ==> k != ts[n].ProvisionalKey())
  {
    var n, before := |ts| - 1, ts[..|ts| - 1];
    forall i: nat | i < n
      ensures Owes(before, prepares, promotes, i, k) <==> Owes(ts, prepares, promotes, i, k)
      ensures NotConsumed(ts, i, k) <==> NotConsumed(before, i, k) && k != ts[n].ProvisionalKey()
    {
      assert forall j :: 0 <= j < n ==> before[j] == ts[j];
    }
    if Owed(before, prepares, promotes, known, k) && (known ==> k != ts[n].ProvisionalKey()) {
      var i: nat :| i < n && Owes(before, prepares, promotes, i, k) && (known ==> NotConsumed(before, i, k));
      assert Owes(ts, prepares, promotes, i, k) && (known ==> NotConsumed(ts, i, k));
    }
    if Owes(ts, prepares, promotes, n, k) && (known ==> k != ts[n].ProvisionalKey()) {
      assert known ==> NotConsumed(ts, n, k);
    }
    if Owed(ts, prepares, promotes, known, k) {
      var i: nat :| i <= n && Owes(ts, prepares, promotes, i, k) && (known ==> NotConsumed(ts, i, k));
      if i < n {
        assert Owes(before, prepares, promotes, i, k) && (known ==> NotConsumed(before, i, k));
      }
    }
  }

  lemma PaysAllIff(u: Snapshot, closed: ClosedHolds)
    ensures var all := Below(|u.publication.transfers|);
      var prepares := if closed.scope.Some? then closed.scope.value.prepareIntents else all;
      var promotes := if closed.scope.Some? then closed.scope.value.promoteIntents else all;
      PaysAll(u, closed) <==>
        !exists k :: k in RequiredHolds(u.publication.transfers, prepares, promotes, u.prepared.Some?)
          && k !in closed.Released() && k.owner !in closed.Dead()
  {
    hide Owed, RequiredHolds, Below;
    var all := Below(|u.publication.transfers|);
    var prepares := if closed.scope.Some? then closed.scope.value.prepareIntents else all;
    var promotes := if closed.scope.Some? then closed.scope.value.promoteIntents else all;
    forall k
      ensures k in RequiredHolds(u.publication.transfers, prepares, promotes, u.prepared.Some?) <==>
                Owed(u.publication.transfers, prepares, promotes, u.prepared.Some?, k)
      ensures SettledBy(closed, k) <==> k in closed.Released() || k.owner in closed.Dead()
    {
      OwedIsRequired(u.publication.transfers, prepares, promotes, u.prepared.Some?, k);
    }
  }

  lemma WithinIff(u: Snapshot, closed: ClosedHolds)
    ensures Within(u, closed) <==>
      && closed.Released() <= AllHolds(u.publication.transfers)
      && closed.Dead() <= set t | t in u.publication.transfers :: t.childOwner
  {
    var ts, owners := u.publication.transfers, set t | t in u.publication.transfers :: t.childOwner;
    if closed.Released() <= AllHolds(ts) && closed.Dead() <= owners {
      forall r | r in closed.releases
        ensures exists t :: t in ts && (r.key == t.ProvisionalKey() || r.key == t.FinalKey())
      {
        assert r.key in closed.Released();
      }
      forall d | d in closed.deaths ensures exists t :: t in ts && t.childOwner == d.worker {
        assert d.worker in closed.Dead();
      }
    }
  }

  lemma ScopeIff(u: Snapshot, scope: RollbackScope)
    ensures CheckScope(u.publication, scope) == None <==> ScopeFits(u, scope)
    ensures CheckScope(u.publication, scope) in {None, Some(Conflict)}
    ensures ScopeFits(u, scope) ==>
      (ScopeWhole(u, scope) <==>
         var all := Below(|u.publication.transfers|);
         scope.prepareIntents == all && scope.promoteIntents == all && scope.materializationStarted)
  {
    hide Below;
    forall i
      ensures i in scope.prepareIntents + scope.promoteIntents <==>
                i in scope.prepareIntents || i in scope.promoteIntents
    {
    }
  }

  lemma DischargesIff(u: Snapshot, closed: ClosedHolds)
    ensures CheckClosed(u, closed) == None <==> Discharges(u, closed)
  {
    hide PaysAll, Within, ScopeFits, ScopeWhole, RequiredHolds, AllHolds, Below, CheckScope;
    PaysAllIff(u, closed);
    WithinIff(u, closed);
    if closed.scope.Some? { ScopeIff(u, closed.scope.value); }
  }

  lemma ReservedIsActive(s: State)
    ensures Reserved(s) == ActiveEdges(s)
  {
    forall k | k in s.records { ReceivedIsHas(s.records[k]); }
    hide Received;
  }

  lemma CompatibleIff(o: Snapshot, p: Publication, starting: bool)
    ensures PairError(o, p, starting).None? <==> Compatible(o, p, starting)
  {
    ReceivedIsHas(o);
    hide Received;
  }

  lemma NamedIff(s: State, p: Publication, x: ObjectID, w: WorkerID)
    ensures (x, w) in AllNames(s.records) + NamesIn(p) <==> NamedWith(s, p, x, w)
  {
    NamesIff(p, x, w);
    forall k | k in s.records
      ensures (x, w) in NamesIn(s.records[k].publication) <==> Names(s.records[k].publication, x, w)
    {
      NamesIff(s.records[k].publication, x, w);
    }
    hide NamesIn, Names;
  }

  lemma NamesIff(p: Publication, x: ObjectID, w: WorkerID)
    ensures (x, w) in NamesIn(p) <==> Names(p, x, w)
  {
  }

  lemma OneOwnerIff(s: State, p: Publication)
    ensures OneOwnerEach(AllNames(s.records) + NamesIn(p)) <==>
              forall x, v, w :: NamedWith(s, p, x, v) && NamedWith(s, p, x, w) ==> v == w
  {
    hide AllNames, NamesIn, NamedWith;
    var names := AllNames(s.records) + NamesIn(p);
    forall x, w ensures (x, w) in names <==> NamedWith(s, p, x, w) {
      NamedIff(s, p, x, w);
    }
    if OneOwnerEach(names) {
      forall x, v, w | NamedWith(s, p, x, v) && NamedWith(s, p, x, w) ensures v == w {
        assert (x, v) in names && (x, w) in names;
      }
    }
    if forall x, v, w :: NamedWith(s, p, x, v) && NamedWith(s, p, x, w) ==> v == w {
      forall a, b | a in names && b in names && a.0 == b.0 ensures a.1 == b.1 {
        assert (a.0, a.1) in names && (b.0, b.1) in names;
        assert NamedWith(s, p, a.0, a.1) && NamedWith(s, p, b.0, b.1);
      }
    }
  }

  lemma AdmissibleIff(s: State, p: Publication, starting: bool)
    requires forall k :: k in s.order <==> k in s.records
    ensures CheckBinding(s, p, starting) == None <==> Admissible(s, p, starting)
  {
    hide Compatible, OneOwnerEach, AllNames, NamesIn, NamedWith, FirstPairError, PairError;
    NoPairError(s.records, s.order, p, starting);
    forall k | k in s.records
      ensures PairError(s.records[k], p, starting).None? <==> Compatible(s.records[k], p, starting)
    {
      CompatibleIff(s.records[k], p, starting);
    }
    OneOwnerIff(s, p);
  }

  // ------------------------------------------------------------------------
  // Acceptance

  lemma ForwardIsMay(s: State, u: Snapshot, r: Request)
    requires (r.BeginPublication? && r.publication == u.publication) || r.ArmTask? || r.RecordTerminal?
    ensures Guard(s, u, r) == None <==> May(s, u, r)
  {
    hide CheckPrepared, Attests, Discharges, Reserved, CheckClosed, Received;
    ReceivedIsHas(u);
    if r.ArmTask? { AttestsIff(u.publication, r.prepared); }
    assert Received(u, Retired) == u.Has(Retired) && Received(u, PreparedGraph) == u.Has(PreparedGraph);
    assert Received(u, Armed) == u.Has(Armed);
  }

  lemma CommitIsMay(s: State, u: Snapshot, r: Request)
    requires r.CommitGraph?
    ensures Guard(s, u, r) == None <==> May(s, u, r)
  {
    hide CheckPrepared, Attests, Discharges, Reserved, CheckClosed, Received;
    ReceivedIsHas(u);
    if r.putPrepared.Some? { AttestsIff(u.publication, r.putPrepared.value); }
    assert Received(u, Retired) == u.Has(Retired) && Received(u, PreparedGraph) == u.Has(PreparedGraph);
    assert Received(u, Terminal) == u.Has(Terminal) && Received(u, Committed) == u.Has(Committed);
  }

  lemma ClosingIsMay(s: State, u: Snapshot, r: Request)
    requires r.RecordAdoption? || (r.FencePublication? && r.publication == u.publication)
    ensures Guard(s, u, r) == None <==> May(s, u, r)
  {
    hide CheckPrepared, Attests, Discharges, Reserved, CheckClosed, Received;
    ReceivedIsHas(u);
    assert Received(u, Committed) == u.Has(Committed) && Received(u, Adopted) == u.Has(Adopted);
  }

  lemma PrepareIsMay(s: State, u: Snapshot, r: Request)
    requires r.PrepareGraph?
    ensures Guard(s, u, r) == None <==> May(s, u, r)
  {
    hide Reserved, ActiveEdges, EdgesFrom, Acyclic;
    ReceivedIsHas(u);
    ReservedIsActive(s);
    hide Received;
  }

  lemma RetireIsMay(s: State, u: Snapshot, r: Request)
    requires r.RetireGraph?
    ensures Guard(s, u, r) == None <==> May(s, u, r)
  {
    hide CheckClosed, Discharges;
    DischargesIff(u, r.closed);
  }

  lemma GuardIff(s: State, u: Snapshot, r: Request)
    requires !r.GetPublication?
    requires r.BeginPublication? || r.FencePublication? ==> r.publication == u.publication
    ensures Guard(s, u, r) == None <==> May(s, u, r)
  {
    hide Guard, May;
    match r
    case PrepareGraph(_) => PrepareIsMay(s, u, r);
    case CommitGraph(_, _) => CommitIsMay(s, u, r);
    case RecordAdoption(_) => ClosingIsMay(s, u, r);
    case FencePublication(_, _) => ClosingIsMay(s, u, r);
    case RetireGraph(_) => RetireIsMay(s, u, r);
    case _ => ForwardIsMay(s, u, r);
  }

  // A publication just registered may begin or be fenced.
  lemma FirstIsOpen(s: State, r: Request)
    requires (r.BeginPublication? || r.FencePublication?) && r.Valid()
    ensures May(s, Unregistered(r.publication), r)
  {
    var u := Unregistered(r.publication);
    assert forall st :: !Received(u, st);
  }

  lemma KnownAccepted(s: State, r: Request)
    requires r.Valid() && r.Ref().key in s.records
    ensures Apply(s, r).1.accepted <==> Acceptable(s, r)
  {
    hide Guard, May, Recorded;
    var u := s.records[r.Ref().key];
    if r.GetPublication? {
      GetIsMay(s, u, r);
    } else if (r.BeginPublication? || r.FencePublication?) && u.publication != r.publication {
      MayKeepsManifest(s, u, r);
    } else if u.publication.Ref() == r.Ref() {
      GuardIff(s, u, r);
    }
  }

  lemma GetIsMay(s: State, u: Snapshot, r: Request)
    requires r.GetPublication?
    ensures May(s, u, r)
  {
  }

  lemma MayKeepsManifest(s: State, u: Snapshot, r: Request)
    requires r.BeginPublication? || r.FencePublication?
    ensures May(s, u, r) ==> u.publication == r.publication
  {
  }

  lemma UnknownAccepted(s: State, r: Request)
    requires r.Valid() && r.Ref().key !in s.records && forall k :: k in s.order <==> k in s.records
    ensures Apply(s, r).1.accepted <==> Acceptable(s, r)
  {
    hide Guard, May, Recorded, CheckBinding, Admissible;
    if r.BeginPublication? || r.FencePublication? {
      AdmissibleIff(s, r.publication, r.BeginPublication?);
      FirstIsOpen(s, r);
      GuardIff(s, Unregistered(r.publication), r);
    }
  }

  /** Main result: every well-formed request is accepted exactly when the
      receipts and facts of its record, or the other records where it registers a
      new one, allow it. */
  lemma AcceptedIff(s: State, r: Request)
    requires Inv(s) && r.Valid()
    ensures Apply(s, r).1.accepted <==> Acceptable(s, r)
  {
    hide Apply, Acceptable;
    InvMeans(s);
    if r.Ref().key in s.records { KnownAccepted(s, r); } else { UnknownAccepted(s, r); }
  }

  // ------------------------------------------------------------------------
  // Effect and answer

  // The receipt each mutation earns.
  function Stamp(r: Request): Stage
    requires !r.GetPublication?
  {
    match r
    case BeginPublication(_) => Intent
    case PrepareGraph(_) => PreparedGraph
    case ArmTask(_) => Armed
    case RecordTerminal(_) => Terminal
    case CommitGraph(_, _) => Committed
    case RecordAdoption(_) => Adopted
    case FencePublication(_, _) => Fenced
    case RetireGraph(_) => Retired
  }

  // The record a mutation starts from.
  ghost function Former(s: State, r: Request): Snapshot
    requires r.Ref().key in s.records || r.BeginPublication? || r.FencePublication?
  {
    if r.Ref().key in s.records then s.records[r.Ref().key]
    else Snapshot(r.publication, [], None, None, None, None, None)
  }

  // The new record: one more receipt, the request's own fact, everything else as it was.
  ghost predicate Grows(u: Snapshot, v: Snapshot, r: Request, n: nat)
    requires !r.GetPublication?
  {
    && v.publication == u.publication && v.receipts == u.receipts + [Receipt(r.Ref(), Stamp(r), n)]
    && v.fence == (if r.FencePublication? then Some(r.fence) else u.fence)
    && v.prepared == (if r.ArmTask? then Some(r.prepared)
                      else if r.CommitGraph? && u.publication.PutPublication? then r.putPrepared else u.prepared)
    && v.complete == (if r.RecordTerminal? then Some(r.complete) else u.complete)
    && v.adoption == (if r.RecordAdoption? then Some(r.proof) else u.adoption)
    && v.closed == (if r.RetireGraph? then Some(r.closed) else u.closed)
  }

  // One record grew by the next receipt, and the reply shows it.
  ghost predicate Files(s: State, r: Request, t: State, reply: Reply)
    requires !r.GetPublication?
  {
    var key := r.Ref().key;
    && (key in s.records || r.BeginPublication? || r.FencePublication?)
    && key in t.records && t.records == s.records[key := t.records[key]]
    && t.order == (if key in s.records then s.order else s.order + [key]) && t.sequence == s.sequence + 1
    && Grows(Former(s, r), t.records[key], r, t.sequence)
    && reply == Reply(true, Some(t.records[key]), Some(Receipt(r.Ref(), Stamp(r), t.sequence)), None)
  }

  // Already done: nothing changes, and the original receipt is the answer.
  ghost predicate Repeats(s: State, r: Request, t: State, reply: Reply)
    requires !r.GetPublication?
  {
    && r.Ref().key in s.records && t == s
    && reply.accepted && reply.error.None? && reply.snapshot == Some(s.records[r.Ref().key])
    && reply.receipt.Some? && reply.receipt.value.stage == Stamp(r)
    && reply.receipt.value in s.records[r.Ref().key].receipts
  }

  ghost predicate Done(s: State, r: Request)
    requires !r.GetPublication?
  {
    r.Ref().key in s.records && Received(s.records[r.Ref().key], Stamp(r))
  }

  /** What an accepted mutation does: the first time it files exactly the next
      receipt and its own fact, and ever after it repeats its original answer. */
  lemma AcceptedEffect(s: State, r: Request)
    requires Inv(s) && r.Valid() && !r.GetPublication? && Acceptable(s, r)
    ensures if Done(s, r) then Repeats(s, r, Apply(s, r).0, Apply(s, r).1)
            else Files(s, r, Apply(s, r).0, Apply(s, r).1)
  {
    hide Apply, Acceptable, Inv, Files, Repeats, Former, Received, Recorded;
    AcceptedIff(s, r);
    var base := AppliedTo(s, r);
    ReceivedIsHas(base);
    FormerIs(s, r);
    if base.Has(Stamp(r)) { RepeatedAnswer(s, r, base); } else { NewAnswer(s, r, base); }
  }

  lemma FormerIs(s: State, r: Request)
    requires !r.GetPublication? && (r.Ref().key in s.records || r.BeginPublication? || r.FencePublication?)
    ensures Done(s, r) <==> Received(Former(s, r), Stamp(r))
  {
  }

  lemma RepeatedAnswer(s: State, r: Request, base: Snapshot)
    requires !r.GetPublication? && r.Ref().key in s.records && base == Former(s, r) && base.Has(Stamp(r))
    ensures Repeats(s, r, s, Reply(true, Some(base), base.At(Stamp(r)), None))
  {
    FindReceiptMember(base.receipts, Stamp(r));
  }

  lemma NewAnswer(s: State, r: Request, base: Snapshot)
    requires !r.GetPublication? && (r.Ref().key in s.records || r.BeginPublication? || r.FencePublication?)
    requires base == Former(s, r) && !base.Has(Stamp(r)) && r.StageOf() == Stamp(r)
    ensures var v := Recorded(s, base, r);
      Files(s, r, Commit(s, r.Ref().key, v), Reply(true, Some(v), v.At(Stamp(r)), None))
  {
    hide Recorded, Former, Grows;
    RecordedAt(s, base, r, Stamp(r));
    RecordedGrows(s, base, r);
  }

  // The specification starts from the same record and looks for the same stage.
  lemma AppliedTo(s: State, r: Request) returns (base: Snapshot)
    requires Apply(s, r).1.accepted && !r.GetPublication?
    ensures r.Ref().key in s.records || r.BeginPublication? || r.FencePublication?
    ensures base == Former(s, r) && r.StageOf() == Stamp(r)
    ensures base.Has(Stamp(r)) ==>
      r.Ref().key in s.records && Apply(s, r) == (s, Reply(true, Some(base), base.At(Stamp(r)), None))
    ensures !base.Has(Stamp(r)) ==>
      var v := Recorded(s, base, r);
      Apply(s, r) == (Commit(s, r.Ref().key, v), Reply(true, Some(v), v.At(Stamp(r)), None))
  {
    hide Recorded, Guard, CheckBinding;
    base := Former(s, r);
  }

  lemma RecordedGrows(s: State, base: Snapshot, r: Request)
    requires !r.GetPublication?
    ensures Grows(base, Recorded(s, base, r), r, s.sequence + 1)
  {
  }

  /** A query answers with the record, and a refusal changes nothing. */
  lemma OtherEffects(s: State, r: Request)
    requires Inv(s) && r.Valid() && (r.GetPublication? || !Acceptable(s, r))
    ensures var key := r.Ref().key;
      var shown :=
        if key in s.records && s.records[key].publication.Ref() == r.Ref() then Some(s.records[key]) else None;
      && Apply(s, r).0 == s && Apply(s, r).1.snapshot == shown && Apply(s, r).1.receipt.None?
      && (r.GetPublication? ==> Apply(s, r).1.accepted == (shown.Some? || key !in s.records))
      && (!r.GetPublication? ==> !Apply(s, r).1.accepted && Apply(s, r).1.error.Some?)
  {
    hide Acceptable, Inv, SnapshotOk, Recorded, Guard, CheckBinding;
    AcceptedIff(s, r);
  }

  // ------------------------------------------------------------------------
  // Kinds of refusal

  // Refused for its timing: something must come first, or came already.
  ghost predicate Untimely(s: State, u: Snapshot, r: Request) {
    match r
    case BeginPublication(p) => u.publication == p
    case PrepareGraph(_) => !Received(u, Intent) || !Open(u)
    case ArmTask(prepared) => Attests(u.publication, prepared) && Unbound(u.prepared, prepared)
    case RecordTerminal(_) => !u.publication.TaskPublication? || !Received(u, Armed)
    case CommitGraph(_, put) =>
      if u.publication.TaskPublication? then put.None?
      else put.None? || (Attests(u.publication, put.value) && Unbound(u.prepared, put.value))
    case RecordAdoption(proof) =>
      || !Received(u, Committed)
      || (u.complete == Some(proof.complete) && proof.owner == u.publication.owner && Unbound(u.adoption, proof))
    case FencePublication(p, fence) => u.publication == p && Unbound(u.fence, fence)
    case RetireGraph(closed) => u.fence.None? || Unpaid(u, closed)
    case GetPublication(_) => false
  }

  // The evidence is of this record, but too early or not enough.
  ghost predicate Unpaid(u: Snapshot, closed: ClosedHolds) {
    && closed.reference == u.publication.Ref()
    && (closed.scope.Some? ==> ScopeFits(u, closed.scope.value))
    && ((closed.scope.Some? && (u.complete.Some? || u.adoption.Some?)) ||
        ((closed.scope.Some? && u.prepared.Some? ==> ScopeWhole(u, closed.scope.value))
         && Within(u, closed) && !PaysAll(u, closed)))
  }

  lemma ClosedKind(u: Snapshot, closed: ClosedHolds)
    requires !Discharges(u, closed)
    ensures CheckClosed(u, closed) == Some(if Unpaid(u, closed) then InvalidState else Conflict)
  {
    hide PaysAll, Within, ScopeFits, ScopeWhole, RequiredHolds, AllHolds, Below, CheckScope;
    PaysAllIff(u, closed);
    WithinIff(u, closed);
    if closed.scope.Some? { ScopeIff(u, closed.scope.value); }
  }

  lemma PrepareKind(s: State, u: Snapshot, r: Request)
    requires r.PrepareGraph? && !May(s, u, r)
    ensures Guard(s, u, r) == Some(if Untimely(s, u, r) then InvalidState else CycleError)
  {
    hide Reserved, ActiveEdges, EdgesFrom, Acyclic, Received;
    ReceivedIsHas(u);
    ReservedIsActive(s);
    assert Received(u, Retired) == u.Has(Retired) && Received(u, PreparedGraph) == u.Has(PreparedGraph);
    assert Received(u, Intent) == u.Has(Intent);
  }

  lemma RetireKind(s: State, u: Snapshot, r: Request)
    requires r.RetireGraph? && !May(s, u, r)
    ensures Guard(s, u, r) == Some(if Untimely(s, u, r) then InvalidState else Conflict)
  {
    hide CheckClosed, Discharges, Unpaid;
    DischargesIff(u, r.closed);
    if Discharges(u, r.closed) { PaidIsPaid(u, r.closed); } else { ClosedKind(u, r.closed); }
  }

  lemma PaidIsPaid(u: Snapshot, closed: ClosedHolds)
    requires Discharges(u, closed)
    ensures !Unpaid(u, closed)
  {
  }

  lemma OtherKind(s: State, u: Snapshot, r: Request)
    requires !r.GetPublication? && !r.PrepareGraph? && !r.RetireGraph? && !May(s, u, r)
    requires r.BeginPublication? || r.FencePublication? ==> r.publication == u.publication
    ensures Guard(s, u, r) == Some(if Untimely(s, u, r) then InvalidState else Conflict)
  {
    hide CheckPrepared, Attests, Received;
    ReceivedIsHas(u);
    if r.ArmTask? { AttestsIff(u.publication, r.prepared); }
    if r.CommitGraph? && r.putPrepared.Some? { AttestsIff(u.publication, r.putPrepared.value); }
    assert Received(u, Retired) == u.Has(Retired) && Received(u, PreparedGraph) == u.Has(PreparedGraph);
    assert Received(u, Terminal) == u.Has(Terminal) && Received(u, Committed) == u.Has(Committed);
    assert Received(u, Armed) == u.Has(Armed) && Received(u, Adopted) == u.Has(Adopted);
  }

  /** Why a registered publication is refused: a cycle, a step out of its time,
      or a contradiction to what is recorded. */
  lemma RefusalKind(s: State, r: Request)
    requires Inv(s) && r.Valid() && !Acceptable(s, r) && r.Ref().key in s.records
    ensures var u := s.records[r.Ref().key];
      Apply(s, r).1.error == Some(if u.publication.Ref() != r.Ref() then Conflict
                                  else if Untimely(s, u, r) then InvalidState
                                  else if r.PrepareGraph? then CycleError else Conflict)
  {
    hide Guard, May, Recorded, Untimely, Inv;
    AcceptedIff(s, r);
    var u := s.records[r.Ref().key];
    if u.publication.Ref() == r.Ref() {
      RefusedStep(s, u, r);
    }
  }

  lemma RefusedStep(s: State, u: Snapshot, r: Request)
    requires !May(s, u, r)
    ensures !r.GetPublication?
    ensures (r.BeginPublication? || r.FencePublication?) && r.publication != u.publication ==> !Untimely(s, u, r)
    ensures (r.BeginPublication? || r.FencePublication? ==> r.publication == u.publication) ==>
      Guard(s, u, r) ==
        Some(if Untimely(s, u, r) then InvalidState else if r.PrepareGraph? then CycleError else Conflict)
  {
    if r.GetPublication? { GetIsMay(s, u, r); }
    if r.BeginPublication? || r.FencePublication? ==> r.publication == u.publication {
      hide Guard, May;
      if r.PrepareGraph? {
        PrepareKind(s, u, r);
      } else if r.RetireGraph? {
        RetireKind(s, u, r);
      } else {
        OtherKind(s, u, r);
      }
    }
  }

  /** An unregistered publication is refused for want of a registration, or
      because an older record stands in its way. */
  lemma UnknownKind(s: State, r: Request)
    requires Inv(s) && r.Valid() && !Acceptable(s, r) && r.Ref().key !in s.records
    requires !(r.BeginPublication? || r.FencePublication?)
    ensures Apply(s, r).1.error == Some(InvalidState)
  {
    hide Inv;
  }

  // ------------------------------------------------------------------------
  // Every acyclic publication reaches its end

  lemma {:induction false} RunLonger(s: State, requests: seq<Request>, r: Request)
    ensures Run(s, requests + [r]) == Apply(Run(s, requests), r).0
    decreases |requests|
  {
    hide Apply;
    if requests == [] {
      assert Run(s, [r]) == Run(Apply(s, r).0, []);
    } else {
      RunLonger(Apply(s, requests[0]).0, requests[1..], r);
      assert (requests + [r])[1..] == requests[1..] + [r];
    }
  }

  // The publication went exactly this far, was not stopped, and left others alone.
  ghost predicate Reached(s: State, t: State, p: Publication, done: set<Stage>) {
    && p.Key() in t.records && t.records == s.records[p.Key() := t.records[p.Key()]]
    && var u := t.records[p.Key()];
    && u.publication == p && (forall st :: Received(u, st) <==> st in done)
    && u.fence.None? && u.closed.None?
    && (u.prepared.Some? ==> Armed in done || (p.PutPublication? && Committed in done))
    && (u.complete.Some? <==> Terminal in done) && (u.complete.Some? ==> u.complete == Some(Complete(p.Ref())))
    && (u.adoption.Some? ==> Adopted in done)
  }

  // A run from s of well-formed requests that took the publication this far.
  ghost predicate Driven(s: State, requests: seq<Request>, p: Publication, done: set<Stage>) {
    && (forall r :: r in requests ==> r.Valid()) && Inv(Run(s, requests)) && Reached(s, Run(s, requests), p, done)
  }

  lemma GrowsReceived(u: Snapshot, v: Snapshot, r: Request, n: nat)
    requires !r.GetPublication? && Grows(u, v, r, n)
    ensures forall st :: Received(v, st) <==> Received(u, st) || st == Stamp(r)
  {
    forall st ensures Received(v, st) <==> Received(u, st) || st == Stamp(r) {
      assert v.receipts[|u.receipts|] == Receipt(r.Ref(), Stamp(r), n);
      if Received(u, st) {
        var rc :| rc in u.receipts && rc.stage == st;
        assert rc in v.receipts;
      }
    }
  }

  lemma ReachedFurther(s: State, t: State, p: Publication, done: set<Stage>, r: Request)
    requires Reached(s, t, p, done) && Inv(t) && r.Valid() && r.Ref() == p.Ref() && Acceptable(t, r)
    requires !r.GetPublication? && !r.BeginPublication? && !r.FencePublication? && !r.RetireGraph? && Stamp(r) !in done
    requires r.RecordTerminal? ==> r.complete == Complete(p.Ref())
    ensures Inv(Apply(t, r).0) && Reached(s, Apply(t, r).0, p, done + {Stamp(r)})
  {
    hide Acceptable, Inv, Apply, Received;
    AcceptedEffect(t, r);
    ApplyKeepsInv(t, r);
    GrowsReceived(t.records[p.Key()], Apply(t, r).0.records[p.Key()], r, Apply(t, r).0.sequence);
  }

  lemma DrivenFurther(s: State, requests: seq<Request>, p: Publication, done: set<Stage>, r: Request)
    requires Driven(s, requests, p, done) && r.Valid() && r.Ref() == p.Ref() && Acceptable(Run(s, requests), r)
    requires !r.GetPublication? && !r.BeginPublication? && !r.FencePublication? && !r.RetireGraph? && Stamp(r) !in done
    requires r.RecordTerminal? ==> r.complete == Complete(p.Ref())
    ensures Driven(s, requests + [r], p, done + {Stamp(r)})
  {
    hide Acceptable, Inv, Apply, Reached;
    ReachedFurther(s, Run(s, requests), p, done, r);
    RunLonger(s, requests, r);
  }

  // What lets a publication in.
  ghost predicate Welcome(s: State, p: Publication) {
    && Inv(s) && p.Valid() && p.Key() !in s.records && Admissible(s, p, true)
    && Acyclic(Reserved(s) + EdgesFrom(p))
  }

  lemma DrivenBegin(s: State, p: Publication)
    requires Welcome(s, p)
    ensures Driven(s, [BeginPublication(p)], p, {Intent}) && Reserved(Run(s, [BeginPublication(p)])) == Reserved(s)
  {
    hide Admissible, Inv, Apply, Received, Acyclic;
    var r := BeginPublication(p);
    AcceptedEffect(s, r);
    ApplyKeepsInv(s, r);
    assert Run(s, [r]) == Run(Apply(s, r).0, []);
    var blank := Former(s, r);
    NothingReceived(blank);
    GrowsReceived(blank, Apply(s, r).0.records[p.Key()], r, s.sequence + 1);
    SameReserved(s, Apply(s, r).0, p.Key());
  }

  lemma NothingReceived(u: Snapshot)
    requires u.receipts == []
    ensures forall st :: !Received(u, st)
  {
  }

  // A record without a reservation adds no edges.
  lemma SameReserved(s: State, t: State, key: PublicationKey)
    requires key !in s.records && key in t.records && t.records == s.records[key := t.records[key]]
    requires !Received(t.records[key], PreparedGraph)
    ensures Reserved(t) == Reserved(s)
  {
    hide Received;
    assert forall k :: k in s.records ==> k in t.records && t.records[k] == s.records[k];
    assert forall k :: k in t.records ==> k == key || k in s.records;
    forall e ensures e in Reserved(t) <==> e in Reserved(s) {
      if e in Reserved(s) {
        var k, o :| k in s.records && Received(s.records[k], PreparedGraph) && !Received(s.records[k], Retired)
          && o in s.records[k].publication.transfers && e == (s.records[k].publication.Object(), o.child);
        assert k in t.records && Received(t.records[k], PreparedGraph);
      }
    }
  }

  lemma DrivenReserved(s: State, p: Publication) returns (requests: seq<Request>)
    requires Welcome(s, p)
    ensures Driven(s, requests, p, {Intent, PreparedGraph})
  {
    hide Admissible, Inv, Apply, Received, Acyclic, Reserved;
    DrivenBegin(s, p);
    DrivenFurther(s, [BeginPublication(p)], p, {Intent}, PrepareGraph(p.Ref()));
    requests := [BeginPublication(p)] + [PrepareGraph(p.Ref())];
    assert {Intent} + {PreparedGraph} == {Intent, PreparedGraph};
  }

  // The preparation that every pin and the payload went through.
  function Replies(p: Publication, promote: bool): seq<PinReply> {
    seq(|p.transfers|, i requires 0 <= i < |p.transfers| => PinReply(p.transfers[i], promote, false))
  }

  function Whole(p: Publication, node: NodeIncarnation): Prepared {
    if p.TaskPublication? then TaskPrepared(p.Ref(), Replies(p, false), Replies(p, true), p.node)
    else if p.payload.tier == Inline then PutPrepared(p.Ref(), Replies(p, false), Replies(p, true), None, None)
    else
      PutPrepared(p.Ref(), Replies(p, false), Replies(p, true), Some(node),
                  Some(SealReply(p.putObject, node.node, p.payload.size, p.payload.checksum)))
  }

  lemma WholeAttests(p: Publication, node: NodeIncarnation)
    requires p.Valid()
    ensures Whole(p, node).Valid() && Attests(p, Whole(p, node))
    ensures Whole(p, node).TaskPrepared? <==> p.TaskPublication?
  {
    forall i, j | 0 <= i < j < |p.transfers| ensures p.transfers[i] != p.transfers[j] {
      assert p.transfers[i].FinalKey() != p.transfers[j].FinalKey();
    }
  }

  const TO_COMMIT := {Intent, PreparedGraph, Armed, Terminal, Committed}

  lemma DrivenToTerminal(s: State, p: Publication) returns (requests: seq<Request>)
    requires Welcome(s, p) && p.TaskPublication?
    ensures Driven(s, requests, p, {Intent, PreparedGraph, Armed, Terminal})
  {
    hide Welcome, Inv, Apply, Received, Run, Attests;
    requests := DrivenReserved(s, p);
    assert p.Valid() by { WelcomeIsValid(s, p); }
    WholeAttests(p, p.node);
    DrivenFurther(s, requests, p, {Intent, PreparedGraph}, ArmTask(Whole(p, p.node)));
    requests := requests + [ArmTask(Whole(p, p.node))];
    assert {Intent, PreparedGraph} + {Armed} == {Intent, PreparedGraph, Armed};
    DrivenFurther(s, requests, p, {Intent, PreparedGraph, Armed}, RecordTerminal(Complete(p.Ref())));
    requests := requests + [RecordTerminal(Complete(p.Ref()))];
    assert {Intent, PreparedGraph, Armed} + {Terminal} == {Intent, PreparedGraph, Armed, Terminal};
  }

  lemma WelcomeIsValid(s: State, p: Publication)
    requires Welcome(s, p)
    ensures p.Valid()
  {
  }

  /** Main result: every admissible Task publication whose edges close no cycle has
      a run that reserves, arms, commits and adopts it under the given commit. */
  lemma TaskIsAdopted(s: State, p: Publication, commitId: string) returns (requests: seq<Request>)
    requires Welcome(s, p) && p.TaskPublication?
    ensures Driven(s, requests, p, TO_COMMIT + {Adopted})
    ensures Run(s, requests).records[p.Key()].adoption == Some(Adoption(Complete(p.Ref()), p.owner, commitId))
  {
    hide Welcome, Inv, Apply, Received, Run, Attests;
    requests := DrivenToTerminal(s, p);
    DrivenFurther(s, requests, p, {Intent, PreparedGraph, Armed, Terminal}, CommitGraph(p.Ref(), None));
    requests := requests + [CommitGraph(p.Ref(), None)];
    assert {Intent, PreparedGraph, Armed, Terminal} + {Committed} == TO_COMMIT;
    var adopt := RecordAdoption(Adoption(Complete(p.Ref()), p.owner, commitId));
    DrivenFurther(s, requests, p, TO_COMMIT, adopt);
    AcceptedEffect(Run(s, requests), adopt);
    RunLonger(s, requests, adopt);
    requests := requests + [adopt];
  }

  /** The same for puts, which commit with their preparation. */
  lemma PutIsCommitted(s: State, p: Publication, node: NodeIncarnation) returns (requests: seq<Request>)
    requires Welcome(s, p) && p.PutPublication?
    ensures Driven(s, requests, p, {Intent, PreparedGraph, Committed})
    ensures Run(s, requests).records[p.Key()].prepared == Some(Whole(p, node))
  {
    hide Welcome, Inv, Apply, Received, Run, Attests;
    requests := DrivenReserved(s, p);
    WelcomeIsValid(s, p);
    WholeAttests(p, node);
    var commit := CommitGraph(p.Ref(), Some(Whole(p, node)));
    DrivenFurther(s, requests, p, {Intent, PreparedGraph}, commit);
    AcceptedEffect(Run(s, requests), commit);
    RunLonger(s, requests, commit);
    requests := requests + [commit];
    assert {Intent, PreparedGraph} + {Committed} == {Intent, PreparedGraph, Committed};
  }

  /** A fresh authority welcomes every valid publication without a cycle. */
  lemma FreshIsWelcoming(p: Publication)
    requires p.Valid() && Acyclic(EdgesFrom(p))
    ensures Welcome(EMPTY, p)
  {
    EmptyIsInv();
    assert Reserved(EMPTY) + EdgesFrom(p) == EdgesFrom(p);
    forall x, v, w | NamedWith(EMPTY, p, x, v) && NamedWith(EMPTY, p, x, w) ensures v == w {
      NamedOnce(p, x, v, w);
    }
  }

  lemma SameChildSameOwner(p: Publication)
    requires p.Valid()
    ensures forall a, b :: a in p.transfers && b in p.transfers && a.child == b.child ==> a.childOwner == b.childOwner
  {
    forall a, b | a in p.transfers && b in p.transfers && a.child == b.child ensures a.childOwner == b.childOwner {
      var i, j :| 0 <= i < |p.transfers| && 0 <= j < |p.transfers| && p.transfers[i] == a && p.transfers[j] == b;
      if i < j {
      } else if j < i {
      }
    }
  }

  lemma NamedOnce(p: Publication, x: ObjectID, v: WorkerID, w: WorkerID)
    requires p.Valid() && Acyclic(EdgesFrom(p)) && Names(p, x, v) && Names(p, x, w)
    ensures v == w
  {
    forall t | t in p.transfers ensures t.child != p.Object() {
      if t.child == p.Object() {
        assert (p.Object(), t.child) in EdgesFrom(p);
        assert IsCycle(EdgesFrom(p), [p.Object(), p.Object()]);
      }
    }
    SameChildSameOwner(p);
  }
}
