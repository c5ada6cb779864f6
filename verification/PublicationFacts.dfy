/** The immutable values of the publication protocol and the checks their
    constructors run. Digests, checksums and source capabilities are compared
    for equality only; nothing here assumes that equal digests come from equal
    manifests. */
module PublicationFacts {
  import opened Ids

  // ------------------------------------------------------------------------
  // Manifests

  datatype Tier = Inline | ObjectStore
  datatype Payload = Payload(tier: Tier, size: nat, checksum: nat)
  datatype NodeIncarnation = NodeIncarnation(node: NodeID, pid: nat, epoch: nat)

  datatype Hold = Hold(container: ObjectID, holder: WorkerID, token: string)
  datatype Source = OwnedSource(worker: WorkerID) | BorrowedSource(worker: WorkerID, token: string, origin: nat)

  // The key under which a child owner files one hold.
  datatype HoldKey = HoldKey(child: ObjectID, owner: WorkerID, hold: Hold)

  datatype Transfer = Transfer(child: ObjectID, childOwner: WorkerID, childAddress: Address, source: Source,
                               provisional: Hold, final: Hold)
  {
    function ProvisionalKey(): HoldKey { HoldKey(child, childOwner, provisional) }
    function FinalKey(): HoldKey { HoldKey(child, childOwner, final) }

    predicate Valid() {
      && (source.OwnedSource? ==> source.worker == childOwner)
      && provisional.container == final.container
      && final.token != ""
      && provisional.token == if provisional.holder == final.holder then "provisional:" + final.token else final.token
    }
  }

  datatype Digest = Digest(value: nat)

  datatype PublicationKey =
    | TaskKey(lease: LeaseID, attempt: AttemptID)
    | PutKey(job: JobID, owner: WorkerID, object: ObjectID)

  datatype PublicationRef = PublicationRef(key: PublicationKey, digest: Digest)

  datatype Publication =
    | TaskPublication(lease: LeaseID, attempt: AttemptID, job: JobID, executor: WorkerID, owner: WorkerID,
                      node: NodeIncarnation, payload: Payload, transfers: seq<Transfer>, digest: Digest,
                      ownerAddress: Address)
    | PutPublication(putObject: ObjectID, job: JobID, owner: WorkerID, payload: Payload, transfers: seq<Transfer>,
                     digest: Digest, ownerAddress: Address)
  {
    function Object(): ObjectID {
      if TaskPublication? then ObjectID(attempt.task, 0) else putObject
    }

    function Key(): PublicationKey {
      if TaskPublication? then TaskKey(lease, attempt) else PutKey(job, owner, putObject)
    }

    function Ref(): PublicationRef { PublicationRef(Key(), digest) }

    // A put has no execution of its own and counts as attempt zero.
    function AttemptNumber(): nat { if TaskPublication? then attempt.number else 0 }

    // The worker that serialized the value and holds each child provisionally.
    function Serializer(): WorkerID { if TaskPublication? then executor else owner }

    predicate Valid() {
      && (forall t :: t in transfers ==>
           && t.Valid() && t.final.container == Object()
           && t.provisional.holder == Serializer() && t.final.holder == owner
           && t.source.worker == Serializer())
      && (forall i, j :: 0 <= i < j < |transfers| ==> transfers[i].FinalKey() != transfers[j].FinalKey())
      && forall i, j :: 0 <= i < j < |transfers| && transfers[i].child == transfers[j].child
           ==> transfers[i].childOwner == transfers[j].childOwner
    }
  }

  // ------------------------------------------------------------------------
  // Receipts and facts

  datatype DeathReason = ProcessExit | NodeExit | ExpectedExit
  datatype Death = Death(detection: string, worker: WorkerID, home: NodeIncarnation, epoch: nat, reason: DeathReason)
  {
    predicate Unexpected() { reason != ExpectedExit }
  }

  // An accepted child reply; `replayed` is the ALREADY_* disposition.
  datatype PinReply = PinReply(transfer: Transfer, promote: bool, replayed: bool)
  datatype SealReply = SealReply(object: ObjectID, node: NodeID, size: nat, checksum: nat)

  datatype Prepared =
    | TaskPrepared(reference: PublicationRef, prepares: seq<PinReply>, promotes: seq<PinReply>,
                   taskNode: NodeIncarnation)
    | PutPrepared(reference: PublicationRef, prepares: seq<PinReply>, promotes: seq<PinReply>,
                  putNode: Option<NodeIncarnation>, seal: Option<SealReply>)
  {
    predicate Valid() {
      && (reference.key.TaskKey? <==> TaskPrepared?)
      && PinsValid(prepares, false) && PinsValid(promotes, true)
    }
  }

  predicate PinsValid(replies: seq<PinReply>, promote: bool) {
    && (forall r :: r in replies ==> r.promote == promote)
    && forall i, j :: 0 <= i < j < |replies| ==> replies[i].transfer != replies[j].transfer
  }

  datatype Complete = Complete(reference: PublicationRef)
  datatype Adoption = Adoption(complete: Complete, owner: WorkerID, commitId: string)

  datatype RetirementReason = Collected | Reconstruction | PayloadLost
  datatype Fence =
    | OwnerAbort(reference: PublicationRef, owner: WorkerID, abortId: string)
    | OwnerRetirement(reference: PublicationRef, owner: WorkerID, retirementId: string, why: RetirementReason)
    | OwnerDeath(death: Death)

  predicate FenceMatches(publication: Publication, fence: Fence) {
    if fence.OwnerDeath? then fence.death.Unexpected() && fence.death.worker == publication.owner
    else fence.reference == publication.Ref() && fence.owner == publication.owner
  }

  // The possible child effects a Node rolled back; index tuples are sorted and
  // duplicate-free on the wire, hence sets here.
  datatype RollbackScope = RollbackScope(reference: PublicationRef, rollbackId: string, prepareIntents: set<nat>,
                                         promoteIntents: set<nat>, materializationStarted: bool)
  {
    predicate Valid() {
      reference.key.TaskKey? && promoteIntents <= prepareIntents
    }
  }

  datatype Release = Release(key: HoldKey, released: bool)

  datatype ClosedHolds = ClosedHolds(reference: PublicationRef, releases: seq<Release>, deaths: seq<Death>,
                                     scope: Option<RollbackScope>)
  {
    predicate Valid() {
      && (forall i, j :: 0 <= i < j < |releases| ==> releases[i].key != releases[j].key)
      && (forall d :: d in deaths ==> d.Unexpected())
      && (forall i, j :: 0 <= i < j < |deaths| ==> deaths[i].worker != deaths[j].worker)
      && (scope.Some? ==> scope.value.Valid() && scope.value.reference == reference)
    }

    function Released(): set<HoldKey> { set r | r in releases :: r.key }
    function Dead(): set<WorkerID> { set d | d in deaths :: d.worker }
  }

  datatype Stage = Intent | PreparedGraph | Armed | Terminal | Committed | Adopted | Fenced | Retired
  datatype Receipt = Receipt(reference: PublicationRef, stage: Stage, sequence: nat)

  function FindReceipt(receipts: seq<Receipt>, stage: Stage): Option<Receipt> {
    if receipts == [] then None
    else if receipts[0].stage == stage then Some(receipts[0])
    else FindReceipt(receipts[1..], stage)
  }

  lemma FindReceiptAppend(receipts: seq<Receipt>, last: Receipt, stage: Stage)
    ensures FindReceipt(receipts + [last], stage)
         == if FindReceipt(receipts, stage).Some? then FindReceipt(receipts, stage)
            else if last.stage == stage then Some(last) else None
  {
    if receipts != [] {
      assert (receipts + [last])[1..] == receipts[1..] + [last];
    }
  }

  lemma FindReceiptMember(receipts: seq<Receipt>, stage: Stage)
    ensures match FindReceipt(receipts, stage)
            case None => forall r :: r in receipts ==> r.stage != stage
            case Some(r) => r in receipts && r.stage == stage
  {
    if receipts == [] || receipts[0].stage == stage {
    } else {
      FindReceiptMember(receipts[1..], stage);
      assert receipts == [receipts[0]] + receipts[1..];
    }
  }

  // ------------------------------------------------------------------------
  // Snapshots

  datatype Snapshot = Snapshot(publication: Publication, receipts: seq<Receipt>, fence: Option<Fence>,
                               prepared: Option<Prepared>, complete: Option<Complete>, adoption: Option<Adoption>,
                               closed: Option<ClosedHolds>)
  {
    function Ref(): PublicationRef { publication.Ref() }
    function At(stage: Stage): Option<Receipt> { FindReceipt(receipts, stage) }
    predicate Has(stage: Stage) { At(stage).Some? }
    predicate ForwardOpen() { fence.None? && !Has(Retired) }
    predicate GraphActive() { Has(PreparedGraph) && !Has(Retired) }

    // `earlier` precedes `later` whenever `later` was recorded.
    predicate Follows(later: Stage, earlier: Stage) {
      Has(later) ==> Has(earlier) && At(earlier).value.sequence < At(later).value.sequence
    }
  }

  function Unregistered(publication: Publication): Snapshot {
    Snapshot(publication, [], None, None, None, None, None)
  }

  datatype ErrorKind = Conflict | InvalidState | CycleError | Unavailable

  // A validator either passes or raises one typed publication error.
  type Verdict = Option<ErrorKind>

  function PinnedTransfers(replies: seq<PinReply>): seq<Transfer> {
    seq(|replies|, i requires 0 <= i < |replies| => replies[i].transfer)
  }

  function CheckPrepared(publication: Publication, prepared: Prepared): (v: Verdict) {
    if prepared.reference != publication.Ref() then Some(Conflict)
    else if prepared.TaskPrepared? != publication.TaskPublication? then Some(Conflict)
    else if PinnedTransfers(prepared.prepares) != publication.transfers then Some(Conflict)
    else if PinnedTransfers(prepared.promotes) != publication.transfers then Some(Conflict)
    else if prepared.TaskPrepared? then
      if prepared.taskNode != publication.node then Some(Conflict) else None
    else if publication.payload.tier == Inline then
      if prepared.putNode.Some? || prepared.seal.Some? then Some(Conflict) else None
    else if prepared.putNode.None? || prepared.seal.None?
      || prepared.seal.value != SealReply(publication.Object(), prepared.putNode.value.node,
                                          publication.payload.size, publication.payload.checksum) then Some(Conflict)
    else None
  }

  function CheckScope(publication: Publication, scope: RollbackScope): (v: Verdict) {
    if !publication.TaskPublication? || scope.reference != publication.Ref() then Some(Conflict)
    else if !(forall i :: i in scope.prepareIntents + scope.promoteIntents ==> i < |publication.transfers|) then
      Some(Conflict)
    else None
  }

  function Below(n: nat): (s: set<nat>)
    ensures forall i: nat :: i in s <==> i < n
  {
    if n == 0 then {} else Below(n - 1) + {n - 1}
  }

  function AllHolds(transfers: seq<Transfer>): set<HoldKey> {
    (set t | t in transfers :: t.ProvisionalKey()) + (set t | t in transfers :: t.FinalKey())
  }

  /** The holds a retirement must settle, accumulated transfer by transfer: a
      recorded preparation proves that promotion consumed the provisional hold. */
  function RequiredHolds(transfers: seq<Transfer>, prepares: set<nat>, promotes: set<nat>, preparationKnown: bool)
    : set<HoldKey>
  {
    if transfers == [] then {}
    else
      var n := |transfers| - 1;
      var t := transfers[n];
      var before := RequiredHolds(transfers[..n], prepares, promotes, preparationKnown);
      var added := before + (if n in prepares then {t.ProvisionalKey()} else {})
                          + (if n in promotes then {t.FinalKey()} else {});
      if preparationKnown then added - {t.ProvisionalKey()} else added
  }

  function CheckClosed(snapshot: Snapshot, closed: ClosedHolds): (v: Verdict) {
    var publication := snapshot.publication;
    var all := Below(|publication.transfers|);
    if closed.reference != snapshot.Ref() then Some(Conflict)
    else if closed.scope.Some? && CheckScope(publication, closed.scope.value).Some? then
      CheckScope(publication, closed.scope.value)
    else if closed.scope.Some? && (snapshot.complete.Some? || snapshot.adoption.Some?) then Some(InvalidState)
    else if closed.scope.Some? && snapshot.prepared.Some?
      && (closed.scope.value.prepareIntents != all || closed.scope.value.promoteIntents != all
          || !closed.scope.value.materializationStarted) then Some(Conflict)
    else
      var prepares := if closed.scope.Some? then closed.scope.value.prepareIntents else all;
      var promotes := if closed.scope.Some? then closed.scope.value.promoteIntents else all;
      var required := RequiredHolds(publication.transfers, prepares, promotes, snapshot.prepared.Some?);
      if !(closed.Released() <= AllHolds(publication.transfers)) then Some(Conflict)
      else if !(closed.Dead() <= set t | t in publication.transfers :: t.childOwner) then Some(Conflict)
      else if exists k :: k in required && k !in closed.Released() && k.owner !in closed.Dead() then Some(InvalidState)
      else None
  }

  // Every check that rebuilding a snapshot runs, so a snapshot that satisfies
  // it can be copied without raising.
  ghost predicate SnapshotOk(s: Snapshot) {
    && ReceiptsOk(s) && FactsOk(s) && CausesOk(s)
  }

  ghost predicate ReceiptsOk(s: Snapshot) {
    && (forall r :: r in s.receipts ==> r.reference == s.Ref() && r.sequence > 0)
    && (forall i, j :: 0 <= i < j < |s.receipts| ==>
          s.receipts[i].stage != s.receipts[j].stage && s.receipts[i].sequence < s.receipts[j].sequence)
  }

  ghost predicate FactsOk(s: Snapshot) {
    && s.fence.Some? == s.Has(Fenced) && (s.fence.Some? ==> FenceMatches(s.publication, s.fence.value))
    && s.complete.Some? == s.Has(Terminal) && (s.complete.Some? ==> s.complete.value.reference == s.Ref())
    && s.adoption.Some? == s.Has(Adopted)
    && (s.adoption.Some? ==>
         s.complete == Some(s.adoption.value.complete) && s.adoption.value.owner == s.publication.owner)
    && s.closed.Some? == s.Has(Retired)
    && (s.closed.Some? ==> s.closed.value.Valid() && CheckClosed(s, s.closed.value) == None)
    && (s.prepared.Some? ==> s.prepared.value.Valid() && CheckPrepared(s.publication, s.prepared.value) == None)
    && s.prepared.Some? == s.Has(if s.publication.TaskPublication? then Armed else Committed)
  }

  ghost predicate CausesOk(s: Snapshot) {
    && s.Follows(PreparedGraph, Intent) && s.Follows(Armed, PreparedGraph) && s.Follows(Terminal, Armed)
    && s.Follows(Committed, PreparedGraph) && s.Follows(Adopted, Committed) && s.Follows(Retired, Fenced)
    && (s.publication.TaskPublication? ==> s.Follows(Committed, Terminal))
    && (s.Has(Armed) || s.Has(Terminal) || s.Has(Adopted) ==> s.publication.TaskPublication?)
  }
}
