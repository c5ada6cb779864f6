/** What every reachable state of the publication authority satisfies, and what
    whole runs of it can never do. */
module PublicationInvariants {
  import opened Ids
  import opened ReferenceGraph
  import opened PublicationFacts
  import opened PublicationAuthority

  // ------------------------------------------------------------------------
  // The invariant

  // Records are filed under their own key and could be rebuilt at any time.
  ghost predicate Keyed(s: State) {
    && (forall k :: k in s.records ==> s.records[k].publication.Key() == k && SnapshotOk(s.records[k]))
    && (forall k :: k in s.records ==> Opened(s.records[k]))
    && (forall k :: k in s.order <==> k in s.records)
    && forall i, j :: 0 <= i < j < |s.order| ==> s.order[i] != s.order[j]
  }

  // A record was opened either by an intent or by a fence.
  ghost predicate Opened(u: Snapshot) {
    u.publication.Valid() && (u.Has(Intent) || u.Has(Fenced))
  }

  // The receipt r was recorded for the publication filed under k.
  ghost predicate Filed(s: State, k: PublicationKey, r: Receipt) {
    k in s.records && r in s.records[k].receipts
  }

  ghost predicate Issued(s: State, n: nat) {
    exists k, r :: Filed(s, k, r) && r.sequence == n
  }

  ghost predicate Bounded(s: State) {
    forall k, r :: Filed(s, k, r) ==> 0 < r.sequence <= s.sequence
  }

  ghost predicate UsedOnce(s: State) {
    forall k, k', r, r' :: Filed(s, k, r) && Filed(s, k', r') && r.sequence == r'.sequence ==> k == k' && r == r'
  }

  // Receipt numbers are exactly 1..sequence, each used once over all records.
  ghost predicate Sequenced(s: State) {
    Bounded(s) && UsedOnce(s) && forall n: nat :: 0 < n <= s.sequence ==> Issued(s, n)
  }

  // One job, one address per owner, one owner per ObjectID, children included.
  ghost predicate Identified(s: State) {
    && (forall k, k' :: k in s.records && k' in s.records ==>
          s.records[k].publication.job == s.records[k'].publication.job)
    && (forall k, k' | k in s.records && k' in s.records
          && s.records[k].publication.owner == s.records[k'].publication.owner ::
          s.records[k].publication.ownerAddress == s.records[k'].publication.ownerAddress)
    && OneOwnerEach(AllNames(s.records))
  }

  // The epoch of `a` was over before that of `b` began.
  ghost predicate Before(a: Snapshot, b: Snapshot) {
    && a.Has(Retired) && b.Has(Intent)
    && a.At(Retired).value.sequence < b.At(Intent).value.sequence
    && a.publication.AttemptNumber() < b.publication.AttemptNumber()
  }

  ghost predicate SerialEpochs(s: State) {
    forall k, k' :: k in s.records && k' in s.records && k != k'
      && s.records[k].Has(Intent) && s.records[k'].Has(Intent)
      && s.records[k].publication.Object() == s.records[k'].publication.Object()
      ==> Before(s.records[k], s.records[k']) || Before(s.records[k'], s.records[k])
  }

  // Forward stages precede the fence; an owner abort and an adoption exclude each other.
  ghost predicate FencedOnce(u: Snapshot) {
    && (forall st | u.Has(Fenced) && st in {Intent, PreparedGraph, Armed, Committed} && u.Has(st) ::
          u.At(st).value.sequence < u.At(Fenced).value.sequence)
    && !(u.adoption.Some? && u.fence.Some? && u.fence.value.OwnerAbort?)
  }

  ghost predicate Inv(s: State) {
    && Keyed(s) && Sequenced(s) && Identified(s) && SerialEpochs(s)
    && (forall k :: k in s.records ==> FencedOnce(s.records[k]))
    && Acyclic(ActiveEdges(s))
  }

  // ------------------------------------------------------------------------
  // The shape of one accepted mutation

  lemma RecordedAt(s: State, base: Snapshot, r: Request, st: Stage)
    requires !r.GetPublication? && !base.Has(r.StageOf())
    ensures Recorded(s, base, r).At(st)
         == if st == r.StageOf() then Some(Receipt(r.Ref(), st, s.sequence + 1)) else base.At(st)
  {
    FindReceiptAppend(base.receipts, Receipt(r.Ref(), r.StageOf(), s.sequence + 1), st);
  }

  ghost predicate BaseFor(s: State, r: Request, base: Snapshot) {
    && !r.GetPublication?
    && base.Ref() == r.Ref()
    && (r.Ref().key in s.records ==> base == s.records[r.Ref().key])
    && (r.Ref().key !in s.records ==>
          && (r.BeginPublication? || r.FencePublication?)
          && base == Unregistered(r.publication)
          && CheckBinding(s, r.publication, r.BeginPublication?) == None)
    && (r.BeginPublication? || r.FencePublication? ==> base.publication == r.publication)
  }

  // A state changes only by recording the next receipt of one record.
  lemma ApplyShape(s: State, r: Request) returns (base: Snapshot)
    requires Keyed(s)
    ensures Apply(s, r).0 != s ==>
      && BaseFor(s, r, base)
      && Guard(s, base, r) == None && !base.Has(r.StageOf())
      && Apply(s, r).0 == Commit(s, r.Ref().key, Recorded(s, base, r))
      && Apply(s, r).1 == Reply(true, Some(Recorded(s, base, r)), Recorded(s, base, r).At(r.StageOf()), None)
  {
    if r.GetPublication? {
      base := *;
    } else {
      var b := Base(s, r, Lookup(s, r.Ref().key)).0;
      if b.Some? { base := b.value; } else { base := *; }
    }
  }

  // ------------------------------------------------------------------------
  // The guards imply the validator

  // What a mutation may rely on about the record it starts from.
  ghost predicate GoodBase(s: State, base: Snapshot, r: Request) {
    && !r.GetPublication? && r.Valid() && base.Ref() == r.Ref()
    && (r.FencePublication? ==> base.publication == r.publication)
    && SnapshotOk(base) && FencedOnce(base)
    && (forall rc :: rc in base.receipts ==> rc.sequence <= s.sequence)
    && Guard(s, base, r) == None && !base.Has(r.StageOf())
  }

  lemma RecordedReceiptsOk(s: State, base: Snapshot, r: Request)
    requires GoodBase(s, base, r)
    ensures ReceiptsOk(Recorded(s, base, r))
  {
    var u := Recorded(s, base, r);
    FindReceiptMember(base.receipts, r.StageOf());
    assert u.Ref() == base.Ref();
  }

  // Settling a retirement depends on the preparation only, once no rollback scope is claimed.
  lemma ClosedCongruence(a: Snapshot, b: Snapshot, closed: ClosedHolds)
    requires a.publication == b.publication && a.prepared.Some? == b.prepared.Some?
    requires closed.scope.Some? ==> a.complete.Some? == b.complete.Some? && a.adoption.Some? == b.adoption.Some?
    ensures CheckClosed(a, closed) == CheckClosed(b, closed)
  {
  }

  lemma RecordedFactsOk(s: State, base: Snapshot, r: Request)
    requires GoodBase(s, base, r)
    ensures FactsOk(Recorded(s, base, r))
  {
    var u := Recorded(s, base, r);
    forall st ensures u.Has(st) == (base.Has(st) || st == r.StageOf()) {
      RecordedAt(s, base, r, st);
    }
    assert u.Ref() == base.Ref();
    if base.closed.Some? {
      ClosedCongruence(base, u, base.closed.value);
    }
    if r.RetireGraph? {
      ClosedCongruence(base, u, r.closed);
    }
  }

  // The receipts after one recorded mutation.
  ghost predicate Extends(u: Snapshot, base: Snapshot, stage: Stage, n: nat) {
    forall st ::
      && u.Has(st) == (base.Has(st) || st == stage)
      && (base.Has(st) ==> u.At(st) == base.At(st) && u.At(st).value.sequence <= n)
      && (st == stage ==> u.At(st).value.sequence == n + 1)
  }

  lemma RecordedExtends(s: State, base: Snapshot, r: Request)
    requires !r.GetPublication? && !base.Has(r.StageOf())
    requires forall rc :: rc in base.receipts ==> rc.sequence <= s.sequence
    ensures Extends(Recorded(s, base, r), base, r.StageOf(), s.sequence)
  {
    var u := Recorded(s, base, r);
    forall st
      ensures u.Has(st) == (base.Has(st) || st == r.StageOf())
      ensures base.Has(st) ==> u.At(st) == base.At(st) && u.At(st).value.sequence <= s.sequence
      ensures st == r.StageOf() ==> u.At(st).value.sequence == s.sequence + 1
    {
      RecordedAt(s, base, r, st);
      FindReceiptMember(base.receipts, st);
    }
  }

  // The stages a new receipt rests on are there.
  ghost predicate Ready(base: Snapshot, stage: Stage) {
    && (stage.PreparedGraph? ==> base.Has(Intent)) && (stage.Armed? ==> base.Has(PreparedGraph))
    && (stage.Terminal? ==> base.Has(Armed)) && (stage.Committed? ==> base.Has(PreparedGraph))
    && (stage.Committed? && base.publication.TaskPublication? ==> base.Has(Terminal))
    && (stage.Adopted? ==> base.Has(Committed)) && (stage.Retired? ==> base.Has(Fenced))
    && (stage.Armed? || stage.Terminal? || stage.Adopted? ==> base.publication.TaskPublication?)
  }

  lemma GuardIsReady(s: State, base: Snapshot, r: Request)
    requires GoodBase(s, base, r)
    ensures Ready(base, r.StageOf())
  {
    hide ReceiptsOk, CheckClosed, FencedOnce;
  }

  lemma FollowsKept(u: Snapshot, base: Snapshot, stage: Stage, n: nat, later: Stage, earlier: Stage)
    requires Extends(u, base, stage, n) && !base.Has(stage) && base.Follows(later, earlier)
    requires stage == later ==> base.Has(earlier)
    ensures u.Follows(later, earlier)
  {
  }

  lemma CausesKept(u: Snapshot, base: Snapshot, stage: Stage, n: nat)
    requires Extends(u, base, stage, n) && !base.Has(stage) && CausesOk(base) && Ready(base, stage)
    requires u.publication == base.publication
    ensures CausesOk(u)
  {
    FollowsKept(u, base, stage, n, PreparedGraph, Intent);
    FollowsKept(u, base, stage, n, Armed, PreparedGraph);
    FollowsKept(u, base, stage, n, Terminal, Armed);
    FollowsKept(u, base, stage, n, Committed, PreparedGraph);
    FollowsKept(u, base, stage, n, Adopted, Committed);
    FollowsKept(u, base, stage, n, Retired, Fenced);
    if base.publication.TaskPublication? { FollowsKept(u, base, stage, n, Committed, Terminal); }
  }

  lemma RecordedCausesOk(s: State, base: Snapshot, r: Request)
    requires GoodBase(s, base, r)
    ensures CausesOk(Recorded(s, base, r))
  {
    hide ReceiptsOk, FactsOk, CausesOk, FencedOnce, Guard, Extends, Ready;
    GuardIsReady(s, base, r);
    RecordedExtends(s, base, r);
    CausesKept(Recorded(s, base, r), base, r.StageOf(), s.sequence);
  }

  lemma RecordedFencedOnce(s: State, base: Snapshot, r: Request)
    requires GoodBase(s, base, r)
    ensures FencedOnce(Recorded(s, base, r))
  {
    hide ReceiptsOk, CheckClosed;
    RecordedExtends(s, base, r);
  }

  // ------------------------------------------------------------------------
  // Every transition keeps the invariant

  // A record that already exists is never begun again, and a prepared graph was checked.
  lemma GuardFacts(s: State, r: Request, base: Snapshot)
    requires !r.GetPublication? && Guard(s, base, r) == None && !base.Has(r.StageOf())
    requires BaseFor(s, r, base)
    requires r.Ref().key in s.records ==> Opened(s.records[r.Ref().key]) && FactsOk(s.records[r.Ref().key])
    ensures r.BeginPublication? ==> r.Ref().key !in s.records
    ensures r.PrepareGraph? ==> Acyclic(ActiveEdges(s) + EdgesFrom(base.publication))
    ensures !(r.BeginPublication? || r.FencePublication?) ==> r.Ref().key in s.records
  {
  }

  lemma BaseIsGood(s: State, r: Request, base: Snapshot)
    requires r.Valid() && BaseFor(s, r, base) && Guard(s, base, r) == None && !base.Has(r.StageOf())
    requires r.Ref().key in s.records ==> SnapshotOk(base) && FencedOnce(base)
    requires r.Ref().key in s.records ==> forall rc :: rc in base.receipts ==> rc.sequence <= s.sequence
    ensures GoodBase(s, base, r)
  {
    if r.Ref().key !in s.records {
      assert base.receipts == [];
      assert forall st :: base.At(st) == None;
    }
  }

  // A mutation keeps the manifest.
  lemma RecordedManifest(s: State, r: Request, base: Snapshot)
    requires BaseFor(s, r, base)
    ensures Recorded(s, base, r).publication == base.publication && base.publication.Key() == r.Ref().key
  {
  }

  lemma KeyedKept(s: State, r: Request, base: Snapshot)
    requires Keyed(s) && BaseFor(s, r, base) && SnapshotOk(Recorded(s, base, r)) && Opened(Recorded(s, base, r))
    ensures Keyed(Commit(s, r.Ref().key, Recorded(s, base, r)))
  {
    hide Recorded, SnapshotOk, Opened, BaseFor;
    RecordedManifest(s, r, base);
  }

  lemma OpenedKept(s: State, r: Request, base: Snapshot)
    requires r.Valid() && BaseFor(s, r, base) && !base.Has(r.StageOf())
    requires r.Ref().key in s.records ==> Opened(base)
    ensures Opened(Recorded(s, base, r))
  {
    RecordedAt(s, base, r, Intent);
    RecordedAt(s, base, r, Fenced);
  }

  // A commit files exactly one receipt, the next one.
  lemma FiledAfter(s: State, r: Request, base: Snapshot, k: PublicationKey, rc: Receipt)
    requires BaseFor(s, r, base)
    ensures Filed(Commit(s, r.Ref().key, Recorded(s, base, r)), k, rc) <==>
              Filed(s, k, rc) || (k == r.Ref().key && rc == Receipt(r.Ref(), r.StageOf(), s.sequence + 1))
  {
  }

  lemma SequencedKept(s: State, r: Request, base: Snapshot)
    requires Sequenced(s) && BaseFor(s, r, base)
    ensures Sequenced(Commit(s, r.Ref().key, Recorded(s, base, r)))
  {
    var key, s' := r.Ref().key, Commit(s, r.Ref().key, Recorded(s, base, r));
    var latest := Receipt(r.Ref(), r.StageOf(), s.sequence + 1);
    forall k, rc ensures Filed(s', k, rc) <==> Filed(s, k, rc) || (k == key && rc == latest) {
      FiledAfter(s, r, base, k, rc);
    }
    SequencedBy(s, s', key, latest);
  }

  lemma SequencedBy(s: State, s': State, key: PublicationKey, latest: Receipt)
    requires Sequenced(s) && s'.sequence == s.sequence + 1 == latest.sequence
    requires forall k, rc :: Filed(s', k, rc) <==> Filed(s, k, rc) || (k == key && rc == latest)
    ensures Sequenced(s')
  {
    forall n: nat | 0 < n <= s'.sequence ensures Issued(s', n) {
      if n == s'.sequence {
        assert Filed(s', key, latest);
      } else {
        assert Issued(s, n);
      }
    }
  }

  lemma {:induction false} NoPairError(records: map<PublicationKey, Snapshot>, order: seq<PublicationKey>,
                                       publication: Publication, admitting: bool)
    ensures FirstPairError(records, order, publication, admitting).None? <==>
            forall k :: k in order && k in records ==> PairError(records[k], publication, admitting).None?
  {
    if order == [] {
    } else {
      NoPairError(records, order[1..], publication, admitting);
      assert order == [order[0]] + order[1..];
    }
  }

  // A new record was checked against every older one.
  lemma Bound(s: State, r: Request, base: Snapshot)
    requires BaseFor(s, r, base) && r.Ref().key !in s.records && forall k :: k in s.order <==> k in s.records
    ensures forall k :: k in s.records ==> PairError(s.records[k], base.publication, r.BeginPublication?).None?
    ensures OneOwnerEach(AllNames(s.records) + NamesIn(base.publication))
  {
    NoPairError(s.records, s.order, base.publication, r.BeginPublication?);
  }

  // Two manifests agree on the job, and on the address of an owner they share.
  predicate Agree(a: Publication, b: Publication) {
    a.job == b.job && (a.owner == b.owner ==> a.ownerAddress == b.ownerAddress)
  }

  lemma BoundAgrees(s: State, r: Request, base: Snapshot)
    requires BaseFor(s, r, base) && r.Ref().key !in s.records && forall k :: k in s.order <==> k in s.records
    ensures forall k :: k in s.records ==> Agree(s.records[k].publication, base.publication)
  {
    Bound(s, r, base);
    hide OneOwnerEach, AllNames, NamesIn, BaseFor;
  }

  lemma NamesKept(s: State, key: PublicationKey, u: Snapshot)
    requires if key in s.records then u.publication == s.records[key].publication && OneOwnerEach(AllNames(s.records))
             else OneOwnerEach(AllNames(s.records) + NamesIn(u.publication))
    ensures OneOwnerEach(AllNames(Commit(s, key, u).records))
  {
    var s' := Commit(s, key, u);
    if key in s.records {
      assert AllNames(s'.records) <= AllNames(s.records);
    } else {
      assert AllNames(s'.records) <= AllNames(s.records) + NamesIn(u.publication);
    }
  }

  lemma IdentifiedKept(s: State, r: Request, base: Snapshot)
    requires Identified(s) && BaseFor(s, r, base) && forall k :: k in s.order <==> k in s.records
    ensures Identified(Commit(s, r.Ref().key, Recorded(s, base, r)))
  {
    hide Recorded, OneOwnerEach, AllNames, NamesIn, Unregistered, CheckBinding;
    RecordedManifest(s, r, base);
    if r.Ref().key !in s.records {
      Bound(s, r, base);
      BoundAgrees(s, r, base);
    }
    NamesKept(s, r.Ref().key, Recorded(s, base, r));
  }

  lemma EpochsKept(s: State, r: Request, base: Snapshot)
    requires SerialEpochs(s) && BaseFor(s, r, base) && !base.Has(r.StageOf())
    requires forall k :: k in s.order <==> k in s.records
    requires Bounded(s)
    requires r.BeginPublication? ==> r.Ref().key !in s.records
    ensures SerialEpochs(Commit(s, r.Ref().key, Recorded(s, base, r)))
  {
    var key, u := r.Ref().key, Recorded(s, base, r);
    var s' := Commit(s, key, u);
    forall k | k in s.records && k != key && s.records[k].Has(Intent) && u.Has(Intent)
      && s.records[k].publication.Object() == u.publication.Object()
      ensures Before(s.records[k], u) || Before(u, s.records[k])
    {
      RecordedAt(s, base, r, Intent);
      RecordedAt(s, base, r, Retired);
      var other := s.records[k];
      if r.BeginPublication? {
        Bound(s, r, base);
        assert PairError(other, base.publication, true).None?;
        FindReceiptMember(other.receipts, Retired);
        assert Filed(s, k, other.At(Retired).value);
      } else {
        assert base.Has(Intent);
        assert key in s.records;
        assert Before(other, base) || Before(base, other);
      }
    }
  }

  lemma GraphKept(s: State, r: Request, base: Snapshot)
    requires BaseFor(s, r, base) && Acyclic(ActiveEdges(s)) && !base.Has(r.StageOf())
    requires r.PrepareGraph? ==> Acyclic(ActiveEdges(s) + EdgesFrom(base.publication))
    ensures Acyclic(ActiveEdges(Commit(s, r.Ref().key, Recorded(s, base, r))))
  {
    var key, u := r.Ref().key, Recorded(s, base, r);
    var s' := Commit(s, key, u);
    RecordedAt(s, base, r, PreparedGraph);
    RecordedAt(s, base, r, Retired);
    var bound := if r.PrepareGraph? then ActiveEdges(s) + EdgesFrom(base.publication) else ActiveEdges(s);
    assert u.publication == base.publication;
    forall e | e in ActiveEdges(s') ensures e in bound {
      var k, t :| k in s'.records && s'.records[k].GraphActive() && t in s'.records[k].publication.transfers
        && e == (s'.records[k].publication.Object(), t.child);
      if k == key && !r.PrepareGraph? {
        assert base.Has(PreparedGraph);
        assert key in s.records && s.records[key].GraphActive();
      }
    }
    SubsetKeepsAcyclic(ActiveEdges(s'), bound);
  }

  lemma RecordedIsOk(s: State, r: Request, base: Snapshot)
    requires r.Valid() && BaseFor(s, r, base) && Guard(s, base, r) == None && !base.Has(r.StageOf())
    requires r.Ref().key in s.records ==> SnapshotOk(base) && FencedOnce(base) && Opened(base)
    requires r.Ref().key in s.records ==> forall rc :: rc in base.receipts ==> rc.sequence <= s.sequence
    ensures SnapshotOk(Recorded(s, base, r)) && FencedOnce(Recorded(s, base, r)) && Opened(Recorded(s, base, r))
  {
    BaseIsGood(s, r, base);
    RecordedReceiptsOk(s, base, r);
    RecordedFactsOk(s, base, r);
    RecordedCausesOk(s, base, r);
    RecordedFencedOnce(s, base, r);
    OpenedKept(s, r, base);
  }

  lemma InvMeans(s: State)
    requires Inv(s)
    ensures Keyed(s) && Bounded(s) && forall k :: k in s.order <==> k in s.records
  {
  }

  lemma CommitKeepsInv(s: State, r: Request, base: Snapshot)
    requires Inv(s) && BaseFor(s, r, base) && !base.Has(r.StageOf())
    requires r.BeginPublication? ==> r.Ref().key !in s.records
    requires r.PrepareGraph? ==> Acyclic(ActiveEdges(s) + EdgesFrom(base.publication))
    requires SnapshotOk(Recorded(s, base, r)) && FencedOnce(Recorded(s, base, r)) && Opened(Recorded(s, base, r))
    ensures Inv(Commit(s, r.Ref().key, Recorded(s, base, r)))
  {
    hide Keyed, Sequenced, Identified, SerialEpochs, BaseFor, SnapshotOk, Opened, Recorded, Acyclic, FencedOnce;
    InvMeans(s);
    KeyedKept(s, r, base);
    SequencedKept(s, r, base);
    IdentifiedKept(s, r, base);
    EpochsKept(s, r, base);
    GraphKept(s, r, base);
  }

  // What the invariant says about the one record a mutation starts from.
  lemma PriorFacts(s: State, r: Request, base: Snapshot)
    requires Inv(s) && BaseFor(s, r, base)
    ensures r.Ref().key in s.records ==>
      && SnapshotOk(base) && FencedOnce(base) && Opened(base)
      && forall rc :: rc in base.receipts ==> rc.sequence <= s.sequence
  {
    if r.Ref().key in s.records {
      forall rc | rc in base.receipts ensures rc.sequence <= s.sequence {
        assert Filed(s, r.Ref().key, rc);
      }
    }
  }

  lemma AcceptedKeepsInv(s: State, r: Request, base: Snapshot)
    requires Inv(s) && r.Valid() && BaseFor(s, r, base) && Guard(s, base, r) == None && !base.Has(r.StageOf())
    ensures Inv(Commit(s, r.Ref().key, Recorded(s, base, r)))
  {
    PriorFacts(s, r, base);
    GuardFacts(s, r, base);
    RecordedIsOk(s, r, base);
    CommitKeepsInv(s, r, base);
  }

  lemma ApplyKeepsInv(s: State, r: Request)
    requires Inv(s) && r.Valid()
    ensures Inv(Apply(s, r).0)
  {
    var base := ApplyShape(s, r);
    if Apply(s, r).0 != s {
      AcceptedKeepsInv(s, r, base);
    }
  }

  lemma EmptyIsInv()
    ensures Inv(EMPTY)
  {
    assert ActiveEdges(EMPTY) == {};
    FinishOrderIsAcyclic(ActiveEdges(EMPTY), []);
  }

  /** Main result: every run of well-formed requests ends in an invariant state. */
  lemma {:induction false} RunKeepsInv(s: State, requests: seq<Request>)
    requires Inv(s) && forall r :: r in requests ==> r.Valid()
    ensures Inv(Run(s, requests))
    decreases requests
  {
    if requests == [] {
    } else {
      ApplyKeepsInv(s, requests[0]);
      RunKeepsInv(Apply(s, requests[0]).0, requests[1..]);
    }
  }
}
