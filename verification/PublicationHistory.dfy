/** Whole runs of the publication authority: history only grows, a fence closes
    the forward direction for good, and every accepted mutation can be replayed. */
module PublicationHistory {
  import opened Ids
  import opened PublicationFacts
  import opened PublicationAuthority
  import opened PublicationInvariants

  // ------------------------------------------------------------------------
  // History only grows

  ghost predicate Kept<T>(earlier: Option<T>, later: Option<T>) {
    earlier.Some? ==> later == earlier
  }

  // `u` is what a record became: its receipts continue, its facts stand.
  ghost predicate Continues(o: Snapshot, u: Snapshot, n: nat) {
    && u.publication == o.publication
    && o.receipts <= u.receipts
    && (forall i :: |o.receipts| <= i < |u.receipts| ==> u.receipts[i].sequence > n)
    && Kept(o.fence, u.fence) && Kept(o.prepared, u.prepared) && Kept(o.complete, u.complete)
    && Kept(o.adoption, u.adoption) && Kept(o.closed, u.closed)
  }

  ghost predicate Later(s: State, t: State) {
    && s.sequence <= t.sequence
    && forall k :: k in s.records ==> k in t.records && Continues(s.records[k], t.records[k], s.sequence)
  }

  lemma GuardKeepsFacts(s: State, base: Snapshot, r: Request)
    requires !r.GetPublication? && Guard(s, base, r) == None && !base.Has(r.StageOf()) && FactsOk(base)
    ensures Continues(base, Recorded(s, base, r), s.sequence)
  {
  }

  lemma CommitContinues(s: State, r: Request, base: Snapshot)
    requires BaseFor(s, r, base) && Guard(s, base, r) == None && !base.Has(r.StageOf())
    requires r.Ref().key in s.records ==> FactsOk(base)
    ensures Later(s, Commit(s, r.Ref().key, Recorded(s, base, r)))
  {
    if r.Ref().key in s.records {
      GuardKeepsFacts(s, base, r);
    }
  }

  lemma LaterIsReflexive(s: State)
    ensures Later(s, s)
  {
  }

  lemma BaseFactsOk(s: State, r: Request, base: Snapshot)
    requires Keyed(s) && BaseFor(s, r, base)
    ensures r.Ref().key in s.records ==> FactsOk(base)
  {
  }

  lemma ApplyContinues(s: State, r: Request)
    requires Keyed(s)
    ensures Later(s, Apply(s, r).0)
  {
    var base := ApplyShape(s, r);
    if Apply(s, r).0 == s {
      LaterIsReflexive(s);
    } else {
      BaseFactsOk(s, r, base);
      CommitContinues(s, r, base);
    }
  }

  lemma LaterIsTransitive(s: State, t: State, u: State)
    requires Later(s, t) && Later(t, u)
    ensures Later(s, u)
  {
    forall k | k in s.records ensures Continues(s.records[k], u.records[k], s.sequence) {
      var a, b, c := s.records[k], t.records[k], u.records[k];
      assert Continues(a, b, s.sequence) && Continues(b, c, t.sequence);
    }
  }

  lemma StepContinues(s: State, r: Request)
    requires Inv(s) && r.Valid()
    ensures Later(s, Apply(s, r).0) && Inv(Apply(s, r).0)
  {
    ApplyContinues(s, r);
    ApplyKeepsInv(s, r);
  }

  lemma LaterThroughStep(s: State, requests: seq<Request>)
    requires requests != [] && Later(s, Apply(s, requests[0]).0)
    requires Later(Apply(s, requests[0]).0, Run(Apply(s, requests[0]).0, requests[1..]))
    ensures Later(s, Run(s, requests))
  {
    LaterIsTransitive(s, Apply(s, requests[0]).0, Run(s, requests));
  }

  /** Over every run, receipts are only appended, with numbers above all earlier
      ones, and no recorded fact is ever withdrawn or rebound. */
  lemma {:induction false} RunContinues(s: State, requests: seq<Request>)
    requires Inv(s) && forall r :: r in requests ==> r.Valid()
    ensures Later(s, Run(s, requests))
    decreases requests
  {
    if requests == [] {
      LaterIsReflexive(s);
    } else {
      StepContinues(s, requests[0]);
      RunContinues(Apply(s, requests[0]).0, requests[1..]);
      LaterThroughStep(s, requests);
    }
  }

  // What the two ends of a run say about one record.
  lemma RecordOverRun(s: State, requests: seq<Request>, key: PublicationKey)
    requires Inv(s) && (forall r :: r in requests ==> r.Valid()) && key in s.records
    ensures key in Run(s, requests).records
    ensures var o, u := s.records[key], Run(s, requests).records[key];
      Continues(o, u, s.sequence) && SnapshotOk(o) && SnapshotOk(u) && FencedOnce(u)
    ensures forall rc :: rc in s.records[key].receipts ==> rc.sequence <= s.sequence
  {
    RunContinues(s, requests);
    RunKeepsInv(s, requests);
    forall rc | rc in s.records[key].receipts ensures rc.sequence <= s.sequence {
      assert Filed(s, key, rc);
    }
  }

  // ------------------------------------------------------------------------
  // After the fence

  lemma {:induction false} FindInPrefix(a: seq<Receipt>, b: seq<Receipt>, stage: Stage)
    requires a <= b
    ensures FindReceipt(a, stage).Some? ==> FindReceipt(b, stage) == FindReceipt(a, stage)
    ensures FindReceipt(a, stage).None? && FindReceipt(b, stage).Some? ==>
              exists i :: |a| <= i < |b| && b[i] == FindReceipt(b, stage).value
  {
    if a != [] {
      FindInPrefix(a[1..], b[1..], stage);
      if FindReceipt(a, stage).None? && FindReceipt(b, stage).Some? {
        var i :| |a[1..]| <= i < |b[1..]| && b[1..][i] == FindReceipt(b[1..], stage).value;
        assert b[i + 1] == FindReceipt(b, stage).value;
      }
    } else {
      FindReceiptMember(b, stage);
    }
  }

  lemma StagesContinue(o: Snapshot, u: Snapshot, n: nat, stage: Stage)
    requires Continues(o, u, n)
    ensures o.Has(stage) ==> u.At(stage) == o.At(stage)
    ensures !o.Has(stage) && u.Has(stage) ==> u.At(stage).value.sequence > n
  {
    FindInPrefix(o.receipts, u.receipts, stage);
  }

  /** A fenced publication only ever gains TERMINAL, ADOPTED and RETIRED receipts. */
  lemma AfterFence(s: State, requests: seq<Request>, key: PublicationKey, stage: Stage)
    requires Inv(s) && forall r :: r in requests ==> r.Valid()
    requires key in s.records && s.records[key].fence.Some?
    ensures key in Run(s, requests).records
    ensures Run(s, requests).records[key].Has(stage) && !s.records[key].Has(stage) ==>
      stage in {Terminal, Adopted, Retired}
  {
    RecordOverRun(s, requests, key);
    var o, u := s.records[key], Run(s, requests).records[key];
    StagesContinue(o, u, s.sequence, stage);
    StagesContinue(o, u, s.sequence, Fenced);
    FindReceiptMember(o.receipts, Fenced);
  }

  /** Once retired, a record's edges stay out of the active graph for every run. */
  lemma RetiredStaysOut(s: State, requests: seq<Request>, key: PublicationKey)
    requires Inv(s) && forall r :: r in requests ==> r.Valid()
    requires key in s.records && s.records[key].Has(Retired)
    ensures key in Run(s, requests).records && !Run(s, requests).records[key].GraphActive()
  {
    RecordOverRun(s, requests, key);
    StagesContinue(s.records[key], Run(s, requests).records[key], s.sequence, Retired);
  }

  /** Decisions that exclude each other in every reachable state. */
  lemma Exclusions(s: State, key: PublicationKey)
    requires Inv(s) && key in s.records
    ensures var u := s.records[key];
      && (u.adoption.Some? && u.fence.Some? ==>
            !u.fence.value.OwnerAbort? && u.At(Committed).value.sequence < u.At(Fenced).value.sequence)
      && (u.closed.Some? && u.closed.value.scope.Some? ==> u.complete.None? && u.adoption.None?)
      && (u.closed.Some? ==> u.fence.Some?)
  {
    var u := s.records[key];
    assert SnapshotOk(u) && FencedOnce(u);
    assert Committed in {Intent, PreparedGraph, Armed, Committed};
  }

  // ------------------------------------------------------------------------
  // Totality

  // What constructing a reply checks.
  ghost predicate ReplyOk(r: Request, reply: Reply) {
    && (reply.snapshot.Some? ==> reply.snapshot.value.Ref() == r.Ref() && SnapshotOk(reply.snapshot.value))
    && (reply.receipt.Some? ==> reply.snapshot.Some? && reply.receipt.value in reply.snapshot.value.receipts)
    && (reply.accepted ==> reply.error.None?)
    && (reply.accepted && !r.GetPublication? ==> reply.receipt.Some? && reply.receipt.value.stage == r.StageOf())
    && (!reply.accepted ==> reply.error.Some? && reply.receipt.None?)
  }

  // An unchanged state answers from the record it already has.
  lemma UnchangedAnswer(s: State, r: Request)
    requires Apply(s, r).0 == s
    ensures var reply := Apply(s, r).1;
      && (reply.snapshot.Some? ==> reply.snapshot == Lookup(s, r.Ref().key) && reply.snapshot.value.Ref() == r.Ref())
      && (reply.receipt.Some? ==>
            reply.snapshot.Some? && !r.GetPublication? && reply.receipt == reply.snapshot.value.At(r.StageOf()))
      && (reply.accepted ==> reply.error.None? && (r.GetPublication? || reply.receipt.Some?))
      && (!reply.accepted ==> reply.error.Some? && reply.receipt.None?)
  {
  }

  lemma UnchangedReply(s: State, r: Request)
    requires Apply(s, r).0 == s
    requires r.Ref().key in s.records ==> SnapshotOk(s.records[r.Ref().key])
    ensures ReplyOk(r, Apply(s, r).1)
  {
    UnchangedAnswer(s, r);
    var reply := Apply(s, r).1;
    if reply.receipt.Some? {
      FindReceiptMember(reply.snapshot.value.receipts, r.StageOf());
    }
  }

  lemma UnchangedAccepted(s: State, r: Request)
    requires Apply(s, r).0 == s && !r.GetPublication? && Apply(s, r).1.accepted
    ensures r.Ref().key in s.records
    ensures var u := s.records[r.Ref().key];
      && u.Ref() == r.Ref() && u.Has(r.StageOf()) && Guard(s, u, r) == None
      && (r.BeginPublication? || r.FencePublication? ==> u.publication == r.publication)
      && Apply(s, r).1.receipt == u.At(r.StageOf())
  {
  }

  lemma RecordedReply(s: State, base: Snapshot, r: Request)
    requires BaseFor(s, r, base) && !base.Has(r.StageOf()) && SnapshotOk(Recorded(s, base, r))
    ensures ReplyOk(r, Reply(true, Some(Recorded(s, base, r)), Recorded(s, base, r).At(r.StageOf()), None))
  {
    RecordedAt(s, base, r, r.StageOf());
    FindReceiptMember(Recorded(s, base, r).receipts, r.StageOf());
  }

  lemma AcceptedReply(s: State, base: Snapshot, r: Request)
    requires Inv(s) && r.Valid() && BaseFor(s, r, base) && Guard(s, base, r) == None && !base.Has(r.StageOf())
    ensures ReplyOk(r, Reply(true, Some(Recorded(s, base, r)), Recorded(s, base, r).At(r.StageOf()), None))
  {
    PriorFacts(s, r, base);
    RecordedIsOk(s, r, base);
    RecordedReply(s, base, r);
  }

  /** Every well-formed request gets a well-formed reply whose snapshot can be
      rebuilt, and a refusal leaves the authority untouched. */
  lemma ApplyIsTotal(s: State, r: Request)
    requires Inv(s) && r.Valid()
    ensures ReplyOk(r, Apply(s, r).1)
    ensures !Apply(s, r).1.accepted ==> Apply(s, r).0 == s
  {
    var base := ApplyShape(s, r);
    if Apply(s, r).0 != s {
      AcceptedReply(s, base, r);
    } else {
      UnchangedReply(s, r);
    }
  }

  // The authority's answer to an accepted mutation is the record it now files.
  lemma AcceptedSnapshot(g: State, r: Request)
    requires Keyed(g) && !r.GetPublication? && Apply(g, r).1.accepted
    ensures r.Ref().key in Apply(g, r).0.records
    ensures Apply(g, r).1.snapshot == Some(Apply(g, r).0.records[r.Ref().key])
    ensures forall k :: k in Apply(g, r).0.records && k != r.Ref().key ==>
              k in g.records && Apply(g, r).0.records[k] == g.records[k]
  {
    var base := ApplyShape(g, r);
    if Apply(g, r).0 == g {
      UnchangedFiles(g, r);
    }
  }

  lemma UnchangedFiles(g: State, r: Request)
    requires !r.GetPublication? && Apply(g, r).1.accepted && Apply(g, r).0 == g
    ensures r.Ref().key in g.records && Apply(g, r).1.snapshot == Some(g.records[r.Ref().key])
  {
  }

  lemma RefusedUnchanged(g: State, r: Request)
    requires r.GetPublication? || !Apply(g, r).1.accepted
    ensures Apply(g, r).0 == g
  {
  }

  // ------------------------------------------------------------------------
  // Replay

  // The record already carries everything the mutation would write.
  ghost predicate Established(u: Snapshot, r: Request) {
    && !r.GetPublication?
    && u.Ref() == r.Ref() && u.Has(r.StageOf()) && WithFact(u, r) == u
    && (r.BeginPublication? || r.FencePublication? ==> u.publication == r.publication)
    && (r.CommitGraph? ==> (r.putPrepared.Some? <==> u.publication.PutPublication?))
  }

  lemma RecordedIsEstablished(s: State, base: Snapshot, r: Request)
    requires r.Valid() && BaseFor(s, r, base) && Guard(s, base, r) == None && !base.Has(r.StageOf())
    ensures Established(Recorded(s, base, r), r)
  {
    RecordedAt(s, base, r, r.StageOf());
  }

  lemma GuardedIsEstablished(s: State, u: Snapshot, r: Request)
    requires !r.GetPublication? && u.Ref() == r.Ref() && u.Has(r.StageOf()) && Guard(s, u, r) == None && FactsOk(u)
    requires r.Valid()
    requires r.BeginPublication? || r.FencePublication? ==> u.publication == r.publication
    ensures Established(u, r)
  {
    match r
    case CommitGraph(_, put) => assert u.publication.PutPublication? ==> u.prepared == put;
    case RecordAdoption(proof) => assert u.adoption == Some(proof);
    case FencePublication(_, fence) => assert u.fence == Some(fence);
    case RetireGraph(closed) => assert u.closed == Some(closed);
    case ArmTask(prepared) => assert u.prepared == Some(prepared);
    case RecordTerminal(complete) => assert u.complete == Some(complete);
    case _ =>
  }

  lemma AcceptedIsEstablished(s: State, r: Request)
    requires Keyed(s) && r.Valid() && !r.GetPublication? && Apply(s, r).1.accepted
    ensures r.Ref().key in Apply(s, r).0.records
    ensures var u := Apply(s, r).0.records[r.Ref().key];
      Established(u, r) && Apply(s, r).1.receipt == u.At(r.StageOf())
  {
    var base := ApplyShape(s, r);
    if Apply(s, r).0 != s {
      RecordedIsEstablished(s, base, r);
    } else {
      UnchangedAccepted(s, r);
      GuardedIsEstablished(s, s.records[r.Ref().key], r);
    }
  }

  lemma EstablishedContinues(o: Snapshot, u: Snapshot, n: nat, r: Request)
    requires Established(o, r) && Continues(o, u, n) && FactsOk(o)
    ensures Established(u, r)
  {
    StagesContinue(o, u, n, r.StageOf());
  }

  // Requests that ask for forward permission, which a fence withdraws.
  predicate AsksForward(r: Request) {
    r.BeginPublication? || r.PrepareGraph? || r.ArmTask?
  }

  lemma EstablishedGuard(s: State, u: Snapshot, r: Request)
    requires Established(u, r) && r.Valid() && SnapshotOk(u) && FencedOnce(u)
    ensures Guard(s, u, r).None? <==> (AsksForward(r) ==> u.fence.None?)
  {
  }

  lemma ApplyEstablished(s: State, r: Request)
    requires r.Valid() && !r.GetPublication? && r.Ref().key in s.records
    requires var u := s.records[r.Ref().key]; Established(u, r) && SnapshotOk(u) && FencedOnce(u)
    ensures var u := s.records[r.Ref().key];
      && Apply(s, r).0 == s
      && (Apply(s, r).1.accepted <==> (AsksForward(r) ==> u.fence.None?))
      && (Apply(s, r).1.accepted ==> Apply(s, r).1.receipt == u.At(r.StageOf()))
  {
    EstablishedGuard(s, s.records[r.Ref().key], r);
  }

  /** Main result: an accepted mutation, replayed after any run, changes nothing
      and is answered with its original receipt, unless it asks for forward
      permission and the publication has been fenced since. */
  lemma ReplayIsExact(s: State, r: Request, requests: seq<Request>)
    requires Inv(s) && r.Valid() && !r.GetPublication? && forall q :: q in requests ==> q.Valid()
    requires Apply(s, r).1.accepted
    ensures var t := Run(Apply(s, r).0, requests);
      && r.Ref().key in t.records
      && Apply(t, r).0 == t
      && (Apply(t, r).1.accepted <==> (AsksForward(r) ==> t.records[r.Ref().key].fence.None?))
      && (Apply(t, r).1.accepted ==> Apply(t, r).1.receipt == Apply(s, r).1.receipt)
  {
    AcceptedIsEstablished(s, r);
    ApplyKeepsInv(s, r);
    EstablishedOverRun(Apply(s, r).0, r, requests);
    ApplyEstablished(Run(Apply(s, r).0, requests), r);
  }

  lemma EstablishedOverRun(s: State, r: Request, requests: seq<Request>)
    requires Inv(s) && !r.GetPublication? && (forall q :: q in requests ==> q.Valid()) && r.Ref().key in s.records
    requires Established(s.records[r.Ref().key], r)
    ensures var t := Run(s, requests);
      r.Ref().key in t.records && var u := t.records[r.Ref().key];
      Established(u, r) && SnapshotOk(u) && FencedOnce(u) && u.At(r.StageOf()) == s.records[r.Ref().key].At(r.StageOf())
  {
    RecordOverRun(s, requests, r.Ref().key);
    var o, u := s.records[r.Ref().key], Run(s, requests).records[r.Ref().key];
    EstablishedContinues(o, u, s.sequence, r);
    StagesContinue(o, u, s.sequence, r.StageOf());
  }
}
