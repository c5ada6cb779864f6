/** What each successful drive of a death cleanup achieves, and that every cleanup
    whose publishing Node can still be asked, or is known to have exited, can be
    finished. */
module OutboxDrives {
  import opened Ids
  import opened PublicationFacts
  import opened PublicationAuthority
  import opened PublicationInvariants
  import opened PublicationHistory
  import J = PublicationJournal
  import opened PublicationSettlement
  import opened DeathOutbox

  // ------------------------------------------------------------------------
  // The effect of one drive

  // The entry with the Node's part behind it.
  function PastNode(w: Cleanup): Cleanup { w.(nodeFinalized := w.nodeFinalized || w.publication.TaskPublication?) }

  // The entry once its next hold has an answer.
  function Resolving(w: Cleanup, m: Membership, key: HoldKey, e: Weather): Cleanup {
    match OwnerDeathOf(m, key.owner)
    case Some(death) => PastNode(w).(childDeaths := w.childDeaths + [death])
    case None => if e.released.Some? then PastNode(w).(releases := w.releases + [e.released.value]) else PastNode(w)
  }

  lemma PendingIs(w: Cleanup)
    ensures Pending(w) <==> NextNeeded(Requests(w.publication.transfers), w).Some?
    ensures forall key, other :: Needs(w, key) && Needs(w, other) ==> key == other
  {
    var keys := Requests(w.publication.transfers);
    NeedsIs(w, keys);
    if NextNeeded(keys, w).Some? { assert Needs(w, NextNeeded(keys, w).value); }
  }

  lemma SettleResolves(c: Control, m: Membership, ref: PublicationRef, w: Cleanup, key: HoldKey, e: Weather)
    requires w.closed.None? && Needs(w, key) && HoldAnswered(w, m, e)
    ensures Settle(c, m, ref, w, e) ==
      (c.(work := c.work[ref := if OwnerDeathOf(m, key.owner).Some?
                                then w.(childDeaths := w.childDeaths + [OwnerDeathOf(m, key.owner).value])
                                else w.(releases := w.releases + [e.released.value])]), true)
  {
    hide Retire, OwnerDeathOf;
    NeedsIs(w, Requests(w.publication.transfers));
  }

  lemma SettleCloses(c: Control, m: Membership, ref: PublicationRef, w: Cleanup, e: Weather)
    requires w.closed.Some? || !Pending(w)
    ensures Settle(c, m, ref, w, e) ==
      Retire(c, ref, if w.closed.Some? then w else w.(closed := Some(Gathered(ref, w))), e)
  {
    hide Retire, OwnerDeathOf;
    PendingIs(w);
  }

  /** Main result: a successful drive takes exactly the next step of the cleanup. It
      notes the fence or the finalization of the living Node, or one committed death or
      release for the first hold without an answer; and when every hold has one, the
      gathered evidence retires the graph and the cleanup is finished. */
  lemma DriveTakesNextStep(c: Control, m: Membership, ref: PublicationRef, e: Weather)
    requires ControlInv(c, m) && ref in c.work && !c.work[ref].finished && Willing(c.work[ref], m, ref, e)
    ensures var (t, done), w := Drive(c, m, ref, e), c.work[ref];
      && done && ref in t.work && t.work == c.work[ref := t.work[ref]] && t.admissionClosed == c.admissionClosed
      && (NodeAsked(w, m) ==>
            t.gcs == c.gcs && t.work[ref] == if !w.nodeFenced then w.(nodeFenced := true)
                                             else w.(closed := e.finalized, nodeFinalized := true))
      && (!NodeAsked(w, m) && w.closed.None? ==> forall key :: Needs(w, key) ==>
            t.gcs == c.gcs && t.work[ref] == Resolving(w, m, key, e))
      && (!NodeAsked(w, m) && (w.closed.Some? || !Pending(w)) ==>
            && t.work[ref] == PastNode(w).(finished := true,
                                           closed := if w.closed.Some? then w.closed else Some(Gathered(ref, w)))
            && ref.key in t.gcs.records && t.gcs.records[ref.key].Has(Retired)
            && t.gcs.records.Keys == c.gcs.records.Keys && Calm(c.gcs, t.gcs))
  {
    hide ControlInv, WorkOk, Filing, Willing, Honest, Drive, AskNode, Settle, Retire, Needs, NodeAsked, NodeDone,
      Confirmed, Calm, RetiredBy, OwnerDeathOf;
    var w := c.work[ref];
    WorkIsOk(c, m, ref);
    WillingParts(w, m, ref, e);
    WillingIsDone(c, m, ref, e);
    DriveTurns(c, m, ref, e);
    FinalizedIsOk(c.gcs, m, ref, w);
    if NodeAsked(w, m) {
      AskNotes(c, m, ref, e);
    } else {
      SameNeeds(w, PastNode(w));
      if w.closed.Some? || !Pending(w) {
        DriveCloses(c, m, ref, e);
      } else {
        PendingIs(w);
        var key :| Needs(w, key);
        SettleResolves(c, m, ref, PastNode(w), key, e);
      }
    }
  }

  lemma DriveCloses(c: Control, m: Membership, ref: PublicationRef, e: Weather)
    requires ControlInv(c, m) && ref in c.work && !c.work[ref].finished && !e.sweeping
    requires c.work[ref].closed.Some? || !Pending(c.work[ref])
    ensures var (t, done), w := Settle(c, m, ref, PastNode(c.work[ref]), e), c.work[ref];
      && done && ref in t.work && t.work == c.work[ref := t.work[ref]] && t.admissionClosed == c.admissionClosed
      && t.work[ref] == PastNode(w).(finished := true,
                                     closed := if w.closed.Some? then w.closed else Some(Gathered(ref, w)))
      && ref.key in t.gcs.records && t.gcs.records[ref.key].Has(Retired)
      && t.gcs.records.Keys == c.gcs.records.Keys && Calm(c.gcs, t.gcs)
  {
    hide ControlInv, WorkOk, Filing, Settle, Retire, Needs, Pending, Calm, RetiredBy, RetiredState;
    var w := c.work[ref];
    WorkIsOk(c, m, ref);
    FinalizedIsOk(c.gcs, m, ref, w);
    SameNeeds(w, PastNode(w));
    SettleCloses(c, m, ref, PastNode(w), e);
    var last := if w.closed.Some? then PastNode(w) else PastNode(w).(closed := Some(Gathered(ref, PastNode(w))));
    if w.closed.None? { ClosingIsOk(c, m, ref, PastNode(w)); }
    WorkNames(c.gcs, m, ref, w);
    RetireDrives(c, m, ref, last, e);
    RetireIs(c, m, ref, last, e);
  }

  lemma ClosingIsOk(c: Control, m: Membership, ref: PublicationRef, w: Cleanup)
    requires WorkOk(c.gcs, m, ref, w) && MembershipOk(m) && w.closed.None? && !Pending(w)
    ensures WorkOk(c.gcs, m, ref, w.(closed := Some(Gathered(ref, w))))
  {
    hide WorkOk, Progress;
    PendingIs(w);
    GatheredIsOk(c.gcs, m, ref, w);
  }

  lemma WillingParts(w: Cleanup, m: Membership, ref: PublicationRef, e: Weather)
    requires Willing(w, m, ref, e)
    ensures Honest(w, e) && (NodeAsked(w, m) || NodeDone(w, m))
    ensures !NodeAsked(w, m) && w.closed.None? && Pending(w) ==> HoldAnswered(w, m, e)
    ensures !NodeAsked(w, m) && !(w.closed.None? && Pending(w)) ==> !e.sweeping
    ensures NodeAsked(w, m) && !w.nodeFenced ==> e.fenced
    ensures NodeAsked(w, m) && w.nodeFenced ==> e.finalized.Some?
  {
  }

  lemma AskNotes(c: Control, m: Membership, ref: PublicationRef, e: Weather)
    requires ref in c.work && AskNode(c.work[ref], m, ref, e).1
    ensures AskNode(c.work[ref], m, ref, e).0 ==
      if !c.work[ref].nodeFenced then c.work[ref].(nodeFenced := true)
      else c.work[ref].(closed := e.finalized, nodeFinalized := true)
  {
  }

  // ------------------------------------------------------------------------
  // Every answerable cleanup can be finished

  // The answers of children that are all alive and released every hold.
  function AllFreed(p: Publication): map<J.Step, J.CleanupReply> {
    map s | s in EveryRelease(|p.transfers|) && (s.FinalRelease? || s.ProvisionalRelease?) && s.index < |p.transfers|
      :: J.Freed(Release(J.HoldOf(p, s), true))
  }

  lemma {:induction false} NobodyDied(replies: seq<J.CleanupReply>)
    requires forall r :: r in replies ==> r.Freed?
    ensures J.DeathsOf(replies) == []
  {
    if replies == [] {
    } else {
      assert replies[|replies| - 1] in replies;
      NobodyDied(replies[..|replies| - 1]);
    }
  }

  lemma {:induction false} AllAreFreed(steps: seq<J.Step>, answers: map<J.Step, J.CleanupReply>)
    requires forall s :: s in answers ==> answers[s].Freed?
    ensures forall r :: r in J.Cleanups(steps, answers) ==> r.Freed?
  {
    if steps == [] {
    } else {
      AllAreFreed(steps[1..], answers);
    }
  }

  lemma FreedFits(p: Publication, i: nat)
    requires i < |p.transfers|
    ensures J.FinalRelease(i) in AllFreed(p) && J.ProvisionalRelease(i) in AllFreed(p)
    ensures J.CleanupFits(p, J.FinalRelease(i), Some(AllFreed(p)[J.FinalRelease(i)]))
    ensures J.CleanupFits(p, J.ProvisionalRelease(i), Some(AllFreed(p)[J.ProvisionalRelease(i)]))
  {
    var n := |p.transfers|;
    assert EveryRelease(n)[i] == J.FinalRelease(i) && EveryRelease(n)[n + i] == J.ProvisionalRelease(i);
  }

  lemma FreedIsHonest(p: Publication)
    requires p.Valid() && NoAlias(p)
    ensures var closed := OwnerDeathClosed(p, AllFreed(p));
      closed.Valid() && closed.deaths == [] && BuiltFromAnswers(p, closed)
  {
    hide NoAlias, FreedTwice, J.CleanupFits, EveryRelease;
    var answers, n := AllFreed(p), |p.transfers|;
    assert EveryReleaseAnswered(p, answers) by {
      forall i: nat | i < n { FreedFits(p, i); }
    }
    AllAreFreed(EveryRelease(n), answers);
    NobodyDied(J.Cleanups(EveryRelease(n), answers));
    OwnerDeathIsWellFormed(p, answers);
  }

  // The publishing Node can be asked and will have well-formed evidence, or needs no asking.
  ghost predicate Answerable(w: Cleanup, m: Membership) {
    if NodeAsked(w, m) then w.publication.Valid() && NoAlias(w.publication) else NodeDone(w, m)
  }

  // The calls that answer the next step.
  lemma WillingExists(w: Cleanup, m: Membership, ref: PublicationRef) returns (e: Weather)
    requires Answerable(w, m)
    ensures Willing(w, m, ref, e)
  {
    hide NodeDone, NodeAsked, BuiltFromAnswers, OwnerDeathClosed, Confirmed, NoAlias, Needs, AllFreed;
    if NodeAsked(w, m) {
      FreedIsHonest(w.publication);
      e := Weather(true, Some(OwnerDeathClosed(w.publication, AllFreed(w.publication))), None, false);
    } else {
      e := Weather(true, None, None, false);
      if Pending(w) {
        var key :| Needs(w, key);
        e := Weather(true, None, Some(Release(key, true)), false);
        PendingIs(w);
      }
    }
  }

  // After a drive the Node is still there, or has done its part.
  lemma StaysAnswerable(c: Control, m: Membership, ref: PublicationRef, e: Weather)
    requires ControlInv(c, m) && ref in c.work && !c.work[ref].finished && Willing(c.work[ref], m, ref, e)
    requires Answerable(c.work[ref], m)
    ensures ref in Drive(c, m, ref, e).0.work && Answerable(Drive(c, m, ref, e).0.work[ref], m)
  {
    hide ControlInv, Drive, Willing, NoAlias, Needs, Resolving;
    DriveTakesNextStep(c, m, ref, e);
    var w := c.work[ref];
    if !NodeAsked(w, m) && w.closed.None? && Pending(w) {
      var key :| Needs(w, key);
      ResolvingKeeps(w, m, key, e);
    }
  }

  lemma ResolvingKeeps(w: Cleanup, m: Membership, key: HoldKey, e: Weather)
    ensures Resolving(w, m, key, e).publication == w.publication
    ensures Resolving(w, m, key, e).nodeFinalized == PastNode(w).nodeFinalized
  {
  }

  /** Main result: every queued cleanup whose publishing Node lives, or has exited,
      can be finished with at most as many drives as remain: some answers of the outside
      lead to the retirement of its graph. */
  lemma {:induction false} CleanupCanFinish(c: Control, m: Membership, ref: PublicationRef)
      returns (events: seq<Event>, t: Control)
    requires ControlInv(c, m) && ref in c.work && Answerable(c.work[ref], m)
    ensures Reaches(c, m, events, t, m) && |events| <= Remaining(c.work[ref])
    ensures forall e :: e in events ==> e.Drives? && e.reference == ref
    ensures ref in t.work && t.work[ref].finished && ref.key in t.gcs.records && t.gcs.records[ref.key].Has(Retired)
    decreases Remaining(c.work[ref])
  {
    hide ControlInv, Answerable, Willing, Drive, Remaining, Honest;
    if c.work[ref].finished {
      events, t := [], c;
      FinishedIsRetired(c, m, ref);
    } else {
      var e := WillingExists(c.work[ref], m, ref);
      WillingParts(c.work[ref], m, ref, e);
      StaysAnswerable(c, m, ref, e);
      var drive := Drives(ref, e);
      NextKeepsInv(c, m, drive);
      StepRemains(c, m, drive, ref);
      var rest, end := CleanupCanFinish(Drive(c, m, ref, e).0, m, ref);
      events, t := [drive] + rest, end;
      assert events[1..] == rest;
    }
  }
}
