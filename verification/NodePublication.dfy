/** The publishing Node and the GCS together: journal calls, requests that may
    be lost, repeated or delayed, and everyone else's traffic, in any order. */
module NodePublication {
  import opened Ids
  import opened PublicationFacts
  import opened PublicationAuthority
  import opened PublicationInvariants
  import opened PublicationHistory
  import J = PublicationJournal
  import opened PublicationSettlement

  // ------------------------------------------------------------------------
  // The system

  // `sent` and `answers` only grow: a message may be delivered again, late or
  // never. `deaths` is the membership's one death record per worker.
  datatype System = System(gcs: State, journal: J.Record, sent: set<Request>, answers: set<J.Answer>,
                           deaths: map<WorkerID, Death>)

  datatype Event =
    | Journal(move: J.Move)
    | Send(request: Request)
    | Deliver(delivered: Request)
    | Elsewhere(foreign: Request)
    | WorkerDies(death: Death)

  // What the Node's adapter lets its journal do.
  ghost predicate MoveAllowed(s: System, move: J.Move) {
    && move.Valid()
    && (move.Records? ==> move.request in s.sent && move.answer in s.answers)
    && (move.AcksRollback? ==> Fenced in s.journal.receipts)
    && (move.AcksRollback? && move.reply.Some? && move.reply.value.OwnerGone? ==>
          move.reply.value.death.Unexpected() && Known(s.deaths, move.reply.value.death))
  }

  ghost predicate Known(deaths: map<WorkerID, Death>, death: Death) {
    death.worker in deaths && deaths[death.worker] == death
  }

  // What the adapter sends, and from which journal state.
  ghost predicate MaySend(rec: J.Record, r: Request)
    requires rec.publication.TaskPublication? && J.Evident(rec)
  {
    match r
    case BeginPublication(publication) => publication == rec.publication
    case PrepareGraph(reference) => reference == rec.Ref()
    case ArmTask(prepared) => J.Preparation(rec) == J.Ok(prepared)
    case RecordTerminal(complete) => rec.complete == Some(complete)
    case FencePublication(publication, fence) =>
      publication == rec.publication && FenceMatches(publication, fence) && (fence.OwnerDeath? || rec.rollback.Some?)
    case RetireGraph(closed) => closed.Valid() && J.ClosedRollback(rec) == J.Ok(closed)
    case _ => false
  }

  // Everyone else: only this Node arms its publication, and an owner reports
  // its Complete only once the Node has reached it.
  ghost predicate MayOthersSend(s: System, r: Request) {
    && r.Valid()
    && (r.Ref().key == s.journal.publication.Key() ==>
          !r.ArmTask? && (r.RecordTerminal? ==> s.journal.complete == Some(r.complete)))
  }

  ghost predicate Enabled(s: System, e: Event)
    requires s.journal.publication.TaskPublication? && J.Evident(s.journal)
  {
    match e
    case Journal(move) => MoveAllowed(s, move)
    case Send(r) => MaySend(s.journal, r)
    case Deliver(r) => r in s.sent
    case Elsewhere(r) => MayOthersSend(s, r)
    case WorkerDies(d) => d.worker !in s.deaths
  }

  ghost function Next(s: System, e: Event): System
    requires s.journal.publication.TaskPublication? && J.Evident(s.journal)
  {
    match e
    case Journal(move) => s.(journal := J.Act(s.journal, move))
    case Send(r) => s.(sent := s.sent + {r})
    case Deliver(r) => s.(gcs := Apply(s.gcs, r).0, answers := s.answers + {J.Answer(r, Apply(s.gcs, r).1)})
    case Elsewhere(r) => s.(gcs := Apply(s.gcs, r).0)
    case WorkerDies(d) => s.(deaths := s.deaths[d.worker := d])
  }

  function Start(publication: Publication): System {
    System(EMPTY, J.Opened(publication), {}, {}, map[])
  }

  // ------------------------------------------------------------------------
  // What holds in every interleaving

  // Every pin and the payload were possible effects.
  ghost predicate FullIntents(rec: J.Record) {
    J.Materialize in rec.intents
    && forall i: nat :: i < rec.Count() ==> J.Prepare(i) in rec.intents && J.Promote(i) in rec.intents
  }

  ghost predicate SentSound(s: System) {
    forall r :: r in s.sent ==> SentOk(s.journal, r)
  }

  ghost predicate SentOk(rec: J.Record, r: Request) {
    && r.Valid() && !r.GetPublication? && r.Ref() == rec.Ref()
    && (r.BeginPublication? || r.FencePublication? ==> r.publication == rec.publication)
    && (r.ArmTask? ==> FullIntents(rec) && CheckPrepared(rec.publication, r.prepared) == None)
    && (r.RecordTerminal? ==> rec.complete == Some(r.complete))
  }

  // An accepted answer to a sent request names a fact the GCS still has.
  ghost predicate AnswersSound(s: System) {
    forall a :: a in s.answers ==> a.request in s.sent && AnswerOk(s.gcs, a)
  }

  ghost predicate AnswerOk(g: State, a: J.Answer) {
    a.reply.accepted ==>
      && !a.request.GetPublication? && a.request.Ref().key in g.records
      && Established(g.records[a.request.Ref().key], a.request)
      && a.reply.receipt == g.records[a.request.Ref().key].At(a.request.StageOf())
  }

  ghost predicate RecordSound(g: State, rec: J.Record) {
    && (forall st :: st in rec.receipts ==> HasReceipt(g, rec.publication.Key(), st, rec.receipts[st]))
    && (Fenced in rec.receipts ==>
          rec.publication.Key() in g.records && g.records[rec.publication.Key()].publication == rec.publication
          && g.records[rec.publication.Key()].fence.Some?)
    && (rec.publication.Key() in g.records ==>
          && (g.records[rec.publication.Key()].prepared.Some? ==> FullIntents(rec))
          && (g.records[rec.publication.Key()].complete.Some? ==> rec.complete.Some?))
  }

  // The journal's receipts are the authority's own.
  ghost predicate HasReceipt(g: State, key: PublicationKey, stage: Stage, receipt: Receipt) {
    key in g.records && g.records[key].At(stage) == Some(receipt)
  }

  ghost predicate DeathsSound(s: System) {
    forall st :: st in s.journal.cleanups && s.journal.cleanups[st].OwnerGone? ==>
      s.journal.cleanups[st].death.Unexpected() && Known(s.deaths, s.journal.cleanups[st].death)
  }

  ghost predicate SysInv(s: System) {
    && J.Sound(s.journal) && Inv(s.gcs)
    && SentSound(s) && AnswersSound(s) && RecordSound(s.gcs, s.journal) && DeathsSound(s)
  }

  lemma SysInvMeans(s: System)
    requires SysInv(s)
    ensures s.journal.publication.TaskPublication? && s.journal.publication.Valid() && J.Evident(s.journal)
    ensures Keyed(s.gcs)
  {
    hide SentSound, AnswersSound, RecordSound, DeathsSound;
  }

  // ------------------------------------------------------------------------
  // A journal call keeps it

  lemma SentOkOutlives(rec: J.Record, next: J.Record, r: Request)
    requires SentOk(rec, r) && J.Outlives(rec, next)
    ensures SentOk(next, r)
  {
  }

  lemma FenceAnswer(g: State, rec: J.Record, a: J.Answer)
    requires Keyed(g) && AnswerOk(g, a) && SentOk(rec, a.request)
    requires a.reply.accepted && a.reply.receipt.Some? && a.reply.receipt.value.stage == Fenced
    ensures rec.publication.Key() in g.records && g.records[rec.publication.Key()].publication == rec.publication
    ensures g.records[rec.publication.Key()].fence.Some?
  {
    var u := g.records[a.request.Ref().key];
    FindReceiptMember(u.receipts, a.request.StageOf());
    assert a.request.FencePublication?;
  }

  // An accepted answer carries the authority's receipt.
  lemma AnswerHasReceipt(g: State, rec: J.Record, a: J.Answer)
    requires AnswerOk(g, a) && SentOk(rec, a.request) && a.reply.accepted && a.reply.receipt.Some?
    ensures HasReceipt(g, rec.publication.Key(), a.reply.receipt.value.stage, a.reply.receipt.value)
  {
    FindReceiptMember(g.records[a.request.Ref().key].receipts, a.request.StageOf());
  }

  lemma RecordSoundOutlives(g: State, rec: J.Record, next: J.Record)
    requires RecordSound(g, rec) && J.Outlives(rec, next)
    requires forall st :: st in next.receipts ==> HasReceipt(g, next.publication.Key(), st, next.receipts[st])
    requires Fenced in next.receipts && Fenced !in rec.receipts ==>
      rec.publication.Key() in g.records && g.records[rec.publication.Key()].publication == rec.publication
      && g.records[rec.publication.Key()].fence.Some?
    ensures RecordSound(g, next)
  {
  }

  // Only recording an answer adds a receipt, and a cleanup reply is the only new evidence.
  lemma ActAdds(rec: J.Record, move: J.Move)
    requires rec.publication.TaskPublication? && J.Evident(rec)
    ensures var next := J.Act(rec, move);
      && (forall st :: st in next.receipts && st !in rec.receipts ==>
            move.Records? && move.answer.request == move.request && move.answer.reply.accepted
            && move.answer.reply.receipt == Some(next.receipts[st]) && next.receipts[st].stage == st)
      && (forall st | st in next.cleanups :: (st in rec.cleanups && next.cleanups[st] == rec.cleanups[st])
                                          || (move.AcksRollback? && move.reply == Some(next.cleanups[st])))
  {
    hide J.Evident, J.RecordReply, J.AckForward, J.BeginRollback, J.AckRollback, J.FinishRollback, J.NextRollback;
    match move
    case Acks(ack, evidence) => J.AckForwardIs(rec, ack, evidence);
    case Records(request, answer, stage, forward) =>
      J.RecordReplyIs(rec, request, answer, stage, forward);
      RecordedReply(rec, request, answer, stage, forward);
    case RollsBack(rollbackId) =>
      J.BeginRollbackIs(rec, rollbackId);
      J.FinishLeaves(J.Begun(rec, rollbackId));
    case AcksRollback(ack, reply) =>
      J.AckRollbackShape(rec, ack, reply);
      if rec.rollback.Some? { J.FinishLeaves(J.Acked(rec, ack, reply)); }
    case _ =>
  }

  lemma RecordedReply(rec: J.Record, request: Request, answer: J.Answer, stage: Stage, forward: bool)
    requires rec.publication.TaskPublication? && J.Evident(rec)
    ensures J.RecordReply(rec, request, answer, stage, forward).Ok? ==>
      && answer.request == request && answer.reply.accepted
      && answer.reply.receipt.Some? && answer.reply.receipt.value.stage == stage
  {
    hide J.Evident;
  }

  lemma JournalKeepsRecord(s: System, move: J.Move)
    requires J.Sound(s.journal) && Inv(s.gcs) && SentSound(s) && AnswersSound(s) && RecordSound(s.gcs, s.journal)
    requires MoveAllowed(s, move) && J.Outlives(s.journal, J.Act(s.journal, move))
    ensures RecordSound(s.gcs, J.Act(s.journal, move))
  {
    var next := J.Act(s.journal, move);
    ActAdds(s.journal, move);
    forall st | st in next.receipts ensures HasReceipt(s.gcs, next.publication.Key(), st, next.receipts[st]) {
      if st !in s.journal.receipts {
        AnswerHasReceipt(s.gcs, s.journal, move.answer);
      }
    }
    if Fenced in next.receipts && Fenced !in s.journal.receipts {
      FenceAnswer(s.gcs, s.journal, move.answer);
    }
    RecordSoundOutlives(s.gcs, s.journal, next);
  }

  lemma JournalKeepsInv(s: System, move: J.Move)
    requires SysInv(s) && MoveAllowed(s, move)
    ensures SysInv(Next(s, Journal(move)))
  {
    hide J.Sound, J.Act, Inv, SentOk, AnswerOk, RecordSound, J.Outlives;
    SysInvMeans(s);
    var t := Next(s, Journal(move));
    J.ActKeepsSound(s.journal, move);
    J.ActOutlives(s.journal, move);
    forall r | r in t.sent ensures SentOk(t.journal, r) {
      SentOkOutlives(s.journal, t.journal, r);
    }
    JournalKeepsRecord(s, move);
    ActAdds(s.journal, move);
  }

  // ------------------------------------------------------------------------
  // Sending keeps it

  /** The journal's own attestation passes the authority's check, and attests
      that every pin and the payload were intended. */
  lemma PreparationPasses(rec: J.Record, prepared: Prepared)
    requires J.Sound(rec) && J.Preparation(rec) == J.Ok(prepared)
    ensures FullIntents(rec) && prepared.Valid() && CheckPrepared(rec.publication, prepared) == None
  {
    J.PrepareBeforePromote(rec);
    var n, ts := rec.Count(), rec.publication.transfers;
    forall i: nat | i < n
      ensures J.Prepare(i) in rec.intents && J.Promote(i) in rec.intents
      ensures prepared.prepares[i].transfer == ts[i] && !prepared.prepares[i].promote
      ensures prepared.promotes[i].transfer == ts[i] && prepared.promotes[i].promote
    {
      assert J.Prepare(i) in rec.acks && J.Promote(i) in rec.acks;
    }
    assert PinnedTransfers(prepared.prepares) == ts && PinnedTransfers(prepared.promotes) == ts;
    forall i, j | 0 <= i < j < n ensures ts[i] != ts[j] {
      assert ts[i].FinalKey() != ts[j].FinalKey();
    }
  }

  lemma SendIsOk(rec: J.Record, r: Request)
    requires J.Sound(rec) && MaySend(rec, r)
    ensures SentOk(rec, r)
  {
    if r.ArmTask? {
      PreparationPasses(rec, r.prepared);
    }
  }

  lemma SendKeepsInv(s: System, r: Request)
    requires SysInv(s) && MaySend(s.journal, r)
    ensures SysInv(Next(s, Send(r)))
  {
    hide J.Sound, Inv, SentOk, AnswerOk, RecordSound, MaySend;
    SysInvMeans(s);
    SendIsOk(s.journal, r);
  }

  // ------------------------------------------------------------------------
  // The GCS handling a request keeps it

  // Which requests can give a Task record its preparation or its Complete.
  lemma RecordedAdds(g: State, base: Snapshot, r: Request)
    requires BaseFor(g, r, base) && base.publication.TaskPublication?
    ensures Recorded(g, base, r).prepared.Some? && base.prepared.None? ==> r.ArmTask?
    ensures Recorded(g, base, r).complete.Some? && base.complete.None? ==> r.RecordTerminal?
    ensures r.Ref().key !in g.records ==> base.prepared.None? && base.complete.None?
  {
  }

  lemma ApplyAdds(g: State, r: Request, key: PublicationKey)
    requires Keyed(g) && key.TaskKey? && key in Apply(g, r).0.records
    ensures var u := Apply(g, r).0.records[key];
      && (u.prepared.Some? && !(key in g.records && g.records[key].prepared.Some?) ==>
            r.ArmTask? && r.Ref().key == key)
      && (u.complete.Some? && !(key in g.records && g.records[key].complete.Some?) ==>
            r.RecordTerminal? && r.Ref().key == key)
  {
    var base := ApplyShape(g, r);
    if Apply(g, r).0 != g && r.Ref().key == key {
      RecordedAdds(g, base, r);
    }
  }

  lemma ApplyKeepsRecord(g: State, rec: J.Record, r: Request)
    requires Keyed(g) && Later(g, Apply(g, r).0) && RecordSound(g, rec)
    requires rec.publication.TaskPublication?
    requires r.Ref().key == rec.publication.Key() ==>
      (r.ArmTask? ==> FullIntents(rec)) && (r.RecordTerminal? ==> rec.complete.Some?)
    ensures RecordSound(Apply(g, r).0, rec)
  {
    var key := rec.publication.Key();
    forall st | st in rec.receipts ensures HasReceipt(Apply(g, r).0, key, st, rec.receipts[st]) {
      StagesContinue(g.records[key], Apply(g, r).0.records[key], g.sequence, st);
    }
    if key in Apply(g, r).0.records {
      ApplyAdds(g, r, key);
    }
    if key in g.records {
      assert Continues(g.records[key], Apply(g, r).0.records[key], g.sequence);
    }
  }

  lemma AnswerContinues(g: State, g': State, a: J.Answer)
    requires Keyed(g) && Later(g, g') && AnswerOk(g, a)
    ensures AnswerOk(g', a)
  {
    if a.reply.accepted {
      var o, u := g.records[a.request.Ref().key], g'.records[a.request.Ref().key];
      EstablishedContinues(o, u, g.sequence, a.request);
      StagesContinue(o, u, g.sequence, a.request.StageOf());
    }
  }

  lemma NewAnswer(g: State, rec: J.Record, r: Request)
    requires Keyed(g) && SentOk(rec, r)
    ensures AnswerOk(Apply(g, r).0, J.Answer(r, Apply(g, r).1))
  {
    if Apply(g, r).1.accepted {
      AcceptedIsEstablished(g, r);
    }
  }

  lemma GcsKeepsInv(s: System, r: Request, answers: set<J.Answer>)
    requires SysInv(s) && r.Valid()
    requires r.Ref().key == s.journal.publication.Key() ==>
      (r.ArmTask? ==> FullIntents(s.journal)) && (r.RecordTerminal? ==> s.journal.complete.Some?)
    requires forall a :: a in answers ==> a in s.answers || (a == J.Answer(r, Apply(s.gcs, r).1) && r in s.sent)
    ensures SysInv(s.(gcs := Apply(s.gcs, r).0, answers := answers))
  {
    var g' := Apply(s.gcs, r).0;
    StepContinues(s.gcs, r);
    InvIsKeyed(s.gcs);
    InvIsKeyed(g');
    ApplyKeepsRecord(s.gcs, s.journal, r);
    forall a | a in answers ensures a.request in s.sent && AnswerOk(g', a) {
      if a in s.answers {
        AnswerContinues(s.gcs, g', a);
      } else {
        NewAnswer(s.gcs, s.journal, r);
      }
    }
  }

  lemma InvIsKeyed(g: State)
    requires Inv(g)
    ensures Keyed(g)
  {
  }

  // ------------------------------------------------------------------------
  // Every run

  lemma StartIsInv(publication: Publication)
    requires publication.TaskPublication? && publication.Valid()
    ensures SysInv(Start(publication))
  {
    J.OpenedIsSound(publication);
    EmptyIsInv();
  }

  // A request that reaches the GCS is one the Node or the others may send.
  lemma RequestIsFit(s: System, e: Event)
    requires SysInv(s) && Enabled(s, e) && (e.Deliver? || e.Elsewhere?)
    ensures var r := if e.Deliver? then e.delivered else e.foreign;
      && r.Valid()
      && (r.Ref().key == s.journal.publication.Key() ==>
            (r.ArmTask? ==> FullIntents(s.journal)) && (r.RecordTerminal? ==> s.journal.complete.Some?))
  {
    hide J.Sound, Inv, AnswersSound, RecordSound, MaySend;
  }

  lemma NextKeepsInv(s: System, e: Event)
    requires SysInv(s) && Enabled(s, e)
    ensures SysInv(Next(s, e))
  {
    hide J.Sound, Inv, Apply, J.Act, SentOk, AnswerOk, RecordSound, MaySend, J.Evident;
    SysInvMeans(s);
    if e.Deliver? || e.Elsewhere? { RequestIsFit(s, e); }
    match e
    case Journal(move) => JournalKeepsInv(s, move);
    case Send(r) => SendKeepsInv(s, r);
    case Deliver(r) => GcsKeepsInv(s, r, s.answers + {J.Answer(r, Apply(s.gcs, r).1)});
    case Elsewhere(r) => GcsKeepsInv(s, r, s.answers);
    case WorkerDies(d) =>
  }

  // `t` is what the system becomes when it takes the events in order.
  ghost predicate Reaches(s: System, events: seq<Event>, t: System)
    decreases |events|
  {
    if events == [] then s == t
    else
      && s.journal.publication.TaskPublication? && J.Evident(s.journal) && Enabled(s, events[0])
      && Reaches(Next(s, events[0]), events[1..], t)
  }

  /** Every interleaving keeps the invariant and the journal's promises. */
  lemma {:induction false} ReachesKeepsInv(s: System, events: seq<Event>, t: System)
    requires SysInv(s) && Reaches(s, events, t)
    ensures SysInv(t) && t.journal.publication == s.journal.publication
    decreases |events|
  {
    if events == [] {
    } else {
      NextKeepsInv(s, events[0]);
      PublicationStays(s, events[0]);
      ReachesKeepsInv(Next(s, events[0]), events[1..], t);
    }
  }

  lemma PublicationStays(s: System, e: Event)
    requires J.Sound(s.journal) && Enabled(s, e)
    ensures Next(s, e).journal.publication == s.journal.publication
  {
    if e.Journal? {
      J.ActOutlives(s.journal, e.move);
    }
  }

  // ------------------------------------------------------------------------
  // Runs of the joint machine

  ghost predicate Leads(s: System, t: System) { exists events :: Reaches(s, events, t) }

  lemma LeadsToItself(s: System)
    ensures Leads(s, s)
  {
    assert Reaches(s, [], s);
  }

  lemma {:induction false} ReachesOneMore(s: System, events: seq<Event>, t: System, e: Event)
    requires Reaches(s, events, t) && t.journal.publication.TaskPublication? && J.Evident(t.journal) && Enabled(t, e)
    ensures Reaches(s, events + [e], Next(t, e))
    decreases |events|
  {
    hide Enabled, Next, J.Evident;
    if events == [] {
      assert [e][1..] == [];
    } else {
      ReachesOneMore(Next(s, events[0]), events[1..], t, e);
      assert (events + [e])[1..] == events[1..] + [e];
    }
  }

  lemma OneMore(s: System, t: System, e: Event)
    requires Leads(s, t) && SysInv(t) && Enabled(t, e)
    ensures Leads(s, Next(t, e)) && SysInv(Next(t, e))
  {
    hide Enabled, Next, Reaches;
    NextKeepsInv(t, e);
    var events :| Reaches(s, events, t);
    ReachesOneMore(s, events, t, e);
  }

  // ------------------------------------------------------------------------
  // Node rollback always settles

  // The rollback is compensated and the Node has seen its fence recorded.
  ghost predicate RolledBack(s: System) {
    s.journal.tombstone.Some? && Fenced in s.journal.receipts
  }

  lemma DeathsOfCleanupsAgree(s: System)
    requires DeathsSound(s)
    ensures DeathsAgree(s.journal.cleanups)
  {
  }

  // What a rolled-back journal and the authority's record know of each other.
  ghost predicate Matched(rec: J.Record, g: State)
    requires rec.publication.Key() in g.records
  {
    var u := g.records[rec.publication.Key()];
    && J.Sound(rec) && rec.tombstone.Some? && DeathsAgree(rec.cleanups)
    && u.publication == rec.publication && u.fence.Some? && u.complete.None? && u.adoption.None?
    && (u.prepared.Some? ==> FullIntents(rec))
  }

  lemma FencedRecord(s: System)
    requires SysInv(s) && RolledBack(s)
    ensures s.journal.publication.Key() in s.gcs.records && Matched(s.journal, s.gcs)
  {
    var u := s.gcs.records[s.journal.publication.Key()];
    assert SnapshotOk(u);
    assert s.journal.complete.None?;
    DeathsOfCleanupsAgree(s);
  }

  lemma RetireVerdict(g: State, r: Request)
    requires r.RetireGraph? && r.Ref().key in g.records
    requires var u := g.records[r.Ref().key]; u.Ref() == r.Ref() && u.fence.Some? && CheckClosed(u, r.closed) == None
    ensures Apply(g, r).1.accepted <==> g.records[r.Ref().key].closed in {None, Some(r.closed)}
  {
    hide CheckClosed, Recorded;
    var u := g.records[r.Ref().key];
    assert Base(g, r, Lookup(g, r.Ref().key)) == (Some(u), None);
    assert Guard(g, u, r) == Refuse(u.closed.Some? && u.closed.value != r.closed, Conflict);
  }

  lemma MatchedPasses(rec: J.Record, g: State)
    requires rec.publication.Key() in g.records && Matched(rec, g)
    ensures J.ClosedRollback(rec).Ok?
    ensures var closed, u := J.ClosedRollback(rec).value, g.records[rec.publication.Key()];
      && CheckClosed(u, closed) == None
      && (Apply(g, RetireGraph(closed)).1.accepted <==> u.closed in {None, Some(closed)})
  {
    RollbackPasses(rec, g.records[rec.publication.Key()]);
    RetireVerdict(g, RetireGraph(J.ClosedRollback(rec).value));
  }

  /** Main result: in every interleaving, once the compensation is complete and
      the Node knows the fence, the evidence its journal builds is well-formed,
      passes the authority's check, and retires the graph unless other evidence
      already did. */
  lemma RollbackSettlesAtGcs(publication: Publication, events: seq<Event>, s: System)
    requires publication.TaskPublication? && publication.Valid() && NoAlias(publication)
    requires Reaches(Start(publication), events, s) && RolledBack(s)
    ensures publication.Key() in s.gcs.records && s.journal.publication == publication
    ensures J.ClosedRollback(s.journal).Ok?
    ensures var closed, u := J.ClosedRollback(s.journal).value, s.gcs.records[publication.Key()];
      && closed.Valid() && CheckClosed(u, closed) == None
      && (Apply(s.gcs, RetireGraph(closed)).1.accepted <==> u.closed in {None, Some(closed)})
  {
    RolledBackIsMatched(publication, events, s);
    MatchedPasses(s.journal, s.gcs);
    NoAliasIsWellFormed(s.journal);
  }

  lemma RolledBackIsMatched(publication: Publication, events: seq<Event>, s: System)
    requires publication.TaskPublication? && publication.Valid()
    requires Reaches(Start(publication), events, s) && RolledBack(s)
    ensures s.journal.publication == publication && publication.Key() in s.gcs.records && Matched(s.journal, s.gcs)
  {
    StartIsInv(publication);
    ReachesKeepsInv(Start(publication), events, s);
    FencedRecord(s);
  }

  lemma ClosedIsStable(rec: J.Record, next: J.Record)
    requires J.Sound(rec) && J.Sound(next) && rec.tombstone.Some? && J.Outlives(rec, next)
    ensures J.ClosedRollback(next) == J.ClosedRollback(rec)
  {
    var effects := rec.rollback.value.effects;
    J.NextRollbackMeaning(effects, rec.acks);
    J.InverseIsExact(rec.intents, rec.Count());
    SameCleanups(effects, rec.cleanups, next.cleanups);
  }

  lemma {:induction false} SameCleanups(effects: seq<J.Step>, a: map<J.Step, J.CleanupReply>,
                                        b: map<J.Step, J.CleanupReply>)
    requires forall e :: e in effects ==> (e in a <==> e in b) && (e in a ==> a[e] == b[e])
    ensures J.Cleanups(effects, a) == J.Cleanups(effects, b)
  {
    if effects == [] {
    } else {
      SameCleanups(effects[1..], a, b);
    }
  }

  // Journals only move forward along a run of the system.
  lemma {:induction false} JournalOutlives(s: System, events: seq<Event>, t: System)
    requires SysInv(s) && Reaches(s, events, t)
    ensures J.Outlives(s.journal, t.journal) && J.Sound(s.journal) && J.Sound(t.journal)
    decreases |events|
  {
    hide SysInv, J.Sound, J.Outlives, Enabled, Next, J.Evident;
    if events == [] {
      StandsStill(s);
    } else {
      NextKeepsInv(s, events[0]);
      StepOutlives(s, events[0]);
      JournalOutlives(Next(s, events[0]), events[1..], t);
      J.OutlivesTransitive(s.journal, Next(s, events[0]).journal, t.journal);
    }
  }

  lemma StandsStill(s: System)
    requires SysInv(s)
    ensures J.Sound(s.journal) && J.Outlives(s.journal, s.journal)
  {
    hide J.Sound;
  }

  lemma StepOutlives(s: System, e: Event)
    requires SysInv(s) && Enabled(s, e)
    ensures J.Sound(s.journal) && J.Outlives(s.journal, Next(s, e).journal)
  {
    hide J.Sound, J.Act, J.Outlives;
    StandsStill(s);
    if e.Journal? {
      J.ActOutlives(s.journal, e.move);
    }
  }

  lemma {:induction false} GcsContinues(s: System, events: seq<Event>, t: System)
    requires SysInv(s) && Reaches(s, events, t)
    ensures Later(s.gcs, t.gcs)
    decreases |events|
  {
    if events == [] {
      LaterIsReflexive(s.gcs);
    } else {
      NextKeepsInv(s, events[0]);
      GcsContinues(Next(s, events[0]), events[1..], t);
      GcsStepContinues(s, events[0]);
      LaterIsTransitive(s.gcs, Next(s, events[0]).gcs, t.gcs);
    }
  }

  lemma GcsStepContinues(s: System, e: Event)
    requires Keyed(s.gcs) && s.journal.publication.TaskPublication? && J.Evident(s.journal)
    ensures Later(s.gcs, Next(s, e).gcs)
  {
    match e
    case Deliver(r) => ApplyContinues(s.gcs, r);
    case Elsewhere(r) => ApplyContinues(s.gcs, r);
    case _ => LaterIsReflexive(s.gcs);
  }

  lemma RollbackStays(s: System, t: System)
    requires J.Outlives(s.journal, t.journal) && RolledBack(s)
    ensures RolledBack(t) && t.journal.publication == s.journal.publication
  {
  }

  lemma StillMatched(s: System, events: seq<Event>, t: System)
    requires SysInv(s) && RolledBack(s) && Reaches(s, events, t)
    ensures t.journal.publication == s.journal.publication
    ensures t.journal.publication.Key() in t.gcs.records && Matched(t.journal, t.gcs)
    ensures J.ClosedRollback(t.journal) == J.ClosedRollback(s.journal)
  {
    hide SysInv, J.Sound, J.Outlives, Reaches, Matched, J.ClosedRollback;
    JournalOutlives(s, events, t);
    RollbackStays(s, t);
    ClosedIsStable(s.journal, t.journal);
    ReachesKeepsInv(s, events, t);
    FencedRecord(t);
  }

  lemma ClosedStays(s: System, events: seq<Event>, t: System, key: PublicationKey)
    requires SysInv(s) && Reaches(s, events, t)
    requires key in s.gcs.records && s.gcs.records[key].closed.Some?
    ensures key in t.gcs.records && t.gcs.records[key].closed == s.gcs.records[key].closed
  {
    GcsContinues(s, events, t);
    assert Continues(s.gcs.records[key], t.gcs.records[key], s.gcs.sequence);
  }

  /** A retirement the Node got through is accepted again at any later point of
      any interleaving, with the journal still offering the identical evidence. */
  lemma RetirementReplays(s: System, events: seq<Event>, t: System)
    requires SysInv(s) && RolledBack(s) && Reaches(s, events, t)
    requires s.journal.publication.Key() in s.gcs.records && J.ClosedRollback(s.journal).Ok?
    requires s.gcs.records[s.journal.publication.Key()].closed == Some(J.ClosedRollback(s.journal).value)
    ensures J.ClosedRollback(t.journal) == J.ClosedRollback(s.journal)
    ensures Apply(t.gcs, RetireGraph(J.ClosedRollback(t.journal).value)).1.accepted
  {
    StillMatched(s, events, t);
    ClosedStays(s, events, t, s.journal.publication.Key());
    MatchedPasses(t.journal, t.gcs);
  }
}
