/** What the single steps of a publishing Node do: one recorded reply, one
    forward effect, one compensation, one release after the owner's death. */
module NodeSteps {
  import opened Ids
  import opened PublicationFacts
  import opened PublicationAuthority
  import opened PublicationInvariants
  import opened PublicationHistory
  import J = PublicationJournal
  import opened PublicationSettlement
  import opened NodePublication

  // ------------------------------------------------------------------------
  // Replies of the GCS

  // The journal can record the reply the GCS gives to r.
  ghost predicate Recordable(g: State, rec: J.Record, r: Request, stage: Stage, forward: bool)
    requires rec.publication.TaskPublication? && J.Evident(rec)
  {
    J.RecordReply(rec, r, J.Answer(r, Apply(g, r).1), stage, forward).Ok?
  }

  // What recording a reply to r does to the journal.
  lemma RecordingReply(g: State, rec: J.Record, r: Request, stage: Stage, forward: bool)
    requires rec.publication.TaskPublication? && J.Evident(rec)
    ensures var move := J.Records(r, J.Answer(r, Apply(g, r).1), stage, forward);
      && (J.Attempt(rec, move).Ok? <==> Recordable(g, rec, r, stage, forward))
      && J.Act(rec, move) == rec.(receipts := J.Act(rec, move).receipts)
      && (Recordable(g, rec, r, stage, forward) ==> Apply(g, r).1.accepted && stage in J.Act(rec, move).receipts)
  {
    hide Apply, J.Evident;
  }

  // The receipt the GCS answers with is the one it files from then on.
  lemma AnsweredReceipt(g: State, r: Request)
    requires Inv(g) && r.Valid() && !r.GetPublication? && Apply(g, r).1.accepted
    ensures var reply := Apply(g, r).1;
      && reply.receipt.Some? && reply.snapshot.Some? && reply.snapshot.value.Ref() == r.Ref()
      && reply.receipt.value.stage == r.StageOf() && reply.receipt.value.reference == r.Ref()
  {
    hide Inv, Apply;
    ApplyIsTotal(g, r);
    var reply := Apply(g, r).1;
    assert reply.receipt.value in reply.snapshot.value.receipts;
  }

  // An accepted mutation whose receipt the GCS already had gets that receipt back.
  lemma AnsweredAgain(g: State, r: Request)
    requires Inv(g) && r.Valid() && !r.GetPublication? && Apply(g, r).1.accepted && r.Ref().key in g.records
    ensures g.records[r.Ref().key].Has(r.StageOf()) ==> Apply(g, r).1.receipt == g.records[r.Ref().key].At(r.StageOf())
  {
    hide Inv, Apply, Keyed, Continues;
    var key := r.Ref().key;
    InvIsKeyed(g);
    AcceptedIsEstablished(g, r);
    ApplyContinues(g, r);
    assert Continues(g.records[key], Apply(g, r).0.records[key], g.sequence);
    StagesContinue(g.records[key], Apply(g, r).0.records[key], g.sequence, r.StageOf());
  }

  lemma SoundIsEvident(rec: J.Record)
    requires J.Sound(rec)
    ensures rec.publication.TaskPublication? && J.Evident(rec)
  {
  }

  lemma ReceiptsAgree(g: State, rec: J.Record, stage: Stage)
    requires RecordSound(g, rec) && stage in rec.receipts
    ensures rec.publication.Key() in g.records
    ensures g.records[rec.publication.Key()].At(stage) == Some(rec.receipts[stage])
  {
    assert HasReceipt(g, rec.publication.Key(), stage, rec.receipts[stage]);
  }

  // Whatever the GCS accepts for the journal's own publication can be recorded.
  lemma AcceptedIsRecordable(s: System, r: Request)
    requires SysInv(s) && r.Valid() && !r.GetPublication? && r.Ref() == s.journal.Ref() && Apply(s.gcs, r).1.accepted
    ensures s.journal.publication.TaskPublication? && J.Evident(s.journal)
    ensures Recordable(s.gcs, s.journal, r, r.StageOf(), false)
  {
    hide Apply, Inv, J.Sound, J.Evident, RecordSound, SentSound, AnswersSound, DeathsSound;
    var rec, stage := s.journal, r.StageOf();
    SoundIsEvident(rec);
    AnsweredReceipt(s.gcs, r);
    if stage in rec.receipts {
      ReceiptsAgree(s.gcs, rec, stage);
      AnsweredAgain(s.gcs, r);
    }
  }

  // An accepted request for forward permission finds the publication open.
  lemma ForwardIsOpen(g: State, r: Request)
    requires Keyed(g) && r.Valid() && AsksForward(r) && Apply(g, r).1.accepted
    ensures Apply(g, r).1.snapshot.Some? && Apply(g, r).1.snapshot.value.ForwardOpen()
    ensures r.ArmTask? ==> Apply(g, r).1.snapshot.value.prepared == Some(r.prepared)
  {
    hide Apply, Keyed, Guard, Established;
    AcceptedIsEstablished(g, r);
    AcceptedSnapshot(g, r);
    var base := ApplyShape(g, r);
    if Apply(g, r).0 == g {
      UnchangedIsOpen(g, r);
    } else {
      RecordedIsOpen(g, base, r);
    }
    if r.ArmTask? { EstablishedPrepares(Apply(g, r).0.records[r.Ref().key], r); }
  }

  lemma UnchangedIsOpen(g: State, r: Request)
    requires AsksForward(r) && Apply(g, r).1.accepted && Apply(g, r).0 == g
    ensures Apply(g, r).1.snapshot.Some? && Apply(g, r).1.snapshot.value.ForwardOpen()
  {
    hide CheckPrepared, ActiveEdges, CheckBinding;
  }

  lemma RecordedIsOpen(g: State, base: Snapshot, r: Request)
    requires AsksForward(r) && Guard(g, base, r) == None && !base.Has(r.StageOf())
    ensures Recorded(g, base, r).ForwardOpen()
  {
    hide CheckPrepared, ActiveEdges;
    RecordedAt(g, base, r, Retired);
  }

  lemma EstablishedPrepares(u: Snapshot, r: Request)
    requires Established(u, r) && r.ArmTask?
    ensures u.prepared == Some(r.prepared)
  {
  }

  // What has to precede a forward reply in the journal.
  ghost predicate InOrder(rec: J.Record, r: Request)
    requires rec.publication.TaskPublication? && J.Evident(rec)
  {
    && rec.phase.Active?
    && (r.BeginPublication? ==> J.OwnerRegister in rec.acks)
    && (r.PrepareGraph? ==> Intent in rec.receipts)
    && (r.ArmTask? ==> J.Preparation(rec) == J.Ok(r.prepared))
  }

  lemma ForwardIsRecordable(s: System, r: Request)
    requires SysInv(s) && r.Valid() && AsksForward(r) && r.Ref() == s.journal.Ref() && Apply(s.gcs, r).1.accepted
    requires s.journal.publication.TaskPublication? && J.Evident(s.journal) && InOrder(s.journal, r)
    ensures Recordable(s.gcs, s.journal, r, r.StageOf(), true)
  {
    hide Apply, J.Sound, J.Evident, J.Preparation, J.RecordReply, Keyed, InOrder;
    AcceptedIsRecordable(s, r);
    InvIsKeyed(s.gcs);
    ForwardIsOpen(s.gcs, r);
    OpenReplyIsRecordable(s.journal, r, J.Answer(r, Apply(s.gcs, r).1));
  }

  lemma OpenReplyIsRecordable(rec: J.Record, r: Request, answer: J.Answer)
    requires rec.publication.TaskPublication? && J.Evident(rec) && AsksForward(r) && InOrder(rec, r)
    requires J.RecordReply(rec, r, answer, r.StageOf(), false).Ok?
    requires answer.reply.snapshot.Some? && answer.reply.snapshot.value.ForwardOpen()
    requires r.ArmTask? ==> answer.reply.snapshot.value.prepared == Some(r.prepared)
    ensures J.RecordReply(rec, r, answer, r.StageOf(), true).Ok?
  {
    hide J.Evident, J.Preparation;
  }

  // ------------------------------------------------------------------------
  // Forward effects

  // What the callbacks of the forward effects return, if they return.
  datatype Supplies = Supplies(registered: bool, pins: map<J.Step, PinReply>, stored: Option<J.Descriptor>)
  {
    function For(step: J.Step): Option<J.Evidence> {
      match step
      case OwnerRegister => if registered then Some(J.Silent) else None
      case Materialize => if stored.Some? then Some(J.Stored(stored.value)) else None
      case _ => if step in pins then Some(J.Pinned(pins[step])) else None
    }
  }

  predicate Supplied(publication: Publication, x: Supplies, step: J.Step)
    requires publication.TaskPublication? && (step.OfTransfer() ==> step.index < |publication.transfers|)
  {
    x.For(step).Some? && J.EvidenceFits(publication, step, x.For(step).value)
  }

  // The journal is open for this effect.
  predicate Due(rec: J.Record, step: J.Step) {
    rec.phase.Active? && step.Forward() && rec.InRange(step) && J.StageReady(rec, step)
  }

  // Nothing but effects was added.
  ghost predicate SameCourse(rec: J.Record, next: J.Record) {
    && next.publication == rec.publication && next.phase == rec.phase && next.receipts == rec.receipts
    && next.rollback == rec.rollback && next.complete == rec.complete && next.ownerDeath == rec.ownerDeath
    && next.cleanups == rec.cleanups
    && rec.intents <= next.intents && rec.acks.Keys <= next.acks.Keys
  }

  lemma DueStays(rec: J.Record, next: J.Record, step: J.Step)
    requires Due(rec, step) && SameCourse(rec, next)
    ensures Due(next, step)
  {
  }

  lemma BeginsActs(rec: J.Record, step: J.Step)
    requires rec.publication.TaskPublication? && J.Evident(rec) && Due(rec, step)
    ensures J.Attempt(rec, J.Begins(step)).Ok?
    ensures var next := J.Act(rec, J.Begins(step));
      SameCourse(rec, next) && next.acks == rec.acks && next.intents == rec.intents + {step}
  {
  }

  lemma AcksActs(rec: J.Record, step: J.Step, replayed: bool, evidence: J.Evidence)
    requires rec.publication.TaskPublication? && J.Evident(rec) && Due(rec, step) && step in rec.intents
    requires step !in rec.acks
    ensures var move := J.Acks(J.Ack(J.Effect(rec.Ref(), step), replayed), evidence);
      && (J.Attempt(rec, move).Ok? <==> J.EvidenceFits(rec.publication, step, evidence))
      && (J.Attempt(rec, move).Ok? ==>
            SameCourse(rec, J.Act(rec, move)) && J.Act(rec, move).acks.Keys == rec.acks.Keys + {step})
      && (!J.Attempt(rec, move).Ok? ==> J.Act(rec, move) == rec)
  {
  }

  // ------------------------------------------------------------------------
  // Compensation

  // The planned compensations not yet acknowledged.
  function Todo(rec: J.Record): set<J.Step> {
    if rec.rollback.None? then {} else set e | e in rec.rollback.value.effects && e !in rec.acks
  }

  lemma NothingToDo(rec: J.Record)
    requires J.Sound(rec) && rec.rollback.Some?
    ensures Todo(rec) == {} <==> rec.tombstone.Some?
    ensures J.NextRollback(rec.rollback.value.effects, rec.acks).None? <==> Todo(rec) == {}
  {
    J.NextRollbackMeaning(rec.rollback.value.effects, rec.acks);
    var next := J.NextRollback(rec.rollback.value.effects, rec.acks);
    if next.Some? {
      assert next.value in Todo(rec);
    }
  }

  // The compensation whose turn it is, with its reply.
  ghost predicate InTurn(rec: J.Record, step: J.Step, reply: Option<J.CleanupReply>) {
    && rec.rollback.Some? && J.NextRollback(rec.rollback.value.effects, rec.acks) == Some(step)
    && rec.InRange(step) && J.CleanupFits(rec.publication, step, reply)
  }

  lemma InTurnIsTaken(rec: J.Record, ack: J.Ack, reply: Option<J.CleanupReply>)
    requires InTurn(rec, ack.effect.step, reply) && ack.effect.reference == rec.Ref()
    ensures J.NewAck(rec, ack, reply)
    ensures J.AckRollback(rec, ack, reply) == J.FinishRollback(J.Acked(rec, ack, reply))
  {
    J.NextRollbackMeaning(rec.rollback.value.effects, rec.acks);
  }

  lemma InTurnAdvances(rec: J.Record, step: J.Step, replayed: bool, reply: Option<J.CleanupReply>)
    requires J.Sound(rec) && InTurn(rec, step, reply)
    ensures var done := J.AckRollback(rec, J.Ack(J.Effect(rec.Ref(), step), replayed), reply);
      && done.Ok? && J.Sound(done.value) && done.value.rollback == rec.rollback && done.value.receipts == rec.receipts
      && Todo(done.value) == Todo(rec) - {step} && step in Todo(rec)
  {
    hide J.Sound, J.FinishRollback, J.AckRollback;
    var ack := J.Ack(J.Effect(rec.Ref(), step), replayed);
    InTurnIsTaken(rec, ack, reply);
    J.AckedThenFinished(rec, ack, reply);
    FinishedKeeps(J.Acked(rec, ack, reply));
    assert J.Acked(rec, ack, reply).acks == rec.acks[step := ack];
  }

  // The journal call for one answered compensation.
  function Compensation(rec: J.Record, step: J.Step, replies: map<J.Step, J.CleanupReply>): J.Move
    requires !step.SlotDrop? ==> step in replies
  {
    var reply := if step.SlotDrop? then None else Some(replies[step]);
    var replayed := reply.Some? && reply.value.Freed? && !reply.value.release.released;
    J.AcksRollback(J.Ack(J.Effect(rec.Ref(), step), replayed), reply)
  }

  lemma NextIsPlanned(rec: J.Record, step: J.Step)
    requires J.Sound(rec) && rec.rollback.Some? && J.NextRollback(rec.rollback.value.effects, rec.acks) == Some(step)
    ensures rec.InRange(step) && step in Todo(rec)
    ensures step.SlotDrop? || step.FinalRelease? || step.ProvisionalRelease?
  {
    J.NextRollbackMeaning(rec.rollback.value.effects, rec.acks);
    PlannedIsRelease(rec, step);
  }

  lemma CompensationActs(rec: J.Record, step: J.Step, replies: map<J.Step, J.CleanupReply>, dropped: bool)
    requires J.Sound(rec) && rec.publication.TaskPublication? && J.Evident(rec) && rec.rollback.Some?
    requires J.NextRollback(rec.rollback.value.effects, rec.acks) == Some(step)
    requires rec.InRange(step) && Comes(rec.publication, replies, dropped, step)
    ensures var move := Compensation(rec, step, replies);
      var next := J.Act(rec, move);
      && J.Attempt(rec, move).Ok? && next.publication == rec.publication && next.receipts == rec.receipts
      && next.rollback == rec.rollback && Todo(next) == Todo(rec) - {step}
  {
    hide J.Sound, J.AckRollback, J.Evident, J.NextRollback, Todo;
    NextIsPlanned(rec, step);
    var move := Compensation(rec, step, replies);
    InTurnAdvances(rec, step, move.cleanupAck.replayed, move.reply);
    CompensationKeepsPublication(rec, move);
  }

  lemma CompensationKeepsPublication(rec: J.Record, move: J.Move)
    requires J.Sound(rec) && rec.publication.TaskPublication? && J.Evident(rec) && move.AcksRollback?
    ensures J.Act(rec, move).publication == rec.publication
  {
    hide J.Sound;
    J.ActOutlives(rec, move);
  }

  lemma PlannedIsRelease(rec: J.Record, step: J.Step)
    requires J.Sound(rec) && rec.rollback.Some? && step in rec.rollback.value.effects
    ensures rec.InRange(step) && (step.SlotDrop? || step.FinalRelease? || step.ProvisionalRelease?)
  {
    J.InverseIsExact(rec.intents, rec.Count());
  }

  lemma FinishedKeeps(rec: J.Record)
    requires rec.rollback.Some? && J.FinishRollback(rec).Ok?
    ensures var next := J.FinishRollback(rec).value;
      && next.acks == rec.acks && next.rollback == rec.rollback && next.receipts == rec.receipts
      && next.cleanups == rec.cleanups && next.publication == rec.publication
  {
  }

  // ------------------------------------------------------------------------
  // Children and their replies

  // Deaths reported by children's registries are the membership's own.
  ghost predicate HonestReplies(deaths: map<WorkerID, Death>, replies: map<J.Step, J.CleanupReply>) {
    forall e :: e in replies && replies[e].OwnerGone? ==>
      replies[e].death.Unexpected() && Known(deaths, replies[e].death)
  }

  lemma HonestAgree(deaths: map<WorkerID, Death>, replies: map<J.Step, J.CleanupReply>)
    requires HonestReplies(deaths, replies)
    ensures DeathsAgree(replies)
  {
  }

  // A release without a fitting answer raises and leaves the rest for the next drive.
  predicate Gets(publication: Publication, replies: map<J.Step, J.CleanupReply>, step: J.Step)
    requires step.OfTransfer() ==> step.index < |publication.transfers|
  {
    step in replies && J.CleanupFits(publication, step, Some(replies[step]))
  }

  ghost predicate AcksFit(publication: Publication, acks: map<J.Step, J.CleanupReply>) {
    forall e :: e in acks ==> EffectInRange(publication, e) && J.CleanupFits(publication, e, Some(acks[e]))
  }

  ghost predicate EffectInRange(publication: Publication, e: J.Step) {
    (e.FinalRelease? || e.ProvisionalRelease?) && e.index < |publication.transfers|
  }

  // The compensation's callback returns with a fitting answer.
  predicate Comes(publication: Publication, replies: map<J.Step, J.CleanupReply>, dropped: bool, step: J.Step)
    requires step.OfTransfer() ==> step.index < |publication.transfers|
  {
    if step.SlotDrop? then dropped else Gets(publication, replies, step)
  }

  // Every planned compensation would be answered.
  ghost predicate AllCome(publication: Publication, todo: set<J.Step>, replies: map<J.Step, J.CleanupReply>,
                          dropped: bool) {
    forall e :: e in todo ==>
      (e.OfTransfer() ==> e.index < |publication.transfers|) && Comes(publication, replies, dropped, e)
  }

  // The evidence that a finished owner-death cleanup stands for.
  lemma OwnerDeathEvidence(publication: Publication, deaths: map<WorkerID, Death>, acks: map<J.Step, J.CleanupReply>)
    requires publication.Valid() && EveryReleaseAnswered(publication, acks) && HonestReplies(deaths, acks)
    ensures SettlesAll(publication, OwnerDeathClosed(publication, acks))
    ensures NoAlias(publication) ==> OwnerDeathClosed(publication, acks).Valid()
  {
    OwnerDeathSettlesAll(publication, acks);
    HonestAgree(deaths, acks);
    OwnerDeathIsWellFormed(publication, acks);
  }

  /** One drive of the cleanup: proven releases are skipped, progress survives a
      failed call, and it finishes exactly when every hold has an answer. */
  method SettleOwnerDeath(publication: Publication, acks: map<J.Step, J.CleanupReply>,
                          replies: map<J.Step, J.CleanupReply>)
    returns (acks': map<J.Step, J.CleanupReply>, finished: bool)
    requires AcksFit(publication, acks)
    ensures AcksFit(publication, acks')
    ensures forall e :: e in acks ==> e in acks' && acks'[e] == acks[e]
    ensures forall e :: e in acks' && e !in acks ==> e in replies && acks'[e] == replies[e]
    ensures finished <==> forall e | EffectInRange(publication, e) :: e in acks || Gets(publication, replies, e)
    ensures finished ==> EveryReleaseAnswered(publication, acks')
  {
    hide J.CleanupFits, EveryRelease, EveryReleaseAnswered, AcksFit, NoRepeats;
    acks', finished := acks, false;
    var effects := EveryRelease(|publication.transfers|);
    EveryReleaseIs(publication);
    var i := 0;
    while i < |effects|
      invariant 0 <= i <= |effects| && Extends(publication, replies, acks, acks')
      invariant forall j :: 0 <= j < i ==> effects[j] in acks'
    {
      if effects[i] !in acks' {
        if !Gets(publication, replies, effects[i]) {
          ExtendsFit(publication, replies, acks, acks');
          assert EffectInRange(publication, effects[i]) && effects[i] !in acks;
          return;
        }
        acks' := acks'[effects[i] := replies[effects[i]]];
      }
      i := i + 1;
    }
    ExtendsFit(publication, replies, acks, acks');
    finished := true;
    forall e | EffectInRange(publication, e) ensures e in acks' {
      assert e in effects;
    }
    AllFitIsAnswered(publication, acks');
  }

  // The acknowledgements kept, and only fitting replies added.
  ghost predicate Extends(publication: Publication, replies: map<J.Step, J.CleanupReply>,
                          acks: map<J.Step, J.CleanupReply>, acks': map<J.Step, J.CleanupReply>) {
    && (forall e :: e in acks ==> e in acks' && acks'[e] == acks[e])
    && forall e :: e in acks' && e !in acks ==>
         EffectInRange(publication, e) && Gets(publication, replies, e) && acks'[e] == replies[e]
  }

  lemma ExtendsFit(publication: Publication, replies: map<J.Step, J.CleanupReply>, acks: map<J.Step, J.CleanupReply>,
                   acks': map<J.Step, J.CleanupReply>)
    requires AcksFit(publication, acks) && Extends(publication, replies, acks, acks')
    ensures AcksFit(publication, acks')
  {
  }

  lemma AllFitIsAnswered(publication: Publication, acks: map<J.Step, J.CleanupReply>)
    requires AcksFit(publication, acks) && forall e | EffectInRange(publication, e) :: e in acks
    ensures EveryReleaseAnswered(publication, acks)
  {
    forall i: nat | i < |publication.transfers|
      ensures EffectInRange(publication, J.FinalRelease(i)) && EffectInRange(publication, J.ProvisionalRelease(i))
    {
    }
  }
}
