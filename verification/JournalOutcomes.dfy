/** When each journal call succeeds, read off the acknowledgements and receipts
    that must come first, and what it writes down. */
module JournalOutcomes {
  import opened Ids
  import opened PublicationFacts
  import opened PublicationJournal
  import Authority = PublicationAuthority

  // ------------------------------------------------------------------------
  // Forward steps

  // The steps whose acknowledgements come before this one.
  function Earlier(step: Step, count: nat): set<Step> {
    match step
    case OwnerRegister => {}
    case Prepare(_) => {OwnerRegister}
    case Materialize => {OwnerRegister} + set i | i in Below(count) :: Prepare(i)
    case _ => {OwnerRegister, Materialize} + set i | i in Below(count) :: Prepare(i)
  }

  // Its turn has come: everything earlier is acknowledged, and effects outside the
  // Node wait for the graph reservation.
  ghost predicate TurnOf(rec: Record, step: Step) {
    Earlier(step, rec.Count()) <= rec.acks.Keys && (!step.OwnerRegister? ==> PreparedGraph in rec.receipts)
  }

  // A transfer step names a transfer of the manifest.
  predicate Exists(rec: Record, step: Step) {
    step.Prepare? || step.Promote? || step.FinalRelease? || step.ProvisionalRelease? ==>
      step.index < |rec.publication.transfers|
  }

  lemma TurnIs(rec: Record, step: Step)
    requires step.Forward()
    ensures TurnOf(rec, step) <==> StageReady(rec, step)
    ensures Exists(rec, step) <==> rec.InRange(step)
  {
    if TurnOf(rec, step) && (step.Materialize? || step.Promote?) {
      forall i: nat | i < rec.Count() ensures Prepare(i) in rec.acks {
        assert Prepare(i) in Earlier(step, rec.Count());
      }
    }
  }

  /** A forward intent is written exactly while the publication is active, for an
      effect of the manifest whose turn has come. */
  lemma BeginIff(rec: Record, step: Step)
    requires step.Forward()
    ensures Begin(rec, step) ==
      if !rec.phase.Active? then Err(WrongState)
      else if !Exists(rec, step) then Err(Mismatch)
      else if !TurnOf(rec, step) then Err(WrongState)
      else Ok(rec.(intents := rec.intents + {step}))
  {
    TurnIs(rec, step);
  }

  // The reply of the effect itself: the pin of exactly this transfer, in this role,
  // or the stored result with the manifest's identity, size, checksum, owner and Node.
  predicate Genuine(publication: Publication, step: Step, evidence: Evidence)
    requires publication.TaskPublication?
    requires step.Prepare? || step.Promote? ==> step.index < |publication.transfers|
  {
    match step
    case Prepare(i) => exists replayed :: evidence == Pinned(PinReply(publication.transfers[i], false, replayed))
    case Promote(i) => exists replayed :: evidence == Pinned(PinReply(publication.transfers[i], true, replayed))
    case Materialize =>
      && evidence.Stored? && evidence.descriptor.name == ObjectID(publication.attempt.task, 0)
      && evidence.descriptor.payload.tier == publication.payload.tier
      && evidence.descriptor.payload.size == publication.payload.size
      && evidence.descriptor.payload.checksum == publication.payload.checksum
      && evidence.descriptor.owner == publication.owner && evidence.descriptor.node == publication.node.node
    case _ => true
  }

  lemma GenuineIs(publication: Publication, step: Step, evidence: Evidence)
    requires publication.TaskPublication? && (step.OfTransfer() ==> step.index < |publication.transfers|)
    ensures Genuine(publication, step, evidence) <==> EvidenceFits(publication, step, evidence)
  {
    if (step.Prepare? || step.Promote?) && EvidenceFits(publication, step, evidence) {
      var reply := evidence.reply;
      assert evidence == Pinned(PinReply(publication.transfers[step.index], step.Promote?, reply.replayed));
    }
  }

  // An acknowledgement of this record's own intended effect, in its turn.
  ghost predicate Timely(rec: Record, ack: Ack) {
    rec.phase.Active? && ack.effect.step in rec.intents && TurnOf(rec, ack.effect.step)
  }

  // The reply agrees with the manifest and with the first acknowledgement.
  ghost predicate Agrees(rec: Record, ack: Ack, evidence: Evidence)
    requires rec.publication.TaskPublication?
  {
    var step := ack.effect.step;
    && ack.effect.reference == rec.publication.Ref() && Exists(rec, step) && Genuine(rec.publication, step, evidence)
    && (step.Materialize? && step in rec.acks ==> rec.result == Some(evidence.descriptor))
  }

  /** A forward acknowledgement is taken exactly when it answers an intent of this
      active publication in its turn, with genuine evidence. The first one keeps its
      evidence; a repeated one changes nothing. */
  lemma AckForwardIff(rec: Record, ack: Ack, evidence: Evidence)
    requires rec.publication.TaskPublication?
    ensures var step, done := ack.effect.step, AckForward(rec, ack, evidence);
      && (done.Ok? <==> step.Forward() && Timely(rec, ack) && Agrees(rec, ack, evidence))
      && (done.Ok? ==> done.value == if step in rec.acks then rec else Kept(rec, ack, evidence))
  {
    if ack.effect.step.Forward() {
      TurnIs(rec, ack.effect.step);
      if Exists(rec, ack.effect.step) { GenuineIs(rec.publication, ack.effect.step, evidence); }
    }
  }

  // The first acknowledgement, with the child's reply or the stored result.
  function Kept(rec: Record, ack: Ack, evidence: Evidence): Record {
    var acked := rec.(acks := rec.acks[ack.effect.step := ack]);
    match evidence
    case Pinned(reply) =>
      if ack.effect.step.OfTransfer() then acked.(children := rec.children[ack.effect.step := reply]) else acked
    case Stored(descriptor) => if ack.effect.step.Materialize? then acked.(result := Some(descriptor)) else acked
    case Silent => acked
  }

  // ------------------------------------------------------------------------
  // Receipts of the GCS

  // The reply accepts exactly this request for exactly this stage.
  predicate Answers(rec: Record, request: Authority.Request, answer: Answer, stage: Stage) {
    && answer.request == request && answer.reply.accepted
    && answer.reply.receipt.Some? && answer.reply.receipt.value.reference == rec.publication.Ref()
    && answer.reply.receipt.value.stage == stage
    && answer.reply.snapshot.Some? && answer.reply.snapshot.value.publication.Ref() == rec.publication.Ref()
  }

  // Every effect of the publication is acknowledged.
  ghost predicate Effected(rec: Record) {
    OwnerRegister in rec.acks && Materialize in rec.acks && forall i: nat :: i < rec.Count() ==> Promote(i) in rec.acks
  }

  // What a receipt must find to permit more forward work.
  ghost predicate Permits(rec: Record, answer: Answer, stage: Stage)
    requires rec.publication.TaskPublication? && Evident(rec) && answer.reply.snapshot.Some?
  {
    var snapshot := answer.reply.snapshot.value;
    && rec.phase.Active? && snapshot.fence.None? && snapshot.At(Retired).None?
    && (stage.Intent? ==> OwnerRegister in rec.acks) && (stage.PreparedGraph? ==> Intent in rec.receipts)
    && (stage.Armed? ==> Effected(rec) && snapshot.prepared.Some? && Attests(rec, snapshot.prepared.value))
  }

  // The GCS holds exactly the replies of this Node's children, in manifest order.
  ghost predicate Attests(rec: Record, prepared: Prepared)
    requires rec.publication.TaskPublication?
  {
    && prepared.TaskPrepared? && prepared.reference == rec.publication.Ref()
    && prepared.taskNode == rec.publication.node
    && |prepared.prepares| == rec.Count() && |prepared.promotes| == rec.Count()
    && forall i: nat :: i < rec.Count() ==>
         && Prepare(i) in rec.children && prepared.prepares[i] == rec.children[Prepare(i)]
         && Promote(i) in rec.children && prepared.promotes[i] == rec.children[Promote(i)]
  }

  /** The preparation is attested exactly once every effect is acknowledged, and it
      lists the replies the children really gave. */
  lemma PreparationIff(rec: Record)
    requires rec.publication.TaskPublication? && Evident(rec)
    ensures Preparation(rec).Ok? <==> rec.phase.Active? && Effected(rec)
    ensures Preparation(rec).Ok? ==> Attests(rec, Preparation(rec).value)
    ensures Preparation(rec).Ok? ==> forall p :: Attests(rec, p) ==> p == Preparation(rec).value
  {
    if Preparation(rec).Ok? {
      PrepareBeforePromote(rec);
      forall p | Attests(rec, p) ensures p == Preparation(rec).value {
        assert p.prepares == Preparation(rec).value.prepares;
        assert p.promotes == Preparation(rec).value.promotes;
      }
    }
  }

  lemma ArmedIff(rec: Record, prepared: Option<Prepared>)
    requires rec.publication.TaskPublication? && Evident(rec)
    ensures Preparation(rec).Ok? && prepared == Some(Preparation(rec).value) <==>
              rec.phase.Active? && Effected(rec) && prepared.Some? && Attests(rec, prepared.value)
  {
    hide Evident, Attests, Preparation, Effected;
    PreparationIff(rec);
  }

  // A receipt for the record asks only for agreement with an earlier one.
  lemma PlainReceipt(rec: Record, request: Authority.Request, answer: Answer, stage: Stage)
    requires rec.publication.TaskPublication? && Evident(rec)
    ensures RecordReply(rec, request, answer, stage, false).Ok? <==>
              Answers(rec, request, answer, stage)
              && (stage in rec.receipts ==> rec.receipts[stage] == answer.reply.receipt.value)
    ensures forall forward: bool :: RecordReply(rec, request, answer, stage, forward).Ok? ==>
              RecordReply(rec, request, answer, stage, forward) == RecordReply(rec, request, answer, stage, false)
    ensures RecordReply(rec, request, answer, stage, false).Ok? ==>
              RecordReply(rec, request, answer, stage, false)
              == Ok(rec.(receipts := rec.receipts[stage := answer.reply.receipt.value]))
  {
    hide Evident, Preparation, FindReceipt;
  }

  lemma ForwardReceipt(rec: Record, request: Authority.Request, answer: Answer, stage: Stage)
    requires rec.publication.TaskPublication? && Evident(rec) && Answers(rec, request, answer, stage)
    requires stage in rec.receipts ==> rec.receipts[stage] == answer.reply.receipt.value
    ensures RecordReply(rec, request, answer, stage, true).Ok? <==> Permits(rec, answer, stage)
  {
    hide Evident, Attests, Preparation, FindReceipt, Effected;
    ArmedIff(rec, answer.reply.snapshot.value.prepared);
  }

  /** A receipt is kept exactly when it answers the request, does not contradict an
      earlier one, and permits the forward work it is used for. */
  lemma ReceiptIff(rec: Record, request: Authority.Request, answer: Answer, stage: Stage, forward: bool)
    requires rec.publication.TaskPublication? && Evident(rec)
    ensures var done := RecordReply(rec, request, answer, stage, forward);
      && (done.Ok? <==>
            && Answers(rec, request, answer, stage) && (forward ==> Permits(rec, answer, stage))
            && (stage in rec.receipts ==> rec.receipts[stage] == answer.reply.receipt.value))
      && (done.Ok? ==> done.value == rec.(receipts := rec.receipts[stage := answer.reply.receipt.value]))
  {
    hide Evident, RecordReply, Permits;
    PlainReceipt(rec, request, answer, stage);
    if RecordReply(rec, request, answer, stage, false).Ok? { ForwardReceipt(rec, request, answer, stage); }
  }

  // ------------------------------------------------------------------------
  // Complete and rollback

  /** Complete is crossed exactly with every effect acknowledged and the ARM receipt
      held while active, or repeated while the result is still kept. */
  lemma FinishIff(rec: Record, success: Complete)
    requires Sound(rec)
    ensures var done := Finish(rec, success);
      && (done.Ok? <==>
            && success.reference == rec.publication.Ref()
            && if rec.complete.Some? then rec.result.Some? && rec.retiredSlot.None?
               else rec.phase.Active? && Effected(rec) && Armed in rec.receipts)
      && (done.Ok? ==> done.value == rec.(complete := Some(success), phase := Completed))
      && (done == Err(PayloadGone) <==>
            success.reference == rec.publication.Ref() && rec.complete.Some? && rec.retiredSlot.Some?)
  {
    hide Evident, ForwardSound, RollbackSound;
  }

  // Nothing but the registration of the owner was begun.
  ghost predicate NothingToUndo(rec: Record) {
    Materialize !in rec.intents &&
    forall i: nat :: i < rec.Count() ==> Prepare(i) !in rec.intents && Promote(i) !in rec.intents
  }

  lemma NoInverse(rec: Record)
    ensures Inverse(rec.intents, rec.Count()) == [] <==> NothingToUndo(rec)
  {
    var plan := Inverse(rec.intents, rec.Count());
    InverseIsExact(rec.intents, rec.Count());
    if plan != [] {
      assert plan[0] in plan;
    }
    if !NothingToUndo(rec) {
      assert plan != [] by {
        if Materialize !in rec.intents {
          var i: nat :| i < rec.Count() && (Prepare(i) in rec.intents || Promote(i) in rec.intents);
          assert Prepare(i) in rec.intents ==> ProvisionalRelease(i) in plan;
          assert Promote(i) in rec.intents ==> FinalRelease(i) in plan;
        } else {
          assert SlotDrop in plan;
        }
      }
    }
  }

  /** A rollback begins exactly before Complete while the publication is active, or is
      repeated under its own name. It plans the inverses of the intents, and is over at
      once when there is nothing to undo. */
  lemma BeginRollbackIff(rec: Record, rollbackId: string)
    requires Sound(rec)
    ensures var done := BeginRollback(rec, rollbackId);
      && (done.Ok? <==>
            && rec.complete.None?
            && if rec.rollback.Some? then rec.rollback.value.rollbackId == rollbackId else rec.phase.Active?)
      && (done.Ok? && rec.rollback.Some? ==> done.value == rec)
      && (done.Ok? && rec.rollback.None? ==>
            var plan := Plan(rec.publication.Ref(), rollbackId, Inverse(rec.intents, rec.Count()));
            done.value == rec.(rollback := Some(plan),
                               phase := if NothingToUndo(rec) then Emptied else RollingBack,
                               tombstone := if NothingToUndo(rec) then Some(Tombstone(plan, [])) else None))
  {
    hide Evident, InversesAnswered, Inverse;
    NoInverse(rec);
    if rec.complete.None? && rec.rollback.None? && rec.phase.Active? {
      FreshPlan(rec);
      if NothingToUndo(rec) {
        NothingStored(rec);
        assert BeginRollback(rec, rollbackId).value.tombstone.value.acks == [];
      }
    }
  }

  // No inverse is acknowledged before its rollback.
  lemma FreshPlan(rec: Record)
    requires Sound(rec) && rec.rollback.None?
    ensures var plan := Inverse(rec.intents, rec.Count());
      NextRollback(plan, rec.acks) == if plan == [] then None else Some(plan[0])
  {
    hide Evident, ForwardSound, ResultSound, PhaseSound, Inverse;
    var plan := Inverse(rec.intents, rec.Count());
    InverseIsExact(rec.intents, rec.Count());
    if plan != [] {
      assert plan[0] in plan;
    }
  }

  lemma NothingStored(rec: Record)
    requires Sound(rec) && NothingToUndo(rec)
    ensures rec.result.None?
  {
  }

  // The child's own answer: exactly this hold was released, or its owner is dead.
  predicate Frees(publication: Publication, step: Step, reply: Option<CleanupReply>)
    requires step.FinalRelease? || step.ProvisionalRelease? ==> step.index < |publication.transfers|
  {
    match step
    case FinalRelease(i) =>
      var t := publication.transfers[i];
      && reply.Some?
      && (reply.value.Freed? ==> reply.value.release.key == HoldKey(t.child, t.childOwner, t.final))
      && (reply.value.OwnerGone? ==> reply.value.death.worker == t.childOwner)
    case ProvisionalRelease(i) =>
      var t := publication.transfers[i];
      && reply.Some?
      && (reply.value.Freed? ==> reply.value.release.key == HoldKey(t.child, t.childOwner, t.provisional))
      && (reply.value.OwnerGone? ==> reply.value.death.worker == t.childOwner)
    case _ => true
  }

  // Everything planned before it is undone.
  ghost predicate UndoneBefore(plan: seq<Step>, acks: map<Step, Ack>, step: Step) {
    exists k :: 0 <= k < |plan| && plan[k] == step && forall j :: 0 <= j < k ==> plan[j] in acks
  }

  lemma {:induction false} NextIsFirst(plan: seq<Step>, acks: map<Step, Ack>, step: Step)
    requires step !in acks
    ensures NextRollback(plan, acks) == Some(step) <==> UndoneBefore(plan, acks, step)
  {
    if plan == [] {
    } else if plan[0] !in acks {
      assert plan[0] == step ==> UndoneBefore(plan, acks, step);
    } else {
      NextIsFirst(plan[1..], acks, step);
      if UndoneBefore(plan[1..], acks, step) {
        var k :| 0 <= k < |plan[1..]| && plan[1..][k] == step && forall j :: 0 <= j < k ==> plan[1..][j] in acks;
        forall j | 0 <= j < k + 1 ensures plan[j] in acks {
          assert j > 0 ==> plan[j] == plan[1..][j - 1];
        }
        assert plan[k + 1] == step;
      }
      if UndoneBefore(plan, acks, step) {
        var k :| 0 <= k < |plan| && plan[k] == step && forall j :: 0 <= j < k ==> plan[j] in acks;
        assert k > 0 && plan[1..][k - 1] == step;
        forall j | 0 <= j < k - 1 ensures plan[1..][j] in acks {
          assert plan[1..][j] == plan[j + 1];
        }
      }
    }
  }

  // The inverse this acknowledgement is for, in its turn, with the right answer.
  ghost predicate Undoes(rec: Record, ack: Ack, reply: Option<CleanupReply>)
    requires rec.rollback.Some? && Exists(rec, ack.effect.step)
  {
    UndoneBefore(rec.rollback.value.effects, rec.acks, ack.effect.step) &&
    Frees(rec.publication, ack.effect.step, reply)
  }

  /** A compensation is acknowledged exactly in the order of the plan and with the
      child's own answer; a repeated one changes nothing. */
  lemma AckRollbackIff(rec: Record, ack: Ack, reply: Option<CleanupReply>)
    requires Sound(rec)
    ensures var step, done := ack.effect.step, AckRollback(rec, ack, reply);
      && (done.Ok? <==>
            && ack.effect.reference == rec.publication.Ref() && Exists(rec, step)
            && rec.rollback.Some? && step in rec.rollback.value.effects
            && (step in rec.acks || Undoes(rec, ack, reply)))
      && (done.Ok? && step in rec.acks ==> done.value == rec)
      && (done.Ok? && step !in rec.acks ==> Undone(rec, done.value, ack, reply))
  {
    hide Evident, ForwardSound, ResultSound, PhaseSound, InversesAnswered, FinishRollback, NextRollback, Acked;
    var step := ack.effect.step;
    if rec.rollback.Some? && step !in rec.acks {
      NextIsFirst(rec.rollback.value.effects, rec.acks, step);
      AckedKeepsPlan(rec, ack, reply);
      if step in rec.rollback.value.effects { PlannedIsInverse(rec, step); }
      if NewAck(rec, ack, reply) && AckRollback(rec, ack, reply) == FinishRollback(Acked(rec, ack, reply)) {
        AckedThenFinished(rec, ack, reply);
        UndoneIs(rec, ack, reply);
      }
    }
  }

  lemma AckedKeepsPlan(rec: Record, ack: Ack, reply: Option<CleanupReply>)
    ensures Acked(rec, ack, reply).rollback == rec.rollback
  {
  }

  // The acknowledgement is kept with its answer; the last one closes the rollback.
  ghost predicate Undone(rec: Record, t: Record, ack: Ack, reply: Option<CleanupReply>)
    requires rec.rollback.Some?
  {
    var step, plan := ack.effect.step, rec.rollback.value;
    var over := forall e :: e in plan.effects ==> e == step || e in rec.acks;
    && t.acks == rec.acks[step := ack]
    && t.cleanups == (if (step.FinalRelease? || step.ProvisionalRelease?) && reply.Some?
                      then rec.cleanups[step := reply.value] else rec.cleanups)
    && t.result == (if step.SlotDrop? then None else rec.result)
    && t.phase == (if over then Emptied else rec.phase)
    && (if over then
          && t.tombstone.Some? && t.tombstone.value.plan == plan && |t.tombstone.value.acks| == |plan.effects|
          && (forall k :: 0 <= k < |plan.effects| ==> t.tombstone.value.acks[k] == t.acks[plan.effects[k]])
        else t.tombstone == rec.tombstone)
    && t == rec.(acks := t.acks, cleanups := t.cleanups, result := t.result, phase := t.phase, tombstone := t.tombstone)
  }

  lemma UndoneIs(rec: Record, ack: Ack, reply: Option<CleanupReply>)
    requires NewAck(rec, ack, reply) && !ack.effect.step.Forward() && FinishRollback(Acked(rec, ack, reply)).Ok?
    ensures Undone(rec, FinishRollback(Acked(rec, ack, reply)).value, ack, reply)
  {
    NextRollbackMeaning(rec.rollback.value.effects, rec.acks[ack.effect.step := ack]);
  }

  // ------------------------------------------------------------------------
  // Retirement

  /** A kept result is given up exactly after Complete, to its own owner, and always
      on the same proof. */
  lemma RetireSlotIff(rec: Record, proof: RetirementProof)
    ensures var done := RetireSlot(rec, proof);
      && (done.Ok? <==>
            && rec.complete.Some?
            && (match proof
                case ByAdoption(a) => a.complete == rec.complete.value && a.owner == rec.publication.owner
                case ByCleanup(success, owner, _) => success == rec.complete.value && owner == rec.publication.owner)
            && (proof.ByAdoption? && rec.adoption.Some? ==> rec.adoption.value == proof.adoption)
            && (rec.retiredSlot.Some? ==> rec.retiredSlot.value == proof))
      && (done == Err(WrongState) <==> rec.complete.None?)
      && (done.Ok? ==>
            done.value == rec.(retiredSlot := Some(proof), result := None, phase := Emptied,
                               adoption := if proof.ByAdoption? then Some(proof.adoption) else rec.adoption))
  {
  }

  /** The death of the owner retires the record exactly when it is the owner's, and
      always the same death. */
  lemma RetireOwnerDeathIff(rec: Record, death: Death)
    ensures var done := RetireOwnerDeath(rec, death);
      && (done.Ok? <==>
            death.worker == rec.publication.owner && (rec.ownerDeath.Some? ==> rec.ownerDeath.value == death))
      && (done.Ok? ==> done.value == rec.(ownerDeath := Some(death), result := None, phase := Emptied))
  {
  }
}
