/** The Node-local journal of one single-output publication: every external
    effect has an intent before it and a typed acknowledgement after it, and a
    rollback compensates the intents, never just the acknowledgements. */
module PublicationJournal {
  import opened Ids
  import opened PublicationFacts
  import Authority = PublicationAuthority

  // ------------------------------------------------------------------------
  // Values

  datatype Step =
    | OwnerRegister | Prepare(index: nat) | Materialize | Promote(index: nat)
    | SlotDrop | FinalRelease(index: nat) | ProvisionalRelease(index: nat)
  {
    predicate Forward() { OwnerRegister? || Prepare? || Materialize? || Promote? }
    predicate OfTransfer() { Prepare? || Promote? || FinalRelease? || ProvisionalRelease? }
  }

  datatype Effect = Effect(reference: PublicationRef, step: Step)
  datatype Ack = Ack(effect: Effect, replayed: bool)

  datatype Descriptor = Descriptor(name: ObjectID, payload: Payload, owner: WorkerID, node: NodeID)

  // What the effect of an acknowledged forward step returned.
  datatype Evidence = Silent | Pinned(reply: PinReply) | Stored(descriptor: Descriptor)

  datatype CleanupReply = Freed(release: Release) | OwnerGone(death: Death)

  datatype Plan = Plan(reference: PublicationRef, rollbackId: string, effects: seq<Step>)
  datatype Tombstone = Tombstone(plan: Plan, acks: seq<Ack>)
  datatype RetirementProof =
    | ByAdoption(adoption: Adoption)
    | ByCleanup(success: Complete, ownerId: WorkerID, cleanupId: string)
  {
    function Success(): Complete { if ByAdoption? then adoption.complete else success }
    function Owner(): WorkerID { if ByAdoption? then adoption.owner else ownerId }
  }

  datatype Envelope = Envelope(publication: Publication, complete: Complete, result: Descriptor)
  datatype Answer = Answer(request: Authority.Request, reply: Authority.Reply)

  datatype Phase = Active | RollingBack | Completed | Emptied

  datatype Record = Record(publication: Publication, phase: Phase, intents: set<Step>, acks: map<Step, Ack>,
                           result: Option<Descriptor>, complete: Option<Complete>, rollback: Option<Plan>,
                           tombstone: Option<Tombstone>, retiredSlot: Option<RetirementProof>,
                           adoption: Option<Adoption>, ownerDeath: Option<Death>, receipts: map<Stage, Receipt>,
                           children: map<Step, PinReply>, cleanups: map<Step, CleanupReply>)
  {
    function Ref(): PublicationRef { publication.Ref() }
    function Count(): nat { |publication.transfers| }
    predicate InRange(step: Step) { step.OfTransfer() ==> step.index < Count() }
    predicate AllPrepared() { forall i: nat :: i < Count() ==> Prepare(i) in acks }
    predicate AllPromoted() { forall i: nat :: i < Count() ==> Promote(i) in acks }
    predicate PreparationReady() { OwnerRegister in acks && Materialize in acks && AllPromoted() }
    predicate ReadyToComplete() { PreparationReady() && Armed in receipts }
  }

  function Opened(publication: Publication): Record {
    Record(publication, Active, {}, map[], None, None, None, None, None, None, None, map[], map[], map[])
  }

  datatype JournalError = Unopened | Mismatch | WrongState | PayloadGone | PayloadLeft
  datatype Result<+T> = Ok(value: T) | Err(error: JournalError)

  // ------------------------------------------------------------------------
  // Forward work

  // Which acknowledgements and receipts must precede a forward step.
  predicate StageReady(rec: Record, step: Step) {
    step.OwnerRegister? ||
    (OwnerRegister in rec.acks && PreparedGraph in rec.receipts &&
     (step.Prepare? || (rec.AllPrepared() && (step.Materialize? || Materialize in rec.acks))))
  }

  function Begin(rec: Record, step: Step): Result<Record> {
    if !rec.phase.Active? then Err(WrongState)
    else if !rec.InRange(step) then Err(Mismatch)
    else if !StageReady(rec, step) then Err(WrongState)
    else Ok(rec.(intents := rec.intents + {step}))
  }

  predicate DescriptorFits(publication: Publication, d: Descriptor)
    requires publication.TaskPublication?
  {
    d == Descriptor(publication.Object(), publication.payload, publication.owner, publication.node.node)
  }

  predicate EvidenceFits(publication: Publication, step: Step, evidence: Evidence)
    requires publication.TaskPublication? && (step.OfTransfer() ==> step.index < |publication.transfers|)
  {
    match step
    case Prepare(i) => evidence.Pinned? && evidence.reply.transfer == publication.transfers[i]
      && !evidence.reply.promote
    case Promote(i) => evidence.Pinned? && evidence.reply.transfer == publication.transfers[i] && evidence.reply.promote
    case Materialize => evidence.Stored? && DescriptorFits(publication, evidence.descriptor)
    case _ => true
  }

  function AckForward(rec: Record, ack: Ack, evidence: Evidence): Result<Record>
    requires rec.publication.TaskPublication?
  {
    var step := ack.effect.step;
    if !step.Forward() then Err(Mismatch)
    else if !rec.phase.Active? then Err(WrongState)
    else if ack.effect.reference != rec.Ref() || !rec.InRange(step) then Err(Mismatch)
    else if step !in rec.intents || !StageReady(rec, step) then Err(WrongState)
    else if !EvidenceFits(rec.publication, step, evidence) then Err(Mismatch)
    else if step in rec.acks then
      if step.Materialize? && rec.result != Some(evidence.descriptor) then Err(Mismatch) else Ok(rec)
    else Ok(rec.(acks := rec.acks[step := ack],
                 result := if step.Materialize? then Some(evidence.descriptor) else rec.result,
                 children := if step.OfTransfer() then rec.children[step := evidence.reply] else rec.children))
  }

  /** The receipt that attests every actual child and materialization ACK. */
  function Preparation(rec: Record): Result<Prepared>
    requires rec.publication.TaskPublication? && Evident(rec)
  {
    if !rec.phase.Active? || !rec.PreparationReady() then Err(WrongState)
    else
      PrepareBeforePromote(rec);
      Ok(TaskPrepared(rec.Ref(), seq(rec.Count(), i requires 0 <= i < rec.Count() => rec.children[Prepare(i)]),
                      seq(rec.Count(), i requires 0 <= i < rec.Count() => rec.children[Promote(i)]),
                      rec.publication.node))
  }

  function RecordReply(rec: Record, request: Authority.Request, answer: Answer, stage: Stage,
                       forward: bool): Result<Record>
    requires rec.publication.TaskPublication? && Evident(rec)
  {
    var reply := answer.reply;
    if answer.request != request || !reply.accepted || reply.receipt.None? || reply.snapshot.None?
      || reply.receipt.value.reference != rec.Ref() || reply.receipt.value.stage != stage
      || reply.snapshot.value.Ref() != rec.Ref() then Err(Mismatch)
    else if forward && (!rec.phase.Active? || !reply.snapshot.value.ForwardOpen()) then Err(WrongState)
    else if forward && stage.Intent? && OwnerRegister !in rec.acks then Err(WrongState)
    else if forward && stage.PreparedGraph? && Intent !in rec.receipts then Err(WrongState)
    else if forward && stage.Armed? && Preparation(rec).Err? then Err(WrongState)
    else if forward && stage.Armed? && reply.snapshot.value.prepared != Some(Preparation(rec).value) then Err(Mismatch)
    else if stage in rec.receipts && rec.receipts[stage] != reply.receipt.value then Err(Mismatch)
    else Ok(rec.(receipts := rec.receipts[stage := reply.receipt.value]))
  }

  function Finish(rec: Record, success: Complete): Result<Record> {
    if success != Complete(rec.Ref()) then Err(Mismatch)
    else if rec.complete.None? && !rec.phase.Active? then Err(WrongState)
    else if rec.complete.None? && !rec.ReadyToComplete() then Err(WrongState)
    else if rec.retiredSlot.Some? then Err(PayloadGone)
    else if rec.result.None? then Err(WrongState)
    else Ok(rec.(complete := Some(success), phase := Completed))
  }

  // ------------------------------------------------------------------------
  // Rollback

  function ReleaseOf(promote: bool, i: nat): Step { if promote then FinalRelease(i) else ProvisionalRelease(i) }
  function PinOf(promote: bool, i: nat): Step { if promote then Promote(i) else Prepare(i) }

  // The inverses of the recorded pins below n, last transfer first.
  function Releases(intents: set<Step>, promote: bool, n: nat): seq<Step> {
    if n == 0 then []
    else
      var last := if PinOf(promote, n - 1) in intents then [ReleaseOf(promote, n - 1)] else [];
      last + Releases(intents, promote, n - 1)
  }

  function Inverse(intents: set<Step>, n: nat): seq<Step> {
    (if Materialize in intents then [SlotDrop] else []) + Releases(intents, true, n) + Releases(intents, false, n)
  }

  function NextRollback(effects: seq<Step>, acks: map<Step, Ack>): Option<Step> {
    if effects == [] then None
    else if effects[0] !in acks then Some(effects[0])
    else NextRollback(effects[1..], acks)
  }

  lemma {:induction false} NextRollbackMeaning(effects: seq<Step>, acks: map<Step, Ack>)
    ensures match NextRollback(effects, acks)
            case None => forall e :: e in effects ==> e in acks
            case Some(step) => step !in acks && step in effects
  {
    if effects == [] {
    } else {
      NextRollbackMeaning(effects[1..], acks);
      assert effects == [effects[0]] + effects[1..];
    }
  }

  // Record the tombstone once every planned effect is acknowledged.
  function FinishRollback(rec: Record): Result<Record>
    requires rec.rollback.Some?
  {
    var effects := rec.rollback.value.effects;
    if NextRollback(effects, rec.acks).Some? then Ok(rec)
    else if rec.result.Some? then Err(PayloadLeft)
    else
      NextRollbackMeaning(effects, rec.acks);
      Ok(rec.(tombstone := Some(Tombstone(rec.rollback.value,
                                          seq(|effects|, i requires 0 <= i < |effects| => rec.acks[effects[i]]))),
              phase := Emptied))
  }

  function BeginRollback(rec: Record, rollbackId: string): Result<Record> {
    if rec.complete.Some? then Err(WrongState)
    else if rec.rollback.Some? then
      if rec.rollback.value.rollbackId != rollbackId then Err(Mismatch) else Ok(rec)
    else if !rec.phase.Active? then Err(WrongState)
    else
      FinishRollback(rec.(rollback := Some(Plan(rec.Ref(), rollbackId, Inverse(rec.intents, rec.Count()))),
                          phase := RollingBack))
  }

  function HoldOf(publication: Publication, step: Step): HoldKey
    requires (step.FinalRelease? || step.ProvisionalRelease?) && step.index < |publication.transfers|
  {
    if step.FinalRelease? then publication.transfers[step.index].FinalKey()
    else publication.transfers[step.index].ProvisionalKey()
  }

  predicate CleanupFits(publication: Publication, step: Step, reply: Option<CleanupReply>)
    requires step.OfTransfer() ==> step.index < |publication.transfers|
  {
    step.FinalRelease? || step.ProvisionalRelease? ==>
      match reply
      case None => false
      case Some(OwnerGone(death)) => death.worker == publication.transfers[step.index].childOwner
      case Some(Freed(release)) => release.key == HoldOf(publication, step)
  }

  function AckRollback(rec: Record, ack: Ack, reply: Option<CleanupReply>): Result<Record> {
    var step := ack.effect.step;
    if ack.effect.reference != rec.Ref() || !rec.InRange(step) then Err(Mismatch)
    else if rec.rollback.None? || step !in rec.rollback.value.effects then Err(WrongState)
    else if step in rec.acks then Ok(rec)
    else if NextRollback(rec.rollback.value.effects, rec.acks) != Some(step) then Err(WrongState)
    else if !CleanupFits(rec.publication, step, reply) then Err(Mismatch)
    else FinishRollback(Acked(rec, ack, reply))
  }

  function Acked(rec: Record, ack: Ack, reply: Option<CleanupReply>): Record {
    var step := ack.effect.step;
    rec.(acks := rec.acks[step := ack],
         cleanups := if step.OfTransfer() && reply.Some? then rec.cleanups[step := reply.value] else rec.cleanups,
         result := if step.SlotDrop? then None else rec.result)
  }

  // The effects a rollback may have to undo, frozen when it began.
  function Scope(rec: Record): Result<RollbackScope> {
    if rec.rollback.None? || rec.complete.Some? then Err(WrongState)
    else Ok(RollbackScope(rec.Ref(), rec.rollback.value.rollbackId,
                          (set i | i in Below(rec.Count()) && Prepare(i) in rec.intents),
                          (set i | i in Below(rec.Count()) && Promote(i) in rec.intents),
                          Materialize in rec.intents))
  }

  function Cleanups(effects: seq<Step>, cleanups: map<Step, CleanupReply>): seq<CleanupReply> {
    if effects == [] then []
    else (if effects[0] in cleanups then [cleanups[effects[0]]] else []) + Cleanups(effects[1..], cleanups)
  }

  function FreedOf(replies: seq<CleanupReply>): seq<Release> {
    if replies == [] then []
    else (if replies[0].Freed? then [replies[0].release] else []) + FreedOf(replies[1..])
  }

  // Deaths in first-mention order, each once.
  function DeathsOf(replies: seq<CleanupReply>): seq<Death> {
    if replies == [] then []
    else
      var last := replies[|replies| - 1];
      var before := DeathsOf(replies[..|replies| - 1]);
      if last.OwnerGone? && last.death !in before then before + [last.death] else before
  }

  function ClosedRollback(rec: Record): Result<ClosedHolds> {
    if rec.tombstone.None? || Scope(rec).Err? || rec.rollback.None? then Err(WrongState)
    else
      var replies := Cleanups(rec.rollback.value.effects, rec.cleanups);
      Ok(ClosedHolds(rec.Ref(), FreedOf(replies), DeathsOf(replies), Some(Scope(rec).value)))
  }

  // ------------------------------------------------------------------------
  // Retirement of the reply cache

  function RetireSlot(rec: Record, proof: RetirementProof): Result<Record> {
    if rec.complete.None? then Err(WrongState)
    else if proof.Success() != rec.complete.value || proof.Owner() != rec.publication.owner then Err(Mismatch)
    else if proof.ByAdoption? && rec.adoption.Some? && rec.adoption.value != proof.adoption then Err(Mismatch)
    else if rec.retiredSlot.Some? && rec.retiredSlot.value != proof then Err(Mismatch)
    else Ok(rec.(retiredSlot := Some(proof), result := None, phase := Emptied,
                 adoption := if proof.ByAdoption? then Some(proof.adoption) else rec.adoption))
  }

  function RetireOwnerDeath(rec: Record, death: Death): Result<Record> {
    if death.worker != rec.publication.owner then Err(Mismatch)
    else if rec.ownerDeath.Some? && rec.ownerDeath.value != death then Err(Mismatch)
    else Ok(rec.(ownerDeath := Some(death), result := None, phase := Emptied))
  }

  // ------------------------------------------------------------------------
  // What every journal record satisfies

  // Every acknowledged pin keeps its reply.
  ghost predicate Evident(rec: Record) {
    && (forall i: nat | Prepare(i) in rec.acks :: i < rec.Count() && Prepare(i) in rec.children
          && rec.children[Prepare(i)].transfer == rec.publication.transfers[i] && !rec.children[Prepare(i)].promote)
    && (forall i: nat | Promote(i) in rec.acks :: i < rec.Count() && Promote(i) in rec.children
          && rec.children[Promote(i)].transfer == rec.publication.transfers[i] && rec.children[Promote(i)].promote)
    && (Materialize in rec.acks ==> rec.AllPrepared())
  }

  lemma PrepareBeforePromote(rec: Record)
    requires Evident(rec) && rec.PreparationReady()
    ensures forall i: nat :: i < rec.Count() ==> Prepare(i) in rec.children && Promote(i) in rec.children
  {
    forall i: nat | i < rec.Count() ensures Prepare(i) in rec.children && Promote(i) in rec.children {
      assert Prepare(i) in rec.acks && Promote(i) in rec.acks;
    }
  }

  // Acknowledged forward steps were intended, in the order the stages allow.
  ghost predicate ForwardSound(rec: Record) {
    && (forall s :: s in rec.intents ==> s.Forward() && rec.InRange(s))
    && (forall s :: s in rec.acks && s.Forward() ==> s in rec.intents)
    && (forall s :: s in rec.intents && !s.OwnerRegister? ==> PreparedGraph in rec.receipts)
    && (Materialize in rec.intents ==> rec.AllPrepared())
    && ((exists i: nat :: Promote(i) in rec.intents) ==> Materialize in rec.acks)
  }

  // Every acknowledged inverse was planned, and each released hold has a fitting reply.
  ghost predicate InversesAnswered(rec: Record) {
    && (forall s :: s in rec.acks && !s.Forward() ==> rec.rollback.Some? && s in rec.rollback.value.effects)
    && (forall s | s in rec.acks && (s.FinalRelease? || s.ProvisionalRelease?) ::
          rec.InRange(s) && s in rec.cleanups && CleanupFits(rec.publication, s, Some(rec.cleanups[s])))
    && (forall s :: s in rec.cleanups ==> s.FinalRelease? || s.ProvisionalRelease?)
  }

  // A rollback undoes exactly the intents; a tombstone closes all of it.
  ghost predicate RollbackSound(rec: Record) {
    && (rec.rollback.Some? ==>
          && rec.rollback.value.reference == rec.Ref()
          && rec.rollback.value.effects == Inverse(rec.intents, rec.Count())
          && (NextRollback(rec.rollback.value.effects, rec.acks).None? <==> rec.tombstone.Some?))
    && (rec.rollback.None? ==> rec.tombstone.None?)
    && InversesAnswered(rec)
    && (rec.tombstone.Some? ==> rec.tombstone.value.plan == rec.rollback.value)
  }

  ghost predicate ResultSound(rec: Record)
    requires rec.publication.TaskPublication?
  {
    && (rec.result.Some? ==> Materialize in rec.acks && DescriptorFits(rec.publication, rec.result.value))
    && (rec.phase.Active? && Materialize in rec.acks ==> rec.result.Some?)
    && (rec.tombstone.Some? || SlotDrop in rec.acks || rec.retiredSlot.Some? || rec.ownerDeath.Some? ==>
         rec.result.None?)
  }

  ghost predicate PhaseSound(rec: Record) {
    && (rec.complete.Some? ==>
          rec.complete.value == Complete(rec.Ref()) && rec.ReadyToComplete() && rec.rollback.None?
            && !rec.phase.Active?)
    && (rec.rollback.Some? ==> !rec.phase.Active? && !rec.phase.Completed?)
    && (rec.phase.Completed? ==> rec.complete.Some? && rec.result.Some?)
    && (rec.phase.RollingBack? ==> rec.rollback.Some? && rec.tombstone.None?)
    && (rec.ownerDeath.Some? || rec.tombstone.Some? || rec.retiredSlot.Some? ==> rec.phase.Emptied?)
    && (rec.retiredSlot.Some? ==> rec.complete.Some?)
  }

  ghost predicate Sound(rec: Record)
  {
    && rec.publication.TaskPublication? && rec.publication.Valid()
    && Evident(rec) && ForwardSound(rec) && RollbackSound(rec) && ResultSound(rec) && PhaseSound(rec)
  }

  // ------------------------------------------------------------------------
  // Every operation keeps it

  lemma OpenedIsSound(publication: Publication)
    requires publication.TaskPublication? && publication.Valid()
    ensures Sound(Opened(publication))
  {
  }

  lemma BeginKeepsSound(rec: Record, step: Step)
    requires Sound(rec) && step.Forward()
    ensures Begin(rec, step).Ok? ==> Sound(Begin(rec, step).value)
  {
    hide Evident, ForwardSound, ResultSound, RollbackSound, PhaseSound;
    if Begin(rec, step).Ok? {
      IntendedIsForward(rec, step);
      IntendedCloses(rec, step);
    }
  }

  lemma IntendedIsForward(rec: Record, step: Step)
    requires Evident(rec) && ForwardSound(rec) && step.Forward() && rec.InRange(step) && StageReady(rec, step)
    ensures var next := rec.(intents := rec.intents + {step}); Evident(next) && ForwardSound(next)
  {
  }

  lemma IntendedCloses(rec: Record, step: Step)
    requires rec.publication.TaskPublication? && rec.phase.Active?
    requires RollbackSound(rec) && ResultSound(rec) && PhaseSound(rec)
    ensures var next := rec.(intents := rec.intents + {step});
      RollbackSound(next) && ResultSound(next) && PhaseSound(next)
  {
  }

  lemma AckForwardKeepsSound(rec: Record, ack: Ack, evidence: Evidence)
    requires Sound(rec)
    ensures AckForward(rec, ack, evidence).Ok? ==> Sound(AckForward(rec, ack, evidence).value)
  {
    AckForwardIsForward(rec, ack, evidence);
    AckForwardCloses(rec, ack, evidence);
    hide AckForward, Evident, ForwardSound, ResultSound, RollbackSound, PhaseSound;
  }

  // A new acknowledgement is of an intended step whose stage is due.
  lemma AckForwardIs(rec: Record, ack: Ack, evidence: Evidence)
    requires rec.publication.TaskPublication?
    ensures var done, step := AckForward(rec, ack, evidence), ack.effect.step;
      done.Ok? && done.value != rec ==>
        && step.Forward() && rec.InRange(step) && step in rec.intents && StageReady(rec, step)
        && EvidenceFits(rec.publication, step, evidence)
        && done.value == rec.(acks := rec.acks[step := ack], result := done.value.result,
                              children := if step.OfTransfer() then rec.children[step := evidence.reply]
                                          else rec.children)
  {
  }

  lemma AckForwardIsForward(rec: Record, ack: Ack, evidence: Evidence)
    requires rec.publication.TaskPublication? && Evident(rec) && ForwardSound(rec)
    ensures var done := AckForward(rec, ack, evidence);
      done.Ok? ==> done.value.publication == rec.publication && Evident(done.value) && ForwardSound(done.value)
  {
    hide AckForward;
    AckForwardIs(rec, ack, evidence);
  }

  lemma AckForwardCloses(rec: Record, ack: Ack, evidence: Evidence)
    requires Sound(rec)
    ensures var done := AckForward(rec, ack, evidence);
      done.Ok? ==> RollbackSound(done.value) && ResultSound(done.value) && PhaseSound(done.value)
  {
    hide ForwardSound;
  }

  // An authority reply adds its receipt or repeats it.
  lemma RecordReplyIs(rec: Record, request: Authority.Request, answer: Answer, stage: Stage, forward: bool)
    requires rec.publication.TaskPublication? && Evident(rec)
    ensures var done := RecordReply(rec, request, answer, stage, forward);
      done.Ok? ==>
        && answer.reply.receipt.Some? && (stage in rec.receipts ==> rec.receipts[stage] == answer.reply.receipt.value)
        && done.value == rec.(receipts := rec.receipts[stage := answer.reply.receipt.value])
  {
    hide Evident;
  }

  lemma ReceiptKeepsSound(rec: Record, stage: Stage, receipt: Receipt)
    requires Sound(rec)
    ensures Sound(rec.(receipts := rec.receipts[stage := receipt]))
  {
    hide Evident, ForwardSound, RollbackSound, ResultSound, PhaseSound;
    ReceiptKeepsForward(rec, stage, receipt);
    ReceiptKeepsOutcome(rec, stage, receipt);
  }

  lemma ReceiptKeepsForward(rec: Record, stage: Stage, receipt: Receipt)
    requires Evident(rec) && ForwardSound(rec)
    ensures var next := rec.(receipts := rec.receipts[stage := receipt]); Evident(next) && ForwardSound(next)
  {
  }

  lemma ReceiptKeepsOutcome(rec: Record, stage: Stage, receipt: Receipt)
    requires rec.publication.TaskPublication? && RollbackSound(rec) && ResultSound(rec) && PhaseSound(rec)
    ensures var next := rec.(receipts := rec.receipts[stage := receipt]);
      RollbackSound(next) && ResultSound(next) && PhaseSound(next)
  {
  }

  lemma RecordReplyKeepsSound(rec: Record, request: Authority.Request, answer: Answer, stage: Stage, forward: bool)
    requires Sound(rec)
    ensures var done := RecordReply(rec, request, answer, stage, forward); done.Ok? ==> Sound(done.value)
  {
    hide RecordReply, Evident, ForwardSound, RollbackSound, ResultSound, PhaseSound;
    RecordReplyIs(rec, request, answer, stage, forward);
    if RecordReply(rec, request, answer, stage, forward).Ok? {
      ReceiptKeepsSound(rec, stage, answer.reply.receipt.value);
    }
  }

  lemma FinishKeepsSound(rec: Record, success: Complete)
    requires Sound(rec)
    ensures Finish(rec, success).Ok? ==> Sound(Finish(rec, success).value)
  {
  }

  lemma {:induction false} ReleasesAre(intents: set<Step>, promote: bool, n: nat)
    ensures forall e :: e in Releases(intents, promote, n) <==>
              exists i: nat :: i < n && e == ReleaseOf(promote, i) && PinOf(promote, i) in intents
  {
    if n == 0 {
    } else {
      ReleasesAre(intents, promote, n - 1);
      forall e | e in Releases(intents, promote, n)
        ensures exists i: nat :: i < n && e == ReleaseOf(promote, i) && PinOf(promote, i) in intents
      {
        if e in Releases(intents, promote, n - 1) {
          var i: nat :| i < n - 1 && e == ReleaseOf(promote, i) && PinOf(promote, i) in intents;
        } else {
          assert e == ReleaseOf(promote, n - 1);
        }
      }
    }
  }

  /** The plan holds exactly the inverse of every recorded child and data intent. */
  lemma InverseIsExact(intents: set<Step>, n: nat)
    ensures var plan := Inverse(intents, n);
      && (forall e :: e in plan ==> e.SlotDrop? || ((e.FinalRelease? || e.ProvisionalRelease?) && e.index < n))
      && (SlotDrop in plan <==> Materialize in intents)
      && (forall i: nat | i < n :: FinalRelease(i) in plan <==> Promote(i) in intents)
      && (forall i: nat | i < n :: ProvisionalRelease(i) in plan <==> Prepare(i) in intents)
  {
    ReleasesAre(intents, true, n);
    ReleasesAre(intents, false, n);
    forall i: nat | i < n
      ensures FinalRelease(i) in Inverse(intents, n) <==> Promote(i) in intents
      ensures ProvisionalRelease(i) in Inverse(intents, n) <==> Prepare(i) in intents
    {
      assert FinalRelease(i) == ReleaseOf(true, i) && Promote(i) == PinOf(true, i);
      assert ProvisionalRelease(i) == ReleaseOf(false, i) && Prepare(i) == PinOf(false, i);
    }
  }

  // Where a compensation stands: the slot first, then finals, then provisionals, each last to first.
  function Rank(step: Step, n: nat): int {
    match step
    case SlotDrop => 2 * n
    case FinalRelease(i) => n + i
    case ProvisionalRelease(i) => i
    case _ => -1
  }

  ghost predicate Descending(steps: seq<Step>, n: nat) {
    forall i, j :: 0 <= i < j < |steps| ==> Rank(steps[i], n) > Rank(steps[j], n)
  }

  lemma DescendingConcat(a: seq<Step>, b: seq<Step>, n: nat)
    requires Descending(a, n) && Descending(b, n)
    requires forall x, y :: x in a && y in b ==> Rank(x, n) > Rank(y, n)
    ensures Descending(a + b, n)
  {
    var c := a + b;
    forall i, j | 0 <= i < j < |c| ensures Rank(c[i], n) > Rank(c[j], n) {
      if i < |a| <= j {
        assert c[i] in a && c[j] in b;
      }
    }
  }

  lemma {:induction false} ReleasesDescend(intents: set<Step>, promote: bool, n: nat, size: nat)
    requires n <= size
    ensures var base := if promote then size else 0;
      forall e :: e in Releases(intents, promote, n) ==> base <= Rank(e, size) < base + n
    ensures Descending(Releases(intents, promote, n), size)
  {
    if n == 0 {
    } else {
      ReleasesDescend(intents, promote, n - 1, size);
      var first := if PinOf(promote, n - 1) in intents then [ReleaseOf(promote, n - 1)] else [];
      DescendingConcat(first, Releases(intents, promote, n - 1), size);
    }
  }

  /** The plan runs strictly backwards, so no compensation is planned twice. */
  lemma InverseDescends(intents: set<Step>, n: nat)
    ensures Descending(Inverse(intents, n), n)
  {
    ReleasesDescend(intents, true, n, n);
    ReleasesDescend(intents, false, n, n);
    var drop := if Materialize in intents then [SlotDrop] else [];
    DescendingConcat(drop, Releases(intents, true, n), n);
    DescendingConcat(drop + Releases(intents, true, n), Releases(intents, false, n), n);
  }

  // Dropping the slot is planned whenever a result could exist, so nothing is left.
  // A tombstone leaves the recorded evidence alone.
  lemma FinishLeaves(rec: Record)
    requires rec.rollback.Some?
    ensures FinishRollback(rec).Ok? ==>
      FinishRollback(rec).value.receipts == rec.receipts && FinishRollback(rec).value.cleanups == rec.cleanups
  {
  }

  lemma NothingLeft(rec: Record)
    requires ForwardSound(rec) && rec.rollback.Some? && rec.rollback.value.effects == Inverse(rec.intents, rec.Count())
    requires rec.result.Some? ==> Materialize in rec.acks && SlotDrop !in rec.acks
    ensures FinishRollback(rec).Ok?
  {
    InverseIsExact(rec.intents, rec.Count());
    NextRollbackMeaning(rec.rollback.value.effects, rec.acks);
  }

  lemma BeginRollbackKeepsSound(rec: Record, rollbackId: string)
    requires Sound(rec)
    ensures BeginRollback(rec, rollbackId).Ok? ==> Sound(BeginRollback(rec, rollbackId).value)
    ensures BeginRollback(rec, rollbackId) != Err(PayloadLeft)
  {
    if rec.rollback.None? && rec.complete.None? && rec.phase.Active? {
      BegunIsAlmostSound(rec, rollbackId);
      FinishRollbackIsSound(Begun(rec, rollbackId));
    }
  }

  function Begun(rec: Record, rollbackId: string): Record {
    rec.(rollback := Some(Plan(rec.Ref(), rollbackId, Inverse(rec.intents, rec.Count()))), phase := RollingBack)
  }

  lemma BegunIsAlmostSound(rec: Record, rollbackId: string)
    requires Sound(rec) && rec.rollback.None? && rec.complete.None? && rec.phase.Active?
    ensures AlmostSound(Begun(rec, rollbackId))
  {
  }

  // An acknowledgement that is neither refused nor a replay is the plan's next one.
  ghost predicate NewAck(rec: Record, ack: Ack, reply: Option<CleanupReply>) {
    && rec.rollback.Some? && rec.InRange(ack.effect.step) && ack.effect.step !in rec.acks
    && ack.effect.step in rec.rollback.value.effects && CleanupFits(rec.publication, ack.effect.step, reply)
  }

  lemma AckRollbackShape(rec: Record, ack: Ack, reply: Option<CleanupReply>)
    ensures var done := AckRollback(rec, ack, reply);
      || done == Ok(rec) || done == Err(Mismatch) || done == Err(WrongState)
      || (NewAck(rec, ack, reply) && done == FinishRollback(Acked(rec, ack, reply)))
  {
  }

  lemma AckRollbackKeepsSound(rec: Record, ack: Ack, reply: Option<CleanupReply>)
    requires Sound(rec)
    ensures AckRollback(rec, ack, reply).Ok? ==> Sound(AckRollback(rec, ack, reply).value)
    ensures AckRollback(rec, ack, reply) != Err(PayloadLeft)
  {
    AckRollbackShape(rec, ack, reply);
    if NewAck(rec, ack, reply) {
      AckedThenFinished(rec, ack, reply);
    }
  }

  lemma AckedThenFinished(rec: Record, ack: Ack, reply: Option<CleanupReply>)
    requires Sound(rec) && NewAck(rec, ack, reply)
    ensures FinishRollback(Acked(rec, ack, reply)).Ok? && Sound(FinishRollback(Acked(rec, ack, reply)).value)
  {
    NextRollbackMeaning(rec.rollback.value.effects, rec.acks);
    AckedIsSound(rec, ack, reply);
    FinishRollbackIsSound(Acked(rec, ack, reply));
  }

  // Everything but the tombstone, which the last acknowledgement still has to add.
  ghost predicate AlmostSound(rec: Record) {
    && rec.publication.TaskPublication? && rec.publication.Valid()
    && Evident(rec) && ForwardSound(rec) && ResultSound(rec) && PhaseSound(rec)
    && rec.rollback.Some? && rec.tombstone.None?
    && rec.rollback.value.reference == rec.Ref() && rec.rollback.value.effects == Inverse(rec.intents, rec.Count())
    && InversesAnswered(rec)
  }

  lemma AckedIsSound(rec: Record, ack: Ack, reply: Option<CleanupReply>)
    requires Sound(rec) && rec.rollback.Some? && rec.tombstone.None? && rec.InRange(ack.effect.step)
    requires ack.effect.step in rec.rollback.value.effects && CleanupFits(rec.publication, ack.effect.step, reply)
    ensures AlmostSound(Acked(rec, ack, reply))
  {
    hide Evident, ForwardSound, ResultSound, PhaseSound, RollbackSound;
    PlannedIsInverse(rec, ack.effect.step);
    AckedKeepsForward(rec, ack, reply);
    AckedKeepsPhase(rec, ack, reply);
    AckedKeepsResult(rec, ack, reply);
    AckedKeepsCleanups(rec, ack, reply);
  }

  lemma AckedKeepsCleanups(rec: Record, ack: Ack, reply: Option<CleanupReply>)
    requires RollbackSound(rec) && rec.rollback.Some? && rec.InRange(ack.effect.step) && !ack.effect.step.Forward()
    requires ack.effect.step in rec.rollback.value.effects && CleanupFits(rec.publication, ack.effect.step, reply)
    ensures var next := Acked(rec, ack, reply);
      && next.rollback == rec.rollback && next.tombstone == rec.tombstone && next.intents == rec.intents
      && next.publication == rec.publication
      && rec.rollback.value.reference == rec.Ref() && rec.rollback.value.effects == Inverse(rec.intents, rec.Count())
      && InversesAnswered(next)
  {
  }

  lemma PlannedIsInverse(rec: Record, step: Step)
    requires RollbackSound(rec) && rec.rollback.Some? && step in rec.rollback.value.effects
    ensures !step.Forward()
  {
    InverseIsExact(rec.intents, rec.Count());
  }

  lemma AckedKeepsForward(rec: Record, ack: Ack, reply: Option<CleanupReply>)
    requires Evident(rec) && ForwardSound(rec) && !ack.effect.step.Forward()
    ensures Evident(Acked(rec, ack, reply)) && ForwardSound(Acked(rec, ack, reply))
  {
  }

  lemma AckedKeepsResult(rec: Record, ack: Ack, reply: Option<CleanupReply>)
    requires rec.publication.TaskPublication? && ResultSound(rec) && !rec.phase.Active? && !ack.effect.step.Forward()
    ensures ResultSound(Acked(rec, ack, reply))
  {
  }

  lemma AckedKeepsPhase(rec: Record, ack: Ack, reply: Option<CleanupReply>)
    requires PhaseSound(rec) && rec.rollback.Some? && !ack.effect.step.Forward()
    ensures PhaseSound(Acked(rec, ack, reply)) && !rec.phase.Active?
  {
  }

  lemma FinishRollbackIsSound(rec: Record)
    requires AlmostSound(rec)
    ensures FinishRollback(rec).Ok? && Sound(FinishRollback(rec).value)
  {
    NextRollbackMeaning(rec.rollback.value.effects, rec.acks);
    NothingLeft(rec);
  }

  lemma RetireSlotKeepsSound(rec: Record, proof: RetirementProof)
    requires Sound(rec)
    ensures RetireSlot(rec, proof).Ok? ==> Sound(RetireSlot(rec, proof).value)
  {
  }

  lemma RetireOwnerDeathKeepsSound(rec: Record, death: Death)
    requires Sound(rec)
    ensures RetireOwnerDeath(rec, death).Ok? ==> Sound(RetireOwnerDeath(rec, death).value)
  {
    hide Evident, ForwardSound, RollbackSound, ResultSound, PhaseSound;
    DeathKeepsForward(rec, death);
    DeathKeepsOutcome(rec, death);
  }

  lemma DeathKeepsForward(rec: Record, death: Death)
    requires Evident(rec) && ForwardSound(rec)
    ensures var next := rec.(ownerDeath := Some(death), result := None, phase := Emptied);
      Evident(next) && ForwardSound(next)
  {
  }

  lemma DeathKeepsOutcome(rec: Record, death: Death)
    requires rec.publication.TaskPublication? && RollbackSound(rec) && ResultSound(rec) && PhaseSound(rec)
    ensures var next := rec.(ownerDeath := Some(death), result := None, phase := Emptied);
      RollbackSound(next) && ResultSound(next) && PhaseSound(next)
  {
  }

  // ------------------------------------------------------------------------
  // Whole runs of one record

  // One journal call on an opened record.
  datatype Move =
    | Begins(step: Step)
    | Acks(ack: Ack, evidence: Evidence)
    | Records(request: Authority.Request, answer: Answer, stage: Stage, forward: bool)
    | Finishes(success: Complete)
    | RollsBack(rollbackId: string)
    | AcksRollback(cleanupAck: Ack, reply: Option<CleanupReply>)
    | RetiresSlot(proof: RetirementProof)
    | RetiresOwner(death: Death)
  {
    predicate Valid() { Begins? ==> step.Forward() }
  }

  function Attempt(rec: Record, move: Move): Result<Record>
    requires rec.publication.TaskPublication? && Evident(rec)
  {
    match move
    case Begins(step) => Begin(rec, step)
    case Acks(ack, evidence) => AckForward(rec, ack, evidence)
    case Records(request, answer, stage, forward) => RecordReply(rec, request, answer, stage, forward)
    case Finishes(success) => Finish(rec, success)
    case RollsBack(rollbackId) => BeginRollback(rec, rollbackId)
    case AcksRollback(ack, reply) => AckRollback(rec, ack, reply)
    case RetiresSlot(proof) => RetireSlot(rec, proof)
    case RetiresOwner(death) => RetireOwnerDeath(rec, death)
  }

  function Act(rec: Record, move: Move): Record
    requires rec.publication.TaskPublication? && Evident(rec)
  {
    var done := Attempt(rec, move);
    if done.Ok? then done.value else rec
  }

  /** No journal call breaks a sound record, and none ever finds a payload that
      its rollback failed to drop. */
  lemma ActKeepsSound(rec: Record, move: Move)
    requires Sound(rec) && move.Valid()
    ensures Sound(Act(rec, move))
    ensures Attempt(rec, move) != Err(PayloadLeft)
  {
    match move
    case Begins(step) => BeginKeepsSound(rec, step);
    case Acks(ack, evidence) => AckForwardKeepsSound(rec, ack, evidence);
    case Records(request, answer, stage, forward) => RecordReplyKeepsSound(rec, request, answer, stage, forward);
    case Finishes(success) => FinishKeepsSound(rec, success);
    case RollsBack(rollbackId) => BeginRollbackKeepsSound(rec, rollbackId);
    case AcksRollback(ack, reply) => AckRollbackKeepsSound(rec, ack, reply);
    case RetiresSlot(proof) => RetireSlotKeepsSound(rec, proof);
    case RetiresOwner(death) => RetireOwnerDeathKeepsSound(rec, death);
  }

  // What no later call can take back.
  ghost predicate Outlives(rec: Record, next: Record) {
    && next.publication == rec.publication
    && rec.intents <= next.intents && (!rec.phase.Active? ==> next.intents == rec.intents && !next.phase.Active?)
    && (forall s :: s in rec.acks ==> s in next.acks && next.acks[s] == rec.acks[s])
    && (forall st :: st in rec.receipts ==> st in next.receipts && next.receipts[st] == rec.receipts[st])
    && (forall s :: s in rec.acks && s in rec.cleanups ==> s in next.cleanups && next.cleanups[s] == rec.cleanups[s])
    && (forall s :: s in rec.acks && s in rec.children ==> s in next.children && next.children[s] == rec.children[s])
    && (rec.complete.Some? ==> next.complete == rec.complete)
    && (rec.rollback.Some? ==> next.rollback == rec.rollback)
    && (rec.tombstone.Some? ==> next.tombstone == rec.tombstone)
  }

  lemma BeginOutlives(rec: Record, step: Step)
    requires Sound(rec) && step.Forward()
    ensures Begin(rec, step).Ok? ==> Outlives(rec, Begin(rec, step).value)
  {
  }

  lemma AckForwardOutlives(rec: Record, ack: Ack, evidence: Evidence)
    requires Sound(rec)
    ensures AckForward(rec, ack, evidence).Ok? ==> Outlives(rec, AckForward(rec, ack, evidence).value)
  {
    hide AckForward, Evident, ForwardSound, RollbackSound, ResultSound, PhaseSound, EvidenceFits;
    AckForwardIs(rec, ack, evidence);
    AckedOnce(rec, ack, evidence);
  }

  // Repeating an acknowledgement changes nothing.
  lemma AckedOnce(rec: Record, ack: Ack, evidence: Evidence)
    requires rec.publication.TaskPublication?
    ensures var done := AckForward(rec, ack, evidence); done.Ok? && done.value != rec ==> ack.effect.step !in rec.acks
  {
  }

  lemma RecordReplyOutlives(rec: Record, request: Authority.Request, answer: Answer, stage: Stage, forward: bool)
    requires Sound(rec)
    ensures var done := RecordReply(rec, request, answer, stage, forward); done.Ok? ==> Outlives(rec, done.value)
  {
    hide RecordReply, Evident, ForwardSound, RollbackSound, ResultSound, PhaseSound;
    RecordReplyIs(rec, request, answer, stage, forward);
  }

  lemma BeginRollbackIs(rec: Record, rollbackId: string)
    ensures var done := BeginRollback(rec, rollbackId);
      done.Ok? ==> done.value == rec || (rec.rollback.None? && rec.complete.None? && rec.phase.Active?
                                         && done == FinishRollback(Begun(rec, rollbackId)))
  {
    hide FinishRollback;
  }

  lemma BegunOutlives(rec: Record, rollbackId: string)
    requires rec.rollback.None? && rec.tombstone.None?
    ensures Outlives(rec, Begun(rec, rollbackId))
  {
  }

  lemma BeginRollbackOutlives(rec: Record, rollbackId: string)
    requires RollbackSound(rec)
    ensures BeginRollback(rec, rollbackId).Ok? ==> Outlives(rec, BeginRollback(rec, rollbackId).value)
  {
    hide BeginRollback, FinishRollback, InversesAnswered;
    BeginRollbackIs(rec, rollbackId);
    if BeginRollback(rec, rollbackId).Ok? && BeginRollback(rec, rollbackId).value != rec {
      BegunOutlives(rec, rollbackId);
      FinishOutlives(Begun(rec, rollbackId));
      OutlivesTransitive(rec, Begun(rec, rollbackId), BeginRollback(rec, rollbackId).value);
    }
  }

  lemma FinishesOutlives(rec: Record, success: Complete)
    requires PhaseSound(rec)
    ensures Finish(rec, success).Ok? ==> Outlives(rec, Finish(rec, success).value)
  {
  }

  lemma RetirementOutlives(rec: Record, proof: RetirementProof)
    requires PhaseSound(rec)
    ensures RetireSlot(rec, proof).Ok? ==> Outlives(rec, RetireSlot(rec, proof).value)
  {
  }

  lemma DeathOutlives(rec: Record, death: Death)
    ensures RetireOwnerDeath(rec, death).Ok? ==> Outlives(rec, RetireOwnerDeath(rec, death).value)
  {
  }

  lemma OutlivesTransitive(a: Record, b: Record, c: Record)
    requires Outlives(a, b) && Outlives(b, c)
    ensures Outlives(a, c)
  {
  }

  lemma AckedOutlives(rec: Record, ack: Ack, reply: Option<CleanupReply>)
    requires ack.effect.step !in rec.acks
    ensures Outlives(rec, Acked(rec, ack, reply))
  {
  }

  lemma AckRollbackOutlives(rec: Record, ack: Ack, reply: Option<CleanupReply>)
    requires RollbackSound(rec) && (rec.rollback.Some? ==> !rec.phase.Active?)
    ensures AckRollback(rec, ack, reply).Ok? ==> Outlives(rec, AckRollback(rec, ack, reply).value)
  {
    AckRollbackShape(rec, ack, reply);
    if NewAck(rec, ack, reply) {
      NextRollbackMeaning(rec.rollback.value.effects, rec.acks);
      AckedOutlives(rec, ack, reply);
      FinishOutlives(Acked(rec, ack, reply));
      hide AckRollback, FinishRollback, Outlives;
      if FinishRollback(Acked(rec, ack, reply)).Ok? {
        OutlivesTransitive(rec, Acked(rec, ack, reply), FinishRollback(Acked(rec, ack, reply)).value);
      }
    }
  }

  lemma FinishOutlives(rec: Record)
    requires rec.rollback.Some? && rec.tombstone.None? && !rec.phase.Active?
    ensures FinishRollback(rec).Ok? ==> Outlives(rec, FinishRollback(rec).value)
  {
  }

  lemma ActOutlives(rec: Record, move: Move)
    requires Sound(rec) && move.Valid()
    ensures Outlives(rec, Act(rec, move))
  {
    match move
    case Begins(step) => BeginOutlives(rec, step);
    case Acks(ack, evidence) => AckForwardOutlives(rec, ack, evidence);
    case Records(request, answer, stage, forward) => RecordReplyOutlives(rec, request, answer, stage, forward);
    case RollsBack(rollbackId) => BeginRollbackOutlives(rec, rollbackId);
    case AcksRollback(ack, reply) => AckRollbackOutlives(rec, ack, reply);
    case Finishes(success) => FinishesOutlives(rec, success);
    case RetiresSlot(proof) => RetirementOutlives(rec, proof);
    case RetiresOwner(death) => DeathOutlives(rec, death);
  }

  ghost function RunMoves(rec: Record, moves: seq<Move>): (end: Record)
    requires Sound(rec) && forall m :: m in moves ==> m.Valid()
    ensures Sound(end)
    decreases |moves|
  {
    if moves == [] then rec
    else
      ActKeepsSound(rec, moves[0]);
      RunMoves(Act(rec, moves[0]), moves[1..])
  }

  lemma {:induction false} RunOutlives(rec: Record, moves: seq<Move>)
    requires Sound(rec) && forall m :: m in moves ==> m.Valid()
    ensures Outlives(rec, RunMoves(rec, moves))
    decreases |moves|
  {
    if moves == [] {
    } else {
      ActKeepsSound(rec, moves[0]);
      ActOutlives(rec, moves[0]);
      RunOutlives(Act(rec, moves[0]), moves[1..]);
    }
  }

  /** Main result: however a publication's record was driven, its Complete rests
      on every registration, pin, materialization and ARM acknowledgement and
      excludes a rollback; its tombstone means that every recorded intent was
      compensated with exact evidence and that no payload is left. */
  lemma OutcomeIsSettled(start: Record, moves: seq<Move>)
    requires Sound(start) && forall m :: m in moves ==> m.Valid()
    ensures var rec := RunMoves(start, moves);
      && (rec.complete.Some? ==>
            && rec.rollback.None? && OwnerRegister in rec.acks && Materialize in rec.acks && Armed in rec.receipts
            && forall i: nat :: i < rec.Count() ==> Prepare(i) in rec.acks && Promote(i) in rec.acks)
      && (rec.tombstone.Some? ==> rec.result.None? && rec.complete.None? && Compensated(rec))
  {
    var rec := RunMoves(start, moves);
    if rec.tombstone.Some? {
      TombstoneCompensates(rec);
    }
  }

  // Each possible effect has its inverse acknowledged, with the reply of the right hold.
  ghost predicate Compensated(rec: Record) {
    && (Materialize in rec.intents ==> SlotDrop in rec.acks)
    && (forall i: nat | Promote(i) in rec.intents :: rec.InRange(Promote(i)) && InverseAnswered(rec, FinalRelease(i)))
    && (forall i: nat | Prepare(i) in rec.intents ::
          rec.InRange(Prepare(i)) && InverseAnswered(rec, ProvisionalRelease(i)))
  }

  ghost predicate InverseAnswered(rec: Record, step: Step)
    requires rec.InRange(step)
  {
    step in rec.acks && step in rec.cleanups && CleanupFits(rec.publication, step, Some(rec.cleanups[step]))
  }

  lemma PlannedIsAnswered(rec: Record, step: Step)
    requires RollbackSound(rec) && rec.tombstone.Some? && step in rec.rollback.value.effects
    ensures step in rec.acks
    ensures step.FinalRelease? || step.ProvisionalRelease? ==> rec.InRange(step) && InverseAnswered(rec, step)
  {
    NextRollbackMeaning(rec.rollback.value.effects, rec.acks);
  }

  lemma TombstoneCompensates(rec: Record)
    requires Sound(rec) && rec.tombstone.Some?
    ensures Compensated(rec)
  {
    hide Evident, ResultSound, PhaseSound, InversesAnswered, InverseAnswered;
    InverseIsExact(rec.intents, rec.Count());
    if Materialize in rec.intents { PlannedIsAnswered(rec, SlotDrop); }
    forall i: nat | Promote(i) in rec.intents ensures rec.InRange(Promote(i)) && InverseAnswered(rec, FinalRelease(i)) {
      PlannedIsAnswered(rec, FinalRelease(i));
    }
    forall i: nat | Prepare(i) in rec.intents
      ensures rec.InRange(Prepare(i)) && InverseAnswered(rec, ProvisionalRelease(i))
    {
      PlannedIsAnswered(rec, ProvisionalRelease(i));
    }
  }

  // ------------------------------------------------------------------------
  // The journal object

  function Updated(records: map<PublicationKey, Record>, key: PublicationKey, done: Result<Record>)
    : map<PublicationKey, Record>
  {
    if done.Ok? then records[key := done.value] else records
  }

  ghost predicate AllSound(records: map<PublicationKey, Record>) {
    forall k :: k in records ==> Sound(records[k]) && records[k].publication.Key() == k
  }

  // One call looks its record up and attempts the move.
  function Attempted(records: map<PublicationKey, Record>, key: PublicationKey, move: Move): Result<Record>
    requires AllSound(records)
  {
    if key in records then Attempt(records[key], move) else Err(Unopened)
  }

  lemma AttemptKeepsSound(records: map<PublicationKey, Record>, key: PublicationKey, move: Move)
    requires AllSound(records) && move.Valid()
    ensures AllSound(Updated(records, key, Attempted(records, key, move)))
    ensures Attempted(records, key, move) != Err(PayloadLeft)
  {
    if key in records {
      ActKeepsSound(records[key], move);
      ActOutlives(records[key], move);
    }
  }

  lemma RollsBackIs(records: map<PublicationKey, Record>, key: PublicationKey, rollbackId: string)
    requires AllSound(records)
    ensures Attempted(records, key, RollsBack(rollbackId)) ==
              if key in records then BeginRollback(records[key], rollbackId) else Err(Unopened)
  {
    hide BeginRollback, ForwardSound, RollbackSound, ResultSound, PhaseSound;
  }

  class Journal {
    var records: map<PublicationKey, Record>

    ghost predicate Valid()
      reads this
    {
      AllSound(records)
    }

    constructor ()
      ensures Valid() && records == map[]
    {
      records := map[];
    }

    /** First admission of a manifest; the same manifest may be opened again. */
    method Open(publication: Publication) returns (added: Result<bool>)
      requires Valid() && publication.TaskPublication? && publication.Valid()
      modifies this
      ensures Valid()
      ensures var key := publication.Key();
        && (key !in old(records) ==> added == Ok(true) && records == old(records)[key := Opened(publication)])
        && (key in old(records) ==> records == old(records))
        && (key in old(records) ==>
              added == if old(records)[key].publication == publication then Ok(false) else Err(Mismatch))
    {
      var key := publication.Key();
      if key in records {
        return if records[key].publication == publication then Ok(false) else Err(Mismatch);
      }
      OpenedIsSound(publication);
      records := records[key := Opened(publication)];
      added := Ok(true);
    }

    /** Every other mutation: look the record up, attempt the move, keep the result. */
    method Call(key: PublicationKey, move: Move) returns (done: Result<Record>)
      requires Valid() && move.Valid() && !move.RollsBack?
      modifies this
      ensures Valid()
      ensures done == Attempted(old(records), key, move) && records == Updated(old(records), key, done)
    {
      done := Attempted(records, key, move);
      AttemptKeepsSound(records, key, move);
      records := Updated(records, key, done);
    }

    // The reversed scan over one kind of pin.
    method AppendReleases(effects: seq<Step>, rec: Record, promote: bool) returns (effects': seq<Step>)
      ensures effects' == effects + Releases(rec.intents, promote, rec.Count())
    {
      effects' := effects;
      var i := rec.Count();
      while i > 0
        invariant 0 <= i <= rec.Count()
        invariant effects' + Releases(rec.intents, promote, i) == effects + Releases(rec.intents, promote, rec.Count())
      {
        i := i - 1;
        if PinOf(promote, i) in rec.intents {
          effects' := effects' + [ReleaseOf(promote, i)];
        }
      }
    }

    // Fence forward work and freeze the inverse of every possible effect.
    method PlanRollback(rec: Record, rollbackId: string) returns (done: Result<Record>)
      ensures done == BeginRollback(rec, rollbackId)
    {
      if rec.complete.Some? { return Err(WrongState); }
      if rec.rollback.Some? {
        return if rec.rollback.value.rollbackId != rollbackId then Err(Mismatch) else Ok(rec);
      }
      if !rec.phase.Active? { return Err(WrongState); }
      var effects := if Materialize in rec.intents then [SlotDrop] else [];
      effects := AppendReleases(effects, rec, true);
      effects := AppendReleases(effects, rec, false);
      done := FinishRollback(rec.(rollback := Some(Plan(rec.Ref(), rollbackId, effects)), phase := RollingBack));
    }

    method StartRollback(key: PublicationKey, rollbackId: string) returns (done: Result<Record>)
      requires Valid()
      modifies this
      ensures Valid()
      ensures done == Attempted(old(records), key, RollsBack(rollbackId))
      ensures records == Updated(old(records), key, done)
    {
      hide Attempted, Updated, AllSound, BeginRollback;
      AttemptKeepsSound(records, key, RollsBack(rollbackId));
      RollsBackIs(records, key, rollbackId);
      done := Err(Unopened);
      if key in records {
        done := PlanRollback(records[key], rollbackId);
      }
      records := Updated(records, key, done);
    }

    /** The next compensation, only under both forward fences. */
    method NextEffect(key: PublicationKey) returns (step: Result<Option<Step>>)
      requires Valid()
      ensures step == if key !in records then Err(Unopened)
                      else if records[key].rollback.None? || Fenced !in records[key].receipts then Err(WrongState)
                      else Ok(NextRollback(records[key].rollback.value.effects, records[key].acks))
    {
      if key !in records { return Err(Unopened); }
      var rec := records[key];
      if rec.rollback.None? || Fenced !in rec.receipts { return Err(WrongState); }
      var i := 0;
      while i < |rec.rollback.value.effects|
        invariant 0 <= i <= |rec.rollback.value.effects|
        invariant NextRollback(rec.rollback.value.effects, rec.acks)
               == NextRollback(rec.rollback.value.effects[i..], rec.acks)
      {
        if rec.rollback.value.effects[i] !in rec.acks { return Ok(Some(rec.rollback.value.effects[i])); }
        assert rec.rollback.value.effects[i..][1..] == rec.rollback.value.effects[i + 1..];
        i := i + 1;
      }
      step := Ok(None);
    }
  }
}
