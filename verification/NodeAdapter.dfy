/** The publishing Node's adapter for one publication: the loops that drive the
    journal, call the GCS and the children, and pick up where a lost call left
    them. Every method is a run of the joint machine. */
module NodeAdapter {
  import opened Ids
  import opened PublicationFacts
  import opened PublicationAuthority
  import opened PublicationInvariants
  import opened PublicationHistory
  import J = PublicationJournal
  import opened PublicationSettlement
  import opened NodePublication
  import opened NodeSteps

  // Whether one call reaches the GCS and whether its reply comes back.
  datatype Call = Call(reaches: bool, replies: bool)

  const GOES_THROUGH := Call(true, true)

  // Why a forward pass stopped.
  datatype Obstacle =
    | OwnerCleanup                  // an owner-death cleanup fenced the publication
    | Closed                        // rolled back or retired
    | Missing(step: J.Step)         // an effect returned no fitting evidence
    | Unheard(stage: Stage)         // a call or its reply was lost
    | TurnedAway(request: Request)  // the GCS refuses

  // The calls of one forward pass.
  datatype Calls = Calls(begin: Call, reserve: Call, arm: Call)
  {
    function At(stage: Stage): Call {
      match stage
      case Intent => begin
      case PreparedGraph => reserve
      case _ => arm
    }
  }

  // The obstacle is really there.
  ghost predicate Blocks(why: Obstacle, cleanup: Option<Death>, rec: J.Record, g: State, x: Supplies, calls: Calls)
    requires rec.publication.TaskPublication? && J.Evident(rec)
  {
    match why
    case OwnerCleanup => cleanup.Some?
    case Closed => rec.complete.None? && !rec.phase.Active?
    case Missing(step) => Due(rec, step) && step !in rec.acks && !Supplied(rec.publication, x, step)
    case Unheard(stage) =>
      stage !in rec.receipts && stage in {Intent, PreparedGraph, Armed} && calls.At(stage) != GOES_THROUGH
    case TurnedAway(r) => AsksForward(r) && MaySend(rec, r) && r.StageOf() !in rec.receipts && !Apply(g, r).1.accepted
  }

  // Nobody retired the graph with other evidence.
  ghost predicate Unretired(rec: J.Record, g: State) {
    rec.publication.Key() in g.records ==> g.records[rec.publication.Key()].closed.None?
  }

  // A complete rollback whose evidence the GCS will accept.
  lemma EvidencePasses(s: System)
    requires SysInv(s) && RolledBack(s) && NoAlias(s.journal.publication) && Unretired(s.journal, s.gcs)
    ensures J.ClosedRollback(s.journal).Ok? && J.ClosedRollback(s.journal).value.Valid()
    ensures Apply(s.gcs, RetireGraph(J.ClosedRollback(s.journal).value)).1.accepted
  {
    hide SysInv, Apply, J.Sound, NoAlias, CheckClosed, J.ClosedRollback;
    FencedRecord(s);
    MatchedFacts(s.journal, s.gcs);
    MatchedPasses(s.journal, s.gcs);
    NoAliasIsWellFormed(s.journal);
  }

  lemma MatchedFacts(rec: J.Record, g: State)
    requires rec.publication.Key() in g.records && Matched(rec, g)
    ensures J.Sound(rec) && rec.tombstone.Some? && DeathsAgree(rec.cleanups)
  {
  }

  // The rollback is planned and fenced.
  predicate UnderWay(rec: J.Record, rollbackId: string) {
    Fenced in rec.receipts && rec.rollback.Some? && rec.rollback.value.rollbackId == rollbackId
  }

  // Everything a rollback already under way still waits for comes back.
  ghost predicate Cooperative(rec: J.Record, g: State, rollbackId: string, maxEffects: nat,
                              replies: map<J.Step, J.CleanupReply>, dropped: bool) {
    && UnderWay(rec, rollbackId) && NoAlias(rec.publication) && Unretired(rec, g)
    && |Todo(rec)| <= maxEffects && AllCome(rec.publication, Todo(rec), replies, dropped)
  }

  lemma TodoShrinks(rec: J.Record, next: J.Record)
    requires J.Outlives(rec, next) && rec.rollback.Some?
    ensures Todo(next) <= Todo(rec)
  {
  }

  lemma ReceiptsStay(rec: J.Record, next: J.Record)
    requires J.Outlives(rec, next)
    ensures rec.receipts.Keys <= next.receipts.Keys
  {
  }

  lemma RollbackResumes(rec: J.Record, rollbackId: string)
    requires J.Sound(rec) && rec.rollback.Some? && rec.rollback.value.rollbackId == rollbackId
    ensures rec.publication.TaskPublication? && J.Evident(rec)
    ensures J.Attempt(rec, J.RollsBack(rollbackId)).Ok? && J.Act(rec, J.RollsBack(rollbackId)) == rec
  {
  }

  lemma RollbackBegun(rec: J.Record, rollbackId: string)
    requires rec.publication.TaskPublication? && J.Evident(rec)
    ensures J.Attempt(rec, J.RollsBack(rollbackId)).Ok? ==> J.Act(rec, J.RollsBack(rollbackId)).rollback.Some?
  {
  }

  lemma OnlyRetirementNamesDeath(rec: J.Record, move: J.Move)
    requires rec.publication.TaskPublication? && J.Evident(rec)
    ensures var next := J.Act(rec, move).ownerDeath;
      next == rec.ownerDeath || (move.RetiresOwner? && next == Some(move.death))
  {
  }

  lemma EmptiedForOwner(rec: J.Record, death: Death)
    requires rec.publication.TaskPublication? && J.Evident(rec)
    ensures var move := J.RetiresOwner(death);
      && (death.worker == rec.publication.owner && rec.ownerDeath in {None, Some(death)} ==> J.Attempt(rec, move).Ok?)
      && (J.Attempt(rec, move).Ok? ==> J.Act(rec, move).result.None?)
  {
  }

  // The authority after the owner-death fence, if the journal does not have its receipt yet.
  ghost function AfterFence(rec: J.Record, g: State, death: Death): State {
    if Fenced in rec.receipts then g else Apply(g, FencePublication(rec.publication, OwnerDeath(death))).0
  }

  // The fence, and the Complete if there is one, come through.
  ghost predicate Announced(rec: J.Record, g: State, death: Death, fencing: Call, terminal: Call) {
    && (Fenced !in rec.receipts ==>
          fencing == GOES_THROUGH && Apply(g, FencePublication(rec.publication, OwnerDeath(death))).1.accepted)
    && (rec.complete.Some? ==>
          terminal == GOES_THROUGH && Apply(AfterFence(rec, g, death), RecordTerminal(rec.complete.value)).1.accepted)
  }

  // Every hold of the manifest was or is now answered.
  ghost predicate HoldsAnswered(publication: Publication, acks: map<J.Step, J.CleanupReply>,
                                replies: map<J.Step, J.CleanupReply>) {
    forall e | EffectInRange(publication, e) :: e in acks || Gets(publication, replies, e)
  }

  class Node {
    const gcs: Authority
    var journal: J.Record
    var terminalPending: Option<Complete>
    var terminalReported: Option<Complete>
    var rollbackReported: Option<J.Tombstone>
    var cleanupDeath: Option<Death>
    var cleanupAcks: map<J.Step, J.CleanupReply>
    var cleaned: bool
    ghost var sent: set<Request>
    ghost var answers: set<J.Answer>
    ghost const deaths: map<WorkerID, Death>

    ghost function View(): System
      reads this, gcs
    {
      System(gcs.View(), journal, sent, answers, deaths)
    }

    ghost predicate Valid()
      reads this, gcs
    {
      && gcs.Valid() && SysInv(View())
      && AcksFit(journal.publication, cleanupAcks) && HonestReplies(deaths, cleanupAcks)
      && (terminalPending.Some? ==> journal.complete == terminalPending)
      && (journal.ownerDeath.Some? ==> cleanupDeath == journal.ownerDeath)
      && (cleaned ==> cleanupDeath.Some?)
    }

    // A pass that began in `start` and has followed the joint machine since.
    ghost predicate Runs(start: System)
      reads this, gcs
    {
      Valid() && Leads(start, View())
    }

    // A publication nobody has registered yet, just opened in the journal.
    constructor (gcs: Authority, publication: Publication, ghost deaths: map<WorkerID, Death>)
      requires gcs.Valid() && Inv(gcs.View()) && publication.TaskPublication? && publication.Valid()
      requires publication.Key() !in gcs.records
      ensures Valid() && this.gcs == gcs && journal == J.Opened(publication) && gcs.View() == old(gcs.View())
      ensures cleanupDeath.None? && terminalPending.None? && rollbackReported.None? && !cleaned
    {
      J.OpenedIsSound(publication);
      this.gcs, journal := gcs, J.Opened(publication);
      terminalPending, terminalReported, rollbackReported, cleanupDeath := None, None, None, None;
      cleanupAcks, cleaned := map[], false;
      sent, answers, this.deaths := {}, {}, deaths;
    }

    // ----------------------------------------------------------------------
    // What a pass may rely on

    lemma Begins()
      requires Valid()
      ensures Runs(View())
    {
      hide Valid, Leads;
      LeadsToItself(View());
    }

    lemma Facts(start: System)
      requires Runs(start)
      ensures Valid() && J.Sound(journal) && journal.publication.TaskPublication? && J.Evident(journal)
      ensures SysInv(View()) && Inv(gcs.View()) && journal.publication.Valid()
      ensures journal.ownerDeath.Some? ==> cleanupDeath == journal.ownerDeath
    {
      hide Leads;
    }

    lemma Sends(r: Request)
      requires Valid() && journal.publication.TaskPublication? && J.Evident(journal) && MaySend(journal, r)
      ensures SentOk(journal, r)
    {
      SendIsOk(journal, r);
    }

    lemma SendsForward(start: System)
      requires Runs(start)
      ensures journal.publication.TaskPublication? && J.Evident(journal)
      ensures MaySend(journal, BeginPublication(journal.publication)) && MaySend(journal, PrepareGraph(journal.Ref()))
      ensures J.Preparation(journal).Ok? ==> MaySend(journal, ArmTask(J.Preparation(journal).value))
      ensures journal.complete.Some? ==> MaySend(journal, RecordTerminal(journal.complete.value))
    {
    }

    lemma SendsFence(start: System, fence: Fence)
      requires Runs(start) && FenceMatches(journal.publication, fence) && (fence.OwnerDeath? || journal.rollback.Some?)
      ensures journal.publication.TaskPublication? && J.Evident(journal)
      ensures MaySend(journal, FencePublication(journal.publication, fence))
    {
    }

    lemma SendsRetirement(start: System)
      requires Runs(start) && J.ClosedRollback(journal).Ok? && J.ClosedRollback(journal).value.Valid()
      ensures journal.publication.TaskPublication? && J.Evident(journal)
      ensures MaySend(journal, Request.RetireGraph(J.ClosedRollback(journal).value))
      ensures Request.RetireGraph(J.ClosedRollback(journal).value).Ref() == journal.Ref()
    {
    }

    // ----------------------------------------------------------------------
    // Single steps

    // One journal call.
    method Move(move: J.Move, ghost start: System) returns (ok: bool)
      requires Runs(start) && MoveAllowed(View(), move)
      requires move.RetiresOwner? ==> cleanupDeath == Some(move.death)
      modifies this`journal
      ensures Runs(start) && J.Outlives(old(journal), journal)
      ensures journal == J.Act(old(journal), move) && ok == J.Attempt(old(journal), move).Ok?
      ensures !ok ==> journal == old(journal)
    {
      hide Leads, SysInv, J.Sound, J.Evident, J.Attempt, Enabled;
      Facts(start);
      JournalStep(move, start);
      OnlyRetirementNamesDeath(journal, move);
      OutlivesComplete(journal, J.Act(journal, move));
      var done := J.Attempt(journal, move);
      ok := done.Ok?;
      if ok {
        journal := done.value;
      }
    }

    lemma JournalStep(move: J.Move, start: System)
      requires Runs(start) && MoveAllowed(View(), move) && J.Sound(journal)
      ensures journal.publication.TaskPublication? && J.Evident(journal)
      ensures var next := View().(journal := J.Act(journal, move)); Leads(start, next) && SysInv(next)
      ensures J.Outlives(journal, J.Act(journal, move))
    {
      hide Leads, J.Outlives, J.Act;
      OneMore(start, View(), Journal(move));
      J.ActOutlives(journal, move);
    }

    lemma OutlivesComplete(rec: J.Record, next: J.Record)
      requires J.Outlives(rec, next)
      ensures next.publication == rec.publication && (rec.complete.Some? ==> next.complete == rec.complete)
    {
    }

    // One call to the GCS: it may not arrive, and its reply may be lost.
    method Ask(r: Request, call: Call, ghost start: System) returns (reply: Option<Reply>)
      requires Runs(start) && journal.publication.TaskPublication? && J.Evident(journal) && MaySend(journal, r)
      modifies this`sent, this`answers, gcs
      ensures Runs(start)
      ensures reply.Some? ==>
        reply.value == Apply(old(gcs.View()), r).1 && r in sent && J.Answer(r, reply.value) in answers
      ensures call == GOES_THROUGH <==> reply.Some?
      ensures gcs.View() == if call.reaches then Apply(old(gcs.View()), r).0 else old(gcs.View())
    {
      hide SysInv, Leads, Apply, MaySend, J.Evident;
      SendStep(r, start);
      sent := sent + {r};
      reply := None;
      if call.reaches {
        DeliverStep(r, start);
        var answer := gcs.Handle(r);
        answers := answers + {J.Answer(r, answer)};
        if call.replies {
          reply := Some(answer);
        }
      }
    }

    lemma SendStep(r: Request, start: System)
      requires Runs(start) && journal.publication.TaskPublication? && J.Evident(journal) && MaySend(journal, r)
      ensures var next := View().(sent := sent + {r}); Leads(start, next) && SysInv(next)
    {
      hide Leads, MaySend, J.Evident;
      OneMore(start, View(), Send(r));
    }

    lemma DeliverStep(r: Request, start: System)
      requires Runs(start) && r in sent
      ensures var (g, reply) := Apply(gcs.View(), r);
        var next := View().(gcs := g, answers := answers + {J.Answer(r, reply)});
        Leads(start, next) && SysInv(next)
    {
      hide Leads, Apply, SysInv, J.Evident, MaySend, MoveAllowed, MayOthersSend;
      SysInvMeans(View());
      OneMore(start, View(), Deliver(r));
    }

    // Ask the GCS for one mutation and record its acceptance: exactly what
    // comes back accepted and fits the journal is recorded.
    method RecordGcs(r: Request, stage: Stage, forward: bool, call: Call, ghost start: System) returns (ok: bool)
      requires Runs(start) && journal.publication.TaskPublication? && J.Evident(journal) && MaySend(journal, r)
      modifies this`journal, this`sent, this`answers, gcs
      ensures Runs(start) && J.Outlives(old(journal), journal)
      ensures ok <==> call == GOES_THROUGH && Recordable(old(gcs.View()), old(journal), r, stage, forward)
      ensures journal == old(journal).(receipts := journal.receipts)
      ensures if ok then stage in journal.receipts else journal == old(journal)
      ensures gcs.View() == if call.reaches then Apply(old(gcs.View()), r).0 else old(gcs.View())
    {
      hide Valid, Leads, Apply, MaySend, J.Evident, J.Act, J.Attempt, Recordable;
      RecordingReply(gcs.View(), journal, r, stage, forward);
      RecordableIsAccepted(gcs.View(), journal, r, stage, forward);
      var reply := Ask(r, call, start);
      ok := false;
      if reply.Some? && reply.value.accepted {
        ok := Move(J.Records(r, J.Answer(r, reply.value), stage, forward), start);
      } else {
        OutlivesItself();
      }
    }

    lemma RecordableIsAccepted(g: State, rec: J.Record, r: Request, stage: Stage, forward: bool)
      requires rec.publication.TaskPublication? && J.Evident(rec)
      ensures Recordable(g, rec, r, stage, forward) ==> Apply(g, r).1.accepted
    {
      hide Apply, J.Evident;
    }

    lemma OutlivesItself()
      ensures J.Outlives(journal, journal)
    {
    }

    // ----------------------------------------------------------------------
    // Forward work

    // Intend one forward effect and acknowledge what it returned, once.
    method Perform(step: J.Step, x: Supplies, ghost start: System) returns (ok: bool)
      requires Runs(start) && Due(journal, step) && journal.publication.TaskPublication?
      modifies this`journal
      ensures Runs(start) && SameCourse(old(journal), journal)
      ensures ok <==> step in old(journal).acks || Supplied(journal.publication, x, step)
      ensures ok <==> step in journal.acks
    {
      hide Valid, Runs, J.Sound, J.Evident, J.Act, J.Attempt, Due, Supplied, SameCourse, J.Outlives;
      Intend(step, start);
      ghost var intended := journal;
      ok := step in journal.acks;
      if !ok {
        Facts(start);
        ok := Acknowledge(step, x, start);
        SameCourseTwice(old(journal), intended, journal);
      }
    }

    // Record the intent before the effect.
    method Intend(step: J.Step, ghost start: System)
      requires Runs(start) && Due(journal, step)
      modifies this`journal
      ensures Runs(start) && SameCourse(old(journal), journal) && Due(journal, step)
      ensures step in journal.intents && journal.acks == old(journal).acks
    {
      hide Valid, Runs, J.Sound, J.Evident, J.Act, J.Attempt, Due, SameCourse, J.Outlives;
      Facts(start);
      DueIsForward(journal, step);
      BeginsActs(journal, step);
      DueStays(journal, J.Act(journal, J.Begins(step)), step);
      var _ := Move(J.Begins(step), start);
    }

    lemma DueIsForward(rec: J.Record, step: J.Step)
      requires Due(rec, step)
      ensures step.Forward() && rec.InRange(step)
    {
    }

    lemma SameCourseTwice(a: J.Record, b: J.Record, c: J.Record)
      requires SameCourse(a, b) && SameCourse(b, c)
      ensures SameCourse(a, c)
    {
    }

    lemma SameCourseItself(rec: J.Record)
      ensures SameCourse(rec, rec)
    {
    }

    method Acknowledge(step: J.Step, x: Supplies, ghost start: System) returns (ok: bool)
      requires Runs(start) && Due(journal, step) && step in journal.intents && step !in journal.acks
      requires journal.publication.TaskPublication?
      modifies this`journal
      ensures Runs(start) && SameCourse(old(journal), journal)
      ensures ok <==> Supplied(journal.publication, x, step)
      ensures ok <==> step in journal.acks
    {
      hide Valid, Runs, J.Sound, J.Evident, J.Act, J.Attempt, Due, SameCourse, J.EvidenceFits, J.Outlives;
      Facts(start);
      SameCourseItself(journal);
      DueIsForward(journal, step);
      var evidence := x.For(step);
      if evidence.None? { return false; }
      var replayed := evidence.value.Pinned? && evidence.value.reply.replayed;
      AcksActs(journal, step, replayed, evidence.value);
      ok := Move(J.Acks(J.Ack(J.Effect(journal.Ref(), step), replayed), evidence.value), start);
    }

    // The pins of one kind are due.
    ghost predicate PinsDue(promote: bool)
      reads this
    {
      forall i: nat :: i < journal.Count() ==> Due(journal, J.PinOf(promote, i))
    }

    // The pins of one kind, in transfer order, up to the first that fails.
    method PerformPins(promote: bool, x: Supplies, ghost start: System) returns (missing: Option<J.Step>)
      requires Runs(start) && PinsDue(promote) && journal.publication.TaskPublication?
      modifies this`journal
      ensures Runs(start) && SameCourse(old(journal), journal)
      ensures missing.None? ==> if promote then journal.AllPromoted() else journal.AllPrepared()
      ensures missing.Some? ==>
        var step := missing.value;
        Due(journal, step) && step !in journal.acks && journal.InRange(step) && !Supplied(journal.publication, x, step)
    {
      hide Valid, Runs, J.Sound, J.Evident, J.Outlives, J.StageReady, Supplied;
      missing := None;
      var i := 0;
      while i < journal.Count()
        invariant 0 <= i <= journal.Count() && Runs(start) && SameCourse(old(journal), journal)
        invariant forall j: nat :: j < i ==> J.PinOf(promote, j) in journal.acks
      {
        var step := J.PinOf(promote, i);
        DueStays(old(journal), journal, step);
        var ok := Perform(step, x, start);
        DueStays(old(journal), journal, step);
        if !ok { return Some(step); }
        i := i + 1;
      }
      assert forall j: nat :: j < i ==> J.PinOf(promote, j) == if promote then J.Promote(j) else J.Prepare(j);
    }

    // One forward fact at the GCS, unless the journal already has its receipt.
    method Ensure(r: Request, call: Call, ghost start: System) returns (stop: Option<Obstacle>)
      requires Runs(start) && journal.publication.TaskPublication? && J.Evident(journal) && MaySend(journal, r)
      requires AsksForward(r) && (r.StageOf() !in journal.receipts ==> InOrder(journal, r))
      modifies this`journal, this`sent, this`answers, gcs
      ensures Runs(start) && J.Outlives(old(journal), journal)
      ensures journal == old(journal).(receipts := journal.receipts)
      ensures stop.None? ==> r.StageOf() in journal.receipts
      ensures stop.Some? ==> journal == old(journal) && r.StageOf() !in journal.receipts
      ensures stop.Some? ==>
        || (stop.value == Unheard(r.StageOf()) && call != GOES_THROUGH)
        || (stop.value == TurnedAway(r) && !Apply(gcs.View(), r).1.accepted)
    {
      hide Valid, Runs, Apply, MaySend, J.Evident, J.Sound, Recordable, InOrder, SysInv, Inv, J.Outlives;
      OutlivesItself();
      if r.StageOf() in journal.receipts { return None; }
      AcceptedGoesForward(r, start);
      var ok := RecordGcs(r, r.StageOf(), true, call, start);
      stop := if ok then None else if call != GOES_THROUGH then Some(Unheard(r.StageOf())) else Some(TurnedAway(r));
    }

    // A forward request the GCS accepts is recorded; one it refuses changes nothing there.
    lemma AcceptedGoesForward(r: Request, start: System)
      requires Runs(start) && journal.publication.TaskPublication? && J.Evident(journal) && MaySend(journal, r)
      requires AsksForward(r) && InOrder(journal, r)
      ensures Apply(gcs.View(), r).1.accepted ==> Recordable(gcs.View(), journal, r, r.StageOf(), true)
      ensures !Apply(gcs.View(), r).1.accepted ==> Apply(gcs.View(), r).0 == gcs.View()
    {
      hide Apply, MaySend, J.Evident, J.Sound, Recordable, InOrder, SysInv, Leads, SentSound, AnswersSound, RecordSound,
           DeathsSound;
      Facts(start);
      Sends(r);
      if Apply(gcs.View(), r).1.accepted {
        ForwardIsRecordable(View(), r);
      } else {
        RefusedUnchanged(gcs.View(), r);
      }
    }

    lemma EnsuredOrBlocked(r: Request, calls: Calls, x: Supplies, stop: Obstacle)
      requires journal.publication.TaskPublication? && J.Evident(journal) && MaySend(journal, r) && AsksForward(r)
      requires r.StageOf() !in journal.receipts
      requires (stop == Unheard(r.StageOf()) && calls.At(r.StageOf()) != GOES_THROUGH)
            || (stop == TurnedAway(r) && !Apply(gcs.View(), r).1.accepted)
      ensures Blocks(stop, cleanupDeath, journal, gcs.View(), x, calls)
    {
      hide Apply, MaySend, J.Evident;
    }

    // One of the three forward requests of a pass.
    method Advance(r: Request, calls: Calls, x: Supplies, ghost start: System) returns (stop: Option<Obstacle>)
      requires Runs(start) && journal.publication.TaskPublication? && J.Evident(journal) && MaySend(journal, r)
      requires AsksForward(r) && (r.StageOf() !in journal.receipts ==> InOrder(journal, r))
      modifies this`journal, this`sent, this`answers, gcs
      ensures Runs(start) && J.Outlives(old(journal), journal)
      ensures journal == old(journal).(receipts := journal.receipts) && J.Evident(journal)
      ensures stop.None? ==> r.StageOf() in journal.receipts
      ensures stop.Some? ==> Blocks(stop.value, cleanupDeath, journal, gcs.View(), x, calls)
    {
      hide Valid, Runs, Apply, MaySend, J.Evident, J.Sound, InOrder, J.Outlives, Blocks, SysInv, Inv;
      stop := Ensure(r, calls.At(r.StageOf()), start);
      Facts(start);
      if stop.Some? {
        EnsuredOrBlocked(r, calls, x, stop.value);
      }
    }

    // Register the publication and reserve its graph at the GCS.
    method Reserve(calls: Calls, x: Supplies, ghost start: System) returns (stop: Option<Obstacle>)
      requires Runs(start) && journal.phase.Active? && J.OwnerRegister in journal.acks
      modifies this`journal, this`sent, this`answers, gcs
      ensures Runs(start)
      ensures journal == old(journal).(receipts := journal.receipts)
      ensures journal.publication.TaskPublication? && J.Evident(journal)
      ensures stop.None? ==> Intent in journal.receipts && PreparedGraph in journal.receipts
      ensures stop.Some? ==> Blocks(stop.value, cleanupDeath, journal, gcs.View(), x, calls)
    {
      hide Valid, Runs, MaySend, J.Evident, J.Sound, J.Outlives, Blocks, SysInv, Inv;
      SendsForward(start);
      stop := Advance(BeginPublication(journal.publication), calls, x, start);
      if stop.Some? { return; }
      ghost var begun := journal;
      SendsForward(start);
      stop := Advance(PrepareGraph(journal.Ref()), calls, x, start);
      ReceiptsStay(begun, journal);
    }

    lemma PinsAreDue(promote: bool)
      requires journal.phase.Active? && J.OwnerRegister in journal.acks && PreparedGraph in journal.receipts
      requires promote ==> journal.AllPrepared() && J.Materialize in journal.acks
      ensures PinsDue(promote)
    {
    }

    lemma MissingBlocks(step: J.Step, calls: Calls, x: Supplies)
      requires journal.publication.TaskPublication? && J.Evident(journal)
      requires Due(journal, step) && step !in journal.acks && journal.InRange(step)
      requires !Supplied(journal.publication, x, step)
      ensures Blocks(Missing(step), cleanupDeath, journal, gcs.View(), x, calls)
    {
      hide J.Evident, Supplied;
    }

    // Pin every child, store the payload, then move every pin to the owner.
    method Store(x: Supplies, ghost start: System) returns (missing: Option<J.Step>)
      requires Runs(start) && journal.phase.Active? && J.OwnerRegister in journal.acks
      requires PreparedGraph in journal.receipts
      modifies this`journal
      ensures Runs(start) && SameCourse(old(journal), journal) && journal.publication.TaskPublication?
      ensures missing.None? ==> J.Materialize in journal.acks && journal.AllPrepared() && journal.AllPromoted()
      ensures missing.Some? ==>
        var step := missing.value;
        Due(journal, step) && step !in journal.acks && journal.InRange(step) && !Supplied(journal.publication, x, step)
    {
      hide Valid, Runs, J.Evident, J.Sound, J.Outlives, Supplied, SysInv, Inv, PinsDue;
      Facts(start);
      PinsAreDue(false);
      missing := PerformPins(false, x, start);
      if missing.Some? { return; }
      Facts(start);
      ghost var pinned := journal;
      var ok := Perform(J.Materialize, x, start);
      if !ok {
        DueStays(pinned, journal, J.Materialize);
        return Some(J.Materialize);
      }
      PinsAreDue(true);
      missing := PerformPins(true, x, start);
      Facts(start);
    }

    /** Resume the first unfinished forward effect. The pass stops only at an
        obstacle that is really there; without one the journal may complete. */
    method Prepare(calls: Calls, x: Supplies) returns (stop: Option<Obstacle>)
      requires Valid()
      modifies this`journal, this`sent, this`answers, gcs
      ensures Valid() && Leads(old(View()), View())
      ensures journal.publication.TaskPublication? && J.Evident(journal)
      ensures stop.None? ==> cleanupDeath.None? && (journal.complete.Some? || journal.ReadyToComplete())
      ensures stop.Some? ==> Blocks(stop.value, cleanupDeath, journal, gcs.View(), x, calls)
    {
      hide Valid, Leads, MaySend, J.Evident, J.Sound, J.Outlives, SysInv, Inv, Supplied;
      ghost var start := View();
      Begins();
      Facts(start);
      if cleanupDeath.Some? { return Some(OwnerCleanup); }
      if journal.complete.Some? { return None; }
      if !journal.phase.Active? { return Some(Closed); }
      var ok := Perform(J.OwnerRegister, x, start);
      Facts(start);
      if !ok {
        MissingBlocks(J.OwnerRegister, calls, x);
        return Some(Missing(J.OwnerRegister));
      }
      stop := Reserve(calls, x, start);
      if stop.Some? { return; }
      var missing := Store(x, start);
      Facts(start);
      if missing.Some? {
        MissingBlocks(missing.value, calls, x);
        return Some(Missing(missing.value));
      }
      SendsForward(start);
      stop := Advance(ArmTask(J.Preparation(journal).value), calls, x, start);
    }

    /** Cross local Complete and remember the terminal report it obliges. */
    method Complete() returns (ok: bool)
      requires Valid()
      modifies this`journal, this`terminalPending
      ensures Valid() && Leads(old(View()), View())
      ensures ok <==>
        old(cleanupDeath).None? && J.Finish(old(journal), PublicationFacts.Complete(old(journal.Ref()))).Ok?
      ensures ok ==> journal.complete.Some? && (terminalReported.None? ==> terminalPending == journal.complete)
      ensures !ok ==> journal == old(journal)
    {
      hide Leads, SysInv, J.Sound, J.Evident, J.Act, J.Finish, J.Outlives, Inv, AcksFit, HonestReplies;
      Begins();
      Facts(View());
      if cleanupDeath.Some? { return false; }
      ghost var start := View();
      var success := PublicationFacts.Complete(journal.Ref());
      FinishActs(journal, success);
      ok := Move(J.Finishes(success), start);
      if journal.complete.Some? && terminalReported.None? {
        terminalPending := journal.complete;
      }
    }

    lemma FinishActs(rec: J.Record, success: PublicationFacts.Complete)
      requires rec.publication.TaskPublication? && J.Evident(rec)
      ensures J.Attempt(rec, J.Finishes(success)).Ok? <==> J.Finish(rec, success).Ok?
      ensures J.Finish(rec, success).Ok? ==> J.Act(rec, J.Finishes(success)).complete.Some?
    {
    }

    // A request that asks for no forward permission is recorded exactly when it
    // goes through and is accepted.
    method Report(r: Request, call: Call, ghost start: System) returns (ok: bool)
      requires Runs(start) && journal.publication.TaskPublication? && J.Evident(journal) && MaySend(journal, r)
      requires !r.GetPublication? && r.Ref() == journal.Ref()
      modifies this`journal, this`sent, this`answers, gcs
      ensures Runs(start) && J.Outlives(old(journal), journal)
      ensures ok <==> call == GOES_THROUGH && Apply(old(gcs.View()), r).1.accepted
      ensures journal == old(journal).(receipts := journal.receipts) && (ok ==> r.StageOf() in journal.receipts)
      ensures ok ==> gcs.View() == Apply(old(gcs.View()), r).0
    {
      hide Valid, Runs, Apply, MaySend, J.Evident, J.Sound, Recordable, SysInv, Inv, J.Outlives;
      ReportIsRecordable(r, start);
      ok := RecordGcs(r, r.StageOf(), false, call, start);
    }

    lemma ReportIsRecordable(r: Request, start: System)
      requires Runs(start) && journal.publication.TaskPublication? && J.Evident(journal) && MaySend(journal, r)
      requires !r.GetPublication? && r.Ref() == journal.Ref()
      ensures Recordable(gcs.View(), journal, r, r.StageOf(), false) <==> Apply(gcs.View(), r).1.accepted
    {
      hide Apply, MaySend, J.Evident, J.Sound, Recordable, SysInv, Leads;
      Facts(start);
      Sends(r);
      RecordableIsAccepted(gcs.View(), journal, r, r.StageOf(), false);
      if Apply(gcs.View(), r).1.accepted {
        AcceptedIsRecordable(View(), r);
      }
    }

    /** Report one Complete until both the GCS and the owner acknowledged it. */
    method ReportTerminal(call: Call, ownerAcks: bool) returns (reported: bool)
      requires Valid()
      modifies this`journal, this`terminalPending, this`terminalReported, this`sent, this`answers, gcs
      ensures Valid() && Leads(old(View()), View())
      ensures reported <==>
        && old(cleanupDeath).None? && old(terminalPending).Some? && call == GOES_THROUGH && ownerAcks
        && Apply(old(gcs.View()), RecordTerminal(old(terminalPending).value)).1.accepted
      ensures reported ==>
        Terminal in journal.receipts && terminalReported == old(terminalPending) && terminalPending.None?
      ensures !reported ==> terminalPending == old(terminalPending) && terminalReported == old(terminalReported)
    {
      hide Leads, SysInv, J.Sound, J.Evident, MaySend, J.Outlives, Inv, Apply, AcksFit, HonestReplies;
      Begins();
      Facts(View());
      if cleanupDeath.Some? || terminalPending.None? { return false; }
      ghost var start := View();
      SendsForward(start);
      CompleteNamesItself(start);
      reported := Report(RecordTerminal(terminalPending.value), call, start);
      reported := reported && ownerAcks;
      if reported {
        terminalReported, terminalPending := terminalPending, None;
      }
    }

    lemma CompleteNamesItself(start: System)
      requires Runs(start)
      ensures journal.complete.Some? ==> journal.complete.value.reference == journal.Ref()
    {
    }

    // ----------------------------------------------------------------------
    // Compensation

    // Undo the effect whose turn it is.
    method Compensate(step: J.Step, replies: map<J.Step, J.CleanupReply>, dropped: bool, ghost start: System)
      returns (ok: bool)
      requires Runs(start) && HonestReplies(deaths, replies) && Fenced in journal.receipts
      requires journal.rollback.Some? && J.NextRollback(journal.rollback.value.effects, journal.acks) == Some(step)
      modifies this`journal
      ensures Runs(start)
      ensures journal.publication == old(journal.publication) && journal.receipts == old(journal.receipts)
      ensures journal.rollback == old(journal.rollback) && step in old(Todo(journal)) && old(journal).InRange(step)
      ensures ok <==> Comes(old(journal).publication, replies, dropped, step)
      ensures Todo(journal) == if ok then old(Todo(journal)) - {step} else old(Todo(journal))
    {
      hide Valid, Runs, SysInv, Inv, J.Sound, J.Evident, J.Act, J.Attempt, J.Outlives, J.NextRollback, Todo;
      Facts(start);
      NextIsPlanned(journal, step);
      ok := Comes(journal.publication, replies, dropped, step);
      if ok {
        CompensationActs(journal, step, replies, dropped);
        ok := Move(Compensation(journal, step, replies), start);
      }
    }

    // At most so many compensations, stopping at the first that fails.
    method CompensateSome(maxEffects: nat, replies: map<J.Step, J.CleanupReply>, dropped: bool, ghost start: System)
      returns (ok: bool)
      requires Runs(start) && HonestReplies(deaths, replies)
      requires journal.rollback.Some? && Fenced in journal.receipts
      modifies this`journal
      ensures Runs(start)
      ensures journal.publication == old(journal.publication) && journal.receipts == old(journal.receipts)
      ensures journal.rollback == old(journal.rollback) && Todo(journal) <= old(Todo(journal))
      ensures AllCome(journal.publication, old(Todo(journal)), replies, dropped) ==> ok
      ensures ok ==>
        |Todo(journal)| == if |old(Todo(journal))| <= maxEffects then 0 else |old(Todo(journal))| - maxEffects
    {
      hide Valid, Runs, SysInv, Inv, J.Sound, J.Evident, J.NextRollback, Todo, Comes, HonestReplies;
      ok := true;
      var i := 0;
      while i < maxEffects
        invariant 0 <= i <= maxEffects && Runs(start)
        invariant journal.publication == old(journal.publication) && journal.receipts == old(journal.receipts)
        invariant journal.rollback == old(journal.rollback) && Todo(journal) <= old(Todo(journal))
        invariant |Todo(journal)| == |old(Todo(journal))| - i
      {
        Facts(start);
        NothingToDo(journal);
        var step := J.NextRollback(journal.rollback.value.effects, journal.acks);
        if step.None? { return; }
        ok := Compensate(step.value, replies, dropped, start);
        if !ok { return; }
        i := i + 1;
      }
    }

    // Plan the compensation and have the GCS fence the publication.
    method BeginRollback(rollbackId: string, fence: Fence, call: Call, ghost start: System) returns (ok: bool)
      requires Runs(start) && FenceMatches(journal.publication, fence)
      modifies this`journal, this`sent, this`answers, gcs
      ensures Runs(start) && J.Outlives(old(journal), journal)
      ensures ok ==> journal.rollback.Some? && Fenced in journal.receipts
      ensures UnderWay(old(journal), rollbackId) ==> ok && journal == old(journal) && gcs.View() == old(gcs.View())
    {
      hide Valid, Runs, SysInv, Inv, Apply, J.Sound, J.Evident, J.Act, J.Attempt, J.Outlives, MaySend;
      Facts(start);
      RollbackBegun(journal, rollbackId);
      if journal.rollback.Some? && journal.rollback.value.rollbackId == rollbackId {
        RollbackResumes(journal, rollbackId);
      }
      ok := Move(J.RollsBack(rollbackId), start);
      if ok && Fenced !in journal.receipts {
        ghost var begun := journal;
        OutlivesComplete(old(journal), journal);
        SendsFence(start, fence);
        ok := Report(FencePublication(journal.publication, fence), call, start);
        J.OutlivesTransitive(old(journal), begun, journal);
      }
    }

    // Retire the graph with the evidence of a finished rollback.
    method RetireGraph(call: Call, ghost start: System) returns (ok: bool)
      requires Runs(start)
      modifies this`journal, this`sent, this`answers, gcs
      ensures Runs(start)
      ensures journal == old(journal).(receipts := journal.receipts) && J.Outlives(old(journal), journal)
      ensures ok ==> Retired in journal.receipts
      ensures old(RolledBack(View()) && NoAlias(journal.publication) && Unretired(journal, gcs.View())) ==>
                (ok <==> call == GOES_THROUGH)
    {
      hide Valid, Runs, SysInv, Inv, Apply, J.Sound, J.Evident, J.ClosedRollback, J.Outlives, MaySend, NoAlias,
           Unretired, RolledBack;
      Facts(start);
      if RolledBack(View()) && NoAlias(journal.publication) && Unretired(journal, gcs.View()) {
        EvidencePasses(View());
      }
      OutlivesItself();
      var closed := J.ClosedRollback(journal);
      if closed.Err? || !closed.value.Valid() { return false; }
      SendsRetirement(start);
      ok := Report(Request.RetireGraph(closed.value), call, start);
    }

    method CompensateAndRetire(maxEffects: nat, replies: map<J.Step, J.CleanupReply>, dropped: bool, retiring: Call,
                               ghost start: System)
      returns (ok: bool)
      requires Runs(start) && HonestReplies(deaths, replies)
      requires journal.rollback.Some? && Fenced in journal.receipts
      modifies this`journal, this`sent, this`answers, gcs
      ensures Runs(start)
      ensures ok ==> RolledBack(View()) && Retired in journal.receipts && journal.tombstone.Some?
      ensures Todo(journal) <= old(Todo(journal))
      ensures forall id | old(Cooperative(journal, gcs.View(), id, maxEffects, replies, dropped)) ::
        ok <==> retiring == GOES_THROUGH
    {
      hide Valid, Runs, SysInv, Inv, J.Sound, J.Evident, J.Outlives, NoAlias, AllCome, HonestReplies, J.NextRollback;
      ok := CompensateSome(maxEffects, replies, dropped, start);
      Facts(start);
      NothingToDo(journal);
      if !ok || journal.tombstone.None? { return false; }
      ghost var emptied := journal;
      ok := RetireGraph(retiring, start);
      ReceiptsStay(emptied, journal);
    }

    /** Advance a bounded number of compensations and, once they are complete,
        retire the graph and report to the owner. When the calls come back, one
        call that may do enough compensations finishes the rollback. */
    method Rollback(rollbackId: string, fence: Fence, fencing: Call, maxEffects: nat,
                    replies: map<J.Step, J.CleanupReply>, dropped: bool, retiring: Call, ownerAcks: bool)
      returns (done: Option<J.Tombstone>)
      requires Valid() && FenceMatches(journal.publication, fence) && HonestReplies(deaths, replies)
      modifies this`journal, this`rollbackReported, this`sent, this`answers, gcs
      ensures Valid() && Leads(old(View()), View())
      ensures done.Some? ==> RolledBack(View()) && Retired in journal.receipts
      ensures done.Some? ==> journal.tombstone == done && rollbackReported == done
      ensures old(journal).rollback.Some? ==> Todo(journal) <= old(Todo(journal))
      ensures old(cleanupDeath.None? && rollbackReported.None? &&
                  Cooperative(journal, gcs.View(), rollbackId, maxEffects, replies, dropped)) ==>
                (done.Some? <==> retiring == GOES_THROUGH && ownerAcks)
    {
      hide SysInv, Leads, J.Sound, J.Evident, J.Outlives, Todo, NoAlias, Unretired, AllCome, RolledBack,
           HonestReplies, AcksFit;
      ghost var start := View();
      Begins();
      if cleanupDeath.Some? { return None; }
      var ok := BeginRollback(rollbackId, fence, fencing, start);
      if old(journal).rollback.Some? { TodoShrinks(old(journal), journal); }
      if !ok { return None; }
      ok := CompensateAndRetire(maxEffects, replies, dropped, retiring, start);
      if !ok { return None; }
      done := journal.tombstone;
      if rollbackReported.Some? {
        return if rollbackReported == done then done else None;
      }
      if !ownerAcks { return None; }
      rollbackReported := done;
    }

    // ----------------------------------------------------------------------
    // Owner death

    // The fence, and the Complete if there is one.
    method Announce(death: Death, fencing: Call, terminal: Call, ghost start: System) returns (ok: bool)
      requires Runs(start) && FenceMatches(journal.publication, OwnerDeath(death))
      modifies this`journal, this`sent, this`answers, gcs
      ensures Runs(start) && journal == old(journal).(receipts := journal.receipts)
      ensures ok ==> Fenced in journal.receipts
      ensures ok <==> Announced(old(journal), old(gcs.View()), death, fencing, terminal)
    {
      hide Valid, Runs, SysInv, Inv, Apply, J.Sound, J.Evident, J.Outlives, MaySend;
      Facts(start);
      SendsFence(start, OwnerDeath(death));
      ok := Fenced in journal.receipts;
      if !ok {
        ok := Report(FencePublication(journal.publication, OwnerDeath(death)), fencing, start);
      }
      if ok && journal.complete.Some? {
        ghost var fenced := journal;
        SendsForward(start);
        CompleteNamesItself(start);
        ok := Report(RecordTerminal(journal.complete.value), terminal, start);
        ReceiptsStay(fenced, journal);
      }
    }

    // Drop the payload for good.
    method Empty(death: Death, ghost start: System)
      requires Runs(start) && cleanupDeath == Some(death) && death.worker == journal.publication.owner
      modifies this`journal
      ensures Runs(start) && J.Outlives(old(journal), journal) && journal.result.None?
    {
      hide Valid, Runs, SysInv, Inv, J.Sound, J.Evident, J.Act, J.Attempt, J.Outlives;
      Facts(start);
      EmptiedForOwner(journal, death);
      var _ := Move(J.RetiresOwner(death), start);
    }

    // One drive over the holds of the manifest.
    method SettleHolds(replies: map<J.Step, J.CleanupReply>, ghost start: System) returns (finished: bool)
      requires Runs(start) && HonestReplies(deaths, replies)
      modifies this`cleanupAcks
      ensures Runs(start)
      ensures forall e :: e in old(cleanupAcks) ==> e in cleanupAcks && cleanupAcks[e] == old(cleanupAcks)[e]
      ensures finished <==> HoldsAnswered(journal.publication, old(cleanupAcks), replies)
      ensures finished ==> EveryReleaseAnswered(journal.publication, cleanupAcks)
      ensures HonestReplies(deaths, cleanupAcks)
    {
      hide SysInv, Leads, J.CleanupFits, AcksFit, EveryReleaseAnswered, Gets;
      cleanupAcks, finished := SettleOwnerDeath(journal.publication, cleanupAcks, replies);
    }

    // Announce the death, settle the holds, sweep and empty; progress survives into the next call.
    method CleanUp(death: Death, fencing: Call, terminal: Call, replies: map<J.Step, J.CleanupReply>, swept: bool,
                   ghost start: System)
      returns (finished: bool)
      requires Runs(start) && HonestReplies(deaths, replies) && cleanupDeath == Some(death)
      requires FenceMatches(journal.publication, OwnerDeath(death))
      modifies this`journal, this`cleanupAcks, this`sent, this`answers, gcs
      ensures Runs(start) && journal.publication == old(journal).publication
      ensures forall e :: e in old(cleanupAcks) ==> e in cleanupAcks && cleanupAcks[e] == old(cleanupAcks)[e]
      ensures finished <==>
        && Announced(old(journal), old(gcs.View()), death, fencing, terminal)
        && HoldsAnswered(old(journal).publication, old(cleanupAcks), replies) && swept
      ensures finished ==>
        && Fenced in journal.receipts && journal.result.None?
        && EveryReleaseAnswered(journal.publication, cleanupAcks) && HonestReplies(deaths, cleanupAcks)
    {
      hide Valid, Runs, SysInv, Inv, J.Sound, J.Evident, J.Outlives, Announced, HoldsAnswered, EveryReleaseAnswered,
           HonestReplies, AcksFit;
      finished := Announce(death, fencing, terminal, start);
      if !finished { return; }
      finished := SettleHolds(replies, start);
      if !finished || !swept { return false; }
      ghost var settled := journal;
      Empty(death, start);
      OutlivesComplete(settled, journal);
      ReceiptsStay(settled, journal);
    }

    /** Fence the publication for its dead owner, settle every hold it may ever
        have taken, and drop the payload: finished exactly when every call was
        answered. The evidence it then stands for settles everything and is
        well-formed, unless two holds alias. */
    method FinishOwnerDeath(death: Death, fencing: Call, terminal: Call, replies: map<J.Step, J.CleanupReply>,
                            swept: bool)
      returns (finished: bool)
      requires Valid() && HonestReplies(deaths, replies)
      modifies this`journal, this`terminalPending, this`cleanupDeath, this`cleanupAcks, this`cleaned
      modifies this`sent, this`answers, gcs
      ensures Valid() && Leads(old(View()), View())
      ensures forall e :: e in old(cleanupAcks) ==> e in cleanupAcks && cleanupAcks[e] == old(cleanupAcks)[e]
      ensures old(cleanupDeath).Some? ==> cleanupDeath == old(cleanupDeath)
      ensures finished <==>
        && FenceMatches(old(journal).publication, OwnerDeath(death)) && old(cleanupDeath) in {None, Some(death)}
        && (old(cleaned) ||
             (&& Announced(old(journal), old(gcs.View()), death, fencing, terminal)
              && HoldsAnswered(old(journal).publication, old(cleanupAcks), replies) && swept))
      ensures finished ==> cleanupDeath == Some(death) && cleaned
      ensures finished && !old(cleaned) ==>
        && Fenced in journal.receipts && journal.result.None? && terminalPending.None?
        && SettlesAll(journal.publication, OwnerDeathClosed(journal.publication, cleanupAcks))
        && (NoAlias(journal.publication) ==> OwnerDeathClosed(journal.publication, cleanupAcks).Valid())
    {
      hide SysInv, Leads, Inv, J.Sound, J.Evident, Announced, HoldsAnswered, HonestReplies, AcksFit,
           EveryReleaseAnswered, SettlesAll, NoAlias, OwnerDeathClosed, FenceMatches;
      ghost var start := View();
      Begins();
      if !FenceMatches(journal.publication, OwnerDeath(death)) { return false; }
      if cleanupDeath.Some? && cleanupDeath.value != death { return false; }
      if cleaned { return true; }
      cleanupDeath := Some(death);
      finished := CleanUp(death, fencing, terminal, replies, swept, start);
      if finished {
        Facts(start);
        OwnerDeathEvidence(journal.publication, deaths, cleanupAcks);
        cleaned, terminalPending := true, None;
      }
    }
  }
}
