/** What becomes of a manifest that names one hold twice: a run of the joint
    machine in which its rollback finishes without constructible evidence, and
    exactly which manifests have such a run. */
module AliasedRollback {
  import opened Ids
  import opened ReferenceGraph
  import opened PublicationFacts
  import opened PublicationAuthority
  import opened PublicationInvariants
  import opened PublicationHistory
  import J = PublicationJournal
  import opened PublicationSettlement
  import opened NodePublication
  import opened NodeSteps

  // Some child is the container itself, so its graph is never reserved.
  ghost predicate SelfContained(p: Publication) {
    exists t :: t in p.transfers && t.child == p.Object()
  }

  // ------------------------------------------------------------------------
  // Runs

  ghost predicate Live(p: Publication, s: System) {
    p.TaskPublication? && p.Valid() && Leads(Start(p), s) && SysInv(s) && s.journal.publication == p
  }

  lemma Stepped(p: Publication, s: System, e: Event)
    requires Live(p, s) && Enabled(s, e)
    ensures Live(p, Next(s, e))
  {
    hide Enabled, Next, Leads, J.Sound, SentSound, AnswersSound, RecordSound, DeathsSound, Inv;
    OneMore(Start(p), s, e);
    PublicationStays(s, e);
  }

  lemma LiveFacts(p: Publication, s: System)
    requires Live(p, s)
    ensures s.journal.publication == p && p.TaskPublication? && p.Valid()
    ensures J.Sound(s.journal) && J.Evident(s.journal) && Inv(s.gcs) && SysInv(s)
  {
    hide Leads;
  }

  // One journal call.
  lemma Moved(p: Publication, s: System, move: J.Move) returns (t: System)
    requires Live(p, s) && J.Sound(s.journal) && J.Evident(s.journal) && p.TaskPublication? && MoveAllowed(s, move)
    ensures Live(p, t) && t == s.(journal := J.Act(s.journal, move))
  {
    hide Live, J.Sound, J.Evident, J.Act, SysInv, MoveAllowed;
    LiveFacts(p, s);
    MovedEnables(s, move);
    Stepped(p, s, Journal(move));
    t := Next(s, Journal(move));
  }

  lemma MovedEnables(s: System, move: J.Move)
    requires s.journal.publication.TaskPublication? && J.Evident(s.journal) && MoveAllowed(s, move)
    ensures Enabled(s, Journal(move)) && Next(s, Journal(move)) == s.(journal := J.Act(s.journal, move))
  {
    hide J.Evident, J.Act, MoveAllowed;
  }

  // One forward effect with fitting evidence.
  lemma Performed(p: Publication, s: System, step: J.Step, evidence: J.Evidence) returns (t: System)
    requires Live(p, s) && p.TaskPublication? && Due(s.journal, step) && step !in s.journal.acks
    requires s.journal.publication == p && J.EvidenceFits(p, step, evidence)
    ensures Live(p, t) && t == s.(journal := t.journal) && SameCourse(s.journal, t.journal)
    ensures step in t.journal.acks && step in t.journal.intents
  {
    hide Live, J.Sound, J.Evident, J.Act, J.Attempt, J.EvidenceFits, SysInv, Due;
    LiveFacts(p, s);
    DueIs(s.journal, step);
    BeginsActs(s.journal, step);
    t := Moved(p, s, J.Begins(step));
    DueStays(s.journal, t.journal, step);
    LiveFacts(p, t);
    AcksActs(t.journal, step, false, evidence);
    t := Moved(p, t, J.Acks(J.Ack(J.Effect(t.journal.Ref(), step), false), evidence));
  }

  lemma DueIs(rec: J.Record, step: J.Step)
    requires Due(rec, step)
    ensures step.Forward() && rec.InRange(step)
  {
  }

  // One request that goes through and is recorded.
  lemma AskedAndAnswered(p: Publication, s: System, r: Request, forward: bool) returns (t: System)
    requires Live(p, s) && s.journal.publication.TaskPublication? && J.Evident(s.journal)
    requires MaySend(s.journal, r) && !r.GetPublication? && Recordable(s.gcs, s.journal, r, r.StageOf(), forward)
    ensures Live(p, t) && t.gcs == Apply(s.gcs, r).0
    ensures t.journal == s.journal.(receipts := t.journal.receipts) && r.StageOf() in t.journal.receipts
    ensures forall st :: st in s.journal.receipts ==> st in t.journal.receipts
  {
    hide Live, J.Sound, J.Evident, J.Act, J.Attempt, SysInv, Recordable, MaySend, Apply, J.Outlives;
    var answer := J.Answer(r, Apply(s.gcs, r).1);
    var sent := SentTo(p, s, r);
    LiveFacts(p, sent);
    RecordingReply(s.gcs, s.journal, r, r.StageOf(), forward);
    J.ActOutlives(s.journal, J.Records(r, answer, r.StageOf(), forward));
    ReceiptsKept(s.journal, J.Act(s.journal, J.Records(r, answer, r.StageOf(), forward)));
    t := Moved(p, sent, J.Records(r, answer, r.StageOf(), forward));
  }

  lemma ReceiptsKept(rec: J.Record, next: J.Record)
    requires J.Outlives(rec, next)
    ensures forall st :: st in rec.receipts ==> st in next.receipts
  {
  }

  lemma SentTo(p: Publication, s: System, r: Request) returns (t: System)
    requires Live(p, s) && s.journal.publication.TaskPublication? && J.Evident(s.journal) && MaySend(s.journal, r)
    ensures Live(p, t) && t.journal == s.journal && t.gcs == Apply(s.gcs, r).0
    ensures r in t.sent && J.Answer(r, Apply(s.gcs, r).1) in t.answers
  {
    hide Live, J.Sound, J.Evident, SysInv, MaySend, Apply;
    Stepped(p, s, Send(r));
    var sent := Next(s, Send(r));
    Stepped(p, sent, Deliver(r));
    t := Next(sent, Deliver(r));
  }

  // ------------------------------------------------------------------------
  // Registration at an empty authority

  // All edges leave the container, so a cycle returns to it at once.
  lemma CycleIsSelfContained(p: Publication, path: seq<ObjectID>)
    requires IsCycle(EdgesFrom(p), path)
    ensures SelfContained(p)
  {
    assert (path[0], path[1]) in EdgesFrom(p);
    if |path| > 2 {
      assert (path[1], path[2]) in EdgesFrom(p);
    }
    var t :| t in p.transfers && (p.Object(), t.child) == (path[0], path[1]);
    assert t.child == p.Object();
  }

  lemma OnlyOutwardIsAcyclic(p: Publication)
    requires !SelfContained(p)
    ensures Acyclic(EdgesFrom(p))
  {
    hide IsCycle, SelfContained;
    forall path ensures !IsCycle(EdgesFrom(p), path) {
      if IsCycle(EdgesFrom(p), path) { CycleIsSelfContained(p, path); }
    }
  }

  // The authority knows only this publication, open and at most registered.
  ghost predicate Fresh(g: State, p: Publication) {
    var key := p.Key();
    && g.records.Keys == {key} && g.records[key].publication == p && g.records[key].fence.None?
    && g.records[key].adoption.None? && g.records[key].closed.None? && !g.records[key].Has(Retired)
  }

  lemma EmptyAcceptsBegin(p: Publication)
    requires p.TaskPublication? && p.Valid() && !SelfContained(p)
    ensures var (g, reply) := Apply(EMPTY, BeginPublication(p));
      reply.accepted && Fresh(g, p) && g.records[p.Key()].Has(Intent) && !g.records[p.Key()].Has(PreparedGraph)
  {
    NamesAgree(p);
    var base := Unregistered(p);
    RecordedAt(EMPTY, base, BeginPublication(p), Intent);
    RecordedAt(EMPTY, base, BeginPublication(p), PreparedGraph);
    RecordedAt(EMPTY, base, BeginPublication(p), Retired);
  }

  lemma NamesAgree(p: Publication)
    requires p.Valid() && !SelfContained(p)
    ensures OneOwnerEach(AllNames(map[]) + NamesIn(p))
  {
    assert AllNames(map[]) == {};
    forall a, b | a in NamesIn(p) && b in NamesIn(p) && a.0 == b.0 ensures a.1 == b.1 {
      var own := (p.Object(), p.owner);
      if a != own && b != own {
        var t :| t in p.transfers && a == (t.child, t.childOwner);
        var u :| u in p.transfers && b == (u.child, u.childOwner);
        SameChild(p, t, u);
      }
    }
  }

  lemma SameChild(p: Publication, t: Transfer, u: Transfer)
    requires p.Valid() && t in p.transfers && u in p.transfers && t.child == u.child
    ensures t.childOwner == u.childOwner
  {
    var i :| 0 <= i < |p.transfers| && p.transfers[i] == t;
    var j :| 0 <= j < |p.transfers| && p.transfers[j] == u;
  }

  lemma FreshAcceptsPrepare(g: State, p: Publication)
    requires Fresh(g, p) && g.records[p.Key()].Has(Intent) && !g.records[p.Key()].Has(PreparedGraph)
    requires !SelfContained(p)
    ensures var (g', reply) := Apply(g, PrepareGraph(p.Ref())); reply.accepted && Fresh(g', p)
  {
    hide Acyclic;
    OnlyOutwardIsAcyclic(p);
    assert ActiveEdges(g) + EdgesFrom(p) == EdgesFrom(p);
    RecordedAt(g, g.records[p.Key()], PrepareGraph(p.Ref()), Retired);
  }

  lemma FreshAcceptsFence(g: State, p: Publication)
    requires Fresh(g, p)
    ensures Apply(g, FencePublication(p, OwnerAbort(p.Ref(), p.owner, "abort"))).1.accepted
  {
  }

  // ------------------------------------------------------------------------
  // A run up to full intents

  // Open, reserved, and ready for its pins.
  ghost predicate Reserved(p: Publication, s: System) {
    && Live(p, s) && Fresh(s.gcs, p) && s.journal.phase.Active? && s.journal.rollback.None? && s.journal.complete.None?
    && s.journal.cleanups == map[] && J.OwnerRegister in s.journal.acks && PreparedGraph in s.journal.receipts
  }

  lemma StartIsLive(p: Publication)
    requires p.TaskPublication? && p.Valid()
    ensures Live(p, Start(p))
  {
    hide Leads;
    LeadsToItself(Start(p));
    StartIsInv(p);
  }

  lemma OwnerIsDue(p: Publication)
    requires p.TaskPublication?
    ensures Due(J.Opened(p), J.OwnerRegister) && J.EvidenceFits(p, J.OwnerRegister, J.Silent)
  {
  }

  // The owner acknowledges the registration.
  lemma RunToRegistered(p: Publication) returns (s: System)
    requires p.TaskPublication? && p.Valid()
    ensures Live(p, s) && s.gcs == EMPTY && J.OwnerRegister in s.journal.acks
    ensures s.journal.phase.Active? && s.journal.receipts == map[] && s.journal.cleanups == map[]
    ensures s.journal.rollback.None? && s.journal.complete.None?
  {
    hide Live, Due, J.EvidenceFits;
    StartIsLive(p);
    OwnerIsDue(p);
    s := Performed(p, Start(p), J.OwnerRegister, J.Silent);
  }

  // The GCS registers the publication and reserves its graph.
  lemma RunToReserved(p: Publication) returns (s: System)
    requires p.TaskPublication? && p.Valid() && !SelfContained(p)
    ensures Reserved(p, s)
  {
    hide Live, Fresh, Apply, J.Sound, J.Evident, SysInv, Inv, Recordable, SelfContained;
    s := RunToRegistered(p);
    EmptyAcceptsBegin(p);
    LiveFacts(p, s);
    OpenAccepts(s, BeginPublication(p));
    s := AskedAndAnswered(p, s, BeginPublication(p), true);
    FreshAcceptsPrepare(s.gcs, p);
    LiveFacts(p, s);
    OpenAccepts(s, PrepareGraph(p.Ref()));
    s := AskedAndAnswered(p, s, PrepareGraph(p.Ref()), true);
  }

  lemma OpenAccepts(s: System, r: Request)
    requires SysInv(s) && r.Valid() && (r.BeginPublication? || r.PrepareGraph?) && r.Ref() == s.journal.Ref()
    requires Apply(s.gcs, r).1.accepted && s.journal.phase.Active?
    requires r.BeginPublication? ==> J.OwnerRegister in s.journal.acks
    requires r.PrepareGraph? ==> Intent in s.journal.receipts
    ensures s.journal.publication.TaskPublication? && J.Evident(s.journal)
    ensures Recordable(s.gcs, s.journal, r, r.StageOf(), true)
  {
    hide Apply, J.Sound, J.Evident, SentSound, AnswersSound, RecordSound, DeathsSound, Inv, Recordable;
    SoundIsEvident(s.journal);
    ForwardIsRecordable(s, r);
  }

  lemma PinIsDue(p: Publication, s: System, i: nat)
    requires Reserved(p, s) && i < |p.transfers|
    ensures s.journal.publication == p && Due(s.journal, J.Prepare(i))
    ensures J.EvidenceFits(p, J.Prepare(i), J.Pinned(PinReply(p.transfers[i], false, false)))
  {
    hide Leads, SysInv;
  }

  lemma CourseStaysReserved(p: Publication, s: System, t: System)
    requires Reserved(p, s) && Live(p, t) && t == s.(journal := t.journal) && SameCourse(s.journal, t.journal)
    ensures Reserved(p, t)
  {
    hide Live, Fresh;
  }

  // One pin more, unless it is prepared already.
  lemma PinnedOne(p: Publication, s: System, i: nat) returns (t: System)
    requires Reserved(p, s) && i < |p.transfers|
    ensures Reserved(p, t) && Grown(s.journal, t.journal)
    ensures J.Prepare(i) in t.journal.acks && J.Prepare(i) in t.journal.intents
  {
    hide Live, Due, J.EvidenceFits, J.Sound, J.Evident, Fresh;
    LiveFacts(p, s);
    if J.Prepare(i) in s.journal.acks {
      AckedIsIntended(s.journal, J.Prepare(i));
      t := s;
    } else {
      PinIsDue(p, s, i);
      t := Performed(p, s, J.Prepare(i), J.Pinned(PinReply(p.transfers[i], false, false)));
      CourseStaysReserved(p, s, t);
    }
  }

  // Effects only accumulate.
  ghost predicate Grown(rec: J.Record, next: J.Record) {
    rec.intents <= next.intents && rec.acks.Keys <= next.acks.Keys
  }

  lemma AckedIsIntended(rec: J.Record, step: J.Step)
    requires J.Sound(rec) && step in rec.acks && step.Forward()
    ensures step in rec.intents
  {
  }

  // Every pin is prepared, in order.
  lemma {:induction false} RunToPinned(p: Publication, s: System, n: nat) returns (t: System)
    requires Reserved(p, s) && n <= |p.transfers|
    ensures Reserved(p, t)
    ensures forall i: nat :: i < n ==> J.Prepare(i) in t.journal.acks && J.Prepare(i) in t.journal.intents
  {
    hide Reserved, Live;
    if n == 0 {
      t := s;
    } else {
      var before := RunToPinned(p, s, n - 1);
      t := PinnedOne(p, before, n - 1);
    }
  }

  lemma PayloadIsDue(p: Publication, s: System)
    requires Reserved(p, s) && s.journal.AllPrepared()
    ensures s.journal.publication == p && Due(s.journal, J.Materialize)
    ensures J.EvidenceFits(p, J.Materialize, J.Stored(J.Descriptor(p.Object(), p.payload, p.owner, p.node.node)))
  {
    hide Leads, SysInv;
  }

  // The payload is stored.
  lemma RunToStored(p: Publication, s: System) returns (t: System)
    requires Reserved(p, s) && s.journal.publication == p && s.journal.AllPrepared()
    ensures Reserved(p, t) && Grown(s.journal, t.journal) && J.Materialize in t.journal.acks
  {
    hide Live, Due, J.EvidenceFits, J.Sound, J.Evident, Fresh, SysInv, Inv;
    LiveFacts(p, s);
    if J.Materialize in s.journal.acks {
      t := s;
    } else {
      PayloadIsDue(p, s);
      t := Performed(p, s, J.Materialize, J.Stored(J.Descriptor(p.Object(), p.payload, p.owner, p.node.node)));
      CourseStaysReserved(p, s, t);
    }
  }

  lemma PromotionIsDue(p: Publication, s: System, i: nat)
    requires Reserved(p, s) && s.journal.AllPrepared() && J.Materialize in s.journal.acks && i < |p.transfers|
    ensures s.journal.publication == p && p.TaskPublication? && Due(s.journal, J.Promote(i))
  {
    hide Leads, SysInv;
  }

  // One promotion is intended; its reply never comes.
  lemma RunToPromoting(p: Publication, s: System, i: nat) returns (t: System)
    requires Reserved(p, s) && s.journal.AllPrepared() && J.Materialize in s.journal.acks && i < |p.transfers|
    ensures Reserved(p, t) && Grown(s.journal, t.journal) && J.Promote(i) in t.journal.intents
  {
    hide Live, Due, J.Sound, J.Evident, Fresh, J.Act, J.Attempt, SysInv, Inv;
    LiveFacts(p, s);
    PromotionIsDue(p, s, i);
    BeginsActs(s.journal, J.Promote(i));
    t := Moved(p, s, J.Begins(J.Promote(i)));
    CourseStaysReserved(p, s, t);
  }

  // ------------------------------------------------------------------------
  // The rollback

  // Planned and fenced, with nothing but freed holds so far.
  ghost predicate Undoing(p: Publication, s: System, plan: J.Plan) {
    && Live(p, s) && s.journal.rollback == Some(plan) && Fenced in s.journal.receipts
    && forall e :: e in s.journal.cleanups ==> s.journal.cleanups[e].Freed?
  }

  lemma AbortActs(rec: J.Record)
    requires J.Sound(rec) && rec.phase.Active? && rec.rollback.None? && rec.complete.None?
    ensures rec.publication.TaskPublication? && J.Evident(rec)
    ensures var next := J.Act(rec, J.RollsBack("abort"));
      && next.rollback == Some(J.Plan(rec.Ref(), "abort", J.Inverse(rec.intents, rec.Count())))
      && next.cleanups == rec.cleanups && next.publication == rec.publication && next.receipts == rec.receipts
  {
    hide J.Inverse, J.FinishRollback, J.AlmostSound;
    J.BegunIsAlmostSound(rec, "abort");
    J.FinishRollbackIsSound(J.Begun(rec, "abort"));
    FinishedKeeps(J.Begun(rec, "abort"));
  }

  lemma RunToUndoing(p: Publication, s: System) returns (t: System)
    requires Reserved(p, s) && s.journal.publication == p
    ensures Undoing(p, t, J.Plan(p.Ref(), "abort", J.Inverse(s.journal.intents, |p.transfers|)))
  {
    hide Live, J.Sound, J.Evident, Fresh, J.Act, J.Attempt, J.Inverse, Apply, SysInv, Inv, MaySend, Recordable;
    LiveFacts(p, s);
    AbortActs(s.journal);
    var begun := Moved(p, s, J.RollsBack("abort"));
    var fence := FencePublication(p, OwnerAbort(p.Ref(), p.owner, "abort"));
    FreshAcceptsFence(begun.gcs, p);
    LiveFacts(p, begun);
    FenceMaySend(p, begun.journal);
    AcceptedIsRecordable(begun, fence);
    t := AskedAndAnswered(p, begun, fence, false);
  }

  lemma FenceMaySend(p: Publication, rec: J.Record)
    requires rec.publication == p && p.TaskPublication? && J.Evident(rec) && rec.rollback.Some? && p.Valid()
    ensures MaySend(rec, FencePublication(p, OwnerAbort(p.Ref(), p.owner, "abort")))
    ensures FencePublication(p, OwnerAbort(p.Ref(), p.owner, "abort")).Valid()
  {
  }

  // The child frees the hold, or the payload is dropped.
  function Freeing(p: Publication, step: J.Step): Option<J.CleanupReply>
    requires step.OfTransfer() ==> step.index < |p.transfers|
    requires step.SlotDrop? || step.FinalRelease? || step.ProvisionalRelease?
  {
    if step.SlotDrop? then None else Some(J.Freed(Release(J.HoldOf(p, step), true)))
  }

  lemma FreeingActs(rec: J.Record, step: J.Step)
    requires J.Sound(rec) && rec.publication.TaskPublication? && J.Evident(rec) && rec.rollback.Some?
    requires J.NextRollback(rec.rollback.value.effects, rec.acks) == Some(step)
    requires rec.InRange(step) && (step.SlotDrop? || step.FinalRelease? || step.ProvisionalRelease?)
    requires forall e :: e in rec.cleanups ==> rec.cleanups[e].Freed?
    ensures var ack := J.Ack(J.Effect(rec.Ref(), step), false);
      var next := J.Act(rec, J.AcksRollback(ack, Freeing(rec.publication, step)));
      && next.rollback == rec.rollback && next.receipts == rec.receipts && Todo(next) == Todo(rec) - {step}
      && (forall e :: e in next.cleanups ==> next.cleanups[e].Freed?)
  {
    hide J.Sound, J.Evident, J.AckRollback, J.FinishRollback, J.NextRollback, Todo;
    var ack, reply := J.Ack(J.Effect(rec.Ref(), step), false), Freeing(rec.publication, step);
    InTurnAdvances(rec, step, false, reply);
    InTurnIsTaken(rec, ack, reply);
    FinishedKeeps(J.Acked(rec, ack, reply));
  }

  // Every planned compensation is answered.
  lemma {:induction false} RunToUndone(p: Publication, s: System, plan: J.Plan) returns (t: System)
    requires Undoing(p, s, plan)
    ensures Undoing(p, t, plan) && t.journal.tombstone.Some?
    decreases Todo(s.journal)
  {
    hide Live, J.Sound, J.Evident, SysInv, Inv, J.Act, J.NextRollback, Todo;
    LiveFacts(p, s);
    NothingToDo(s.journal);
    var step := J.NextRollback(plan.effects, s.journal.acks);
    if step.None? {
      t := s;
    } else {
      NextIsPlanned(s.journal, step.value);
      FreeingActs(s.journal, step.value);
      var ack := J.Ack(J.Effect(p.Ref(), step.value), false);
      var next := Moved(p, s, J.AcksRollback(ack, Freeing(p, step.value)));
      t := RunToUndone(p, next, plan);
    }
  }

  // ------------------------------------------------------------------------
  // The evidence of an aliased rollback

  lemma UndoneIsFreed(rec: J.Record, step: J.Step)
    requires J.Sound(rec) && rec.rollback.Some? && rec.tombstone.Some? && step in rec.rollback.value.effects
    requires step.FinalRelease? || step.ProvisionalRelease?
    requires forall e :: e in rec.cleanups ==> rec.cleanups[e].Freed?
    ensures FreedStep(rec.rollback.value.effects, rec.cleanups, step)
  {
    J.NextRollbackMeaning(rec.rollback.value.effects, rec.acks);
  }

  lemma AliasIsIllFormed(rec: J.Record, intents: set<J.Step>, i: nat, j: nat)
    requires J.Sound(rec) && rec.rollback.Some? && rec.tombstone.Some? && i < rec.Count() && j < rec.Count()
    requires rec.rollback.value.effects == J.Inverse(intents, rec.Count())
    requires J.Promote(i) in intents && J.Prepare(j) in intents
    requires rec.publication.transfers[i].FinalKey() == rec.publication.transfers[j].ProvisionalKey()
    requires forall e :: e in rec.cleanups ==> rec.cleanups[e].Freed?
    ensures J.ClosedRollback(rec).Ok? && !J.ClosedRollback(rec).value.Valid()
  {
    hide J.Sound, J.Inverse, J.ClosedRollback, J.CleanupFits;
    J.InverseIsExact(intents, rec.Count());
    UndoneIsFreed(rec, J.FinalRelease(i));
    UndoneIsFreed(rec, J.ProvisionalRelease(j));
    ClosedIsWellFormed(rec);
  }

  /** Main result: every manifest with an alias, unless it contains itself, has a
      run in which the rollback finishes and its evidence cannot be constructed. */
  lemma AliasedRun(p: Publication) returns (events: seq<Event>, s: System)
    requires p.TaskPublication? && p.Valid() && !NoAlias(p) && !SelfContained(p)
    ensures Reaches(Start(p), events, s) && RolledBack(s) && s.journal.publication == p
    ensures J.ClosedRollback(s.journal).Ok? && !J.ClosedRollback(s.journal).value.Valid()
  {
    hide Reserved, Undoing, Live, SelfContained, J.ClosedRollback, J.Sound, J.Inverse, Reaches;
    var i, j :| 0 <= i < |p.transfers| && 0 <= j < |p.transfers|
      && p.transfers[i].FinalKey() == p.transfers[j].ProvisionalKey();
    var reserved := RunToReserved(p);
    var pinned := RunToPinned(p, reserved, |p.transfers|);
    ReservedFacts(p, pinned);
    var stored := RunToStored(p, pinned);
    ReservedFacts(p, stored);
    var promoting := RunToPromoting(p, stored, i);
    ReservedFacts(p, promoting);
    var plan := J.Plan(p.Ref(), "abort", J.Inverse(promoting.journal.intents, |p.transfers|));
    var undoing := RunToUndoing(p, promoting);
    s := RunToUndone(p, undoing, plan);
    UndoingFacts(p, s, plan);
    AliasIsIllFormed(s.journal, promoting.journal.intents, i, j);
    events :| Reaches(Start(p), events, s);
  }

  lemma ReservedFacts(p: Publication, s: System)
    requires Reserved(p, s)
    ensures s.journal.publication == p
  {
    hide Leads, SysInv;
  }

  lemma UndoingFacts(p: Publication, s: System, plan: J.Plan)
    requires Undoing(p, s, plan)
    ensures s.journal.publication == p && J.Sound(s.journal) && s.journal.rollback == Some(plan)
    ensures Fenced in s.journal.receipts && forall e :: e in s.journal.cleanups ==> s.journal.cleanups[e].Freed?
    ensures exists events :: Reaches(Start(p), events, s)
  {
  }

  // ------------------------------------------------------------------------
  // Manifests that contain themselves

  ghost predicate NoneSelfReserved(g: State) {
    forall k :: k in g.records && g.records[k].Has(PreparedGraph) ==> !SelfContained(g.records[k].publication)
  }

  lemma AcyclicIsNotSelfContained(edges: Edges, p: Publication)
    requires Acyclic(edges + EdgesFrom(p))
    ensures !SelfContained(p)
  {
    if SelfContained(p) {
      var t :| t in p.transfers && t.child == p.Object();
      assert (p.Object(), t.child) in EdgesFrom(p);
      assert IsCycle(edges + EdgesFrom(p), [p.Object(), p.Object()]);
    }
  }

  lemma ApplyKeepsNoneSelfReserved(g: State, r: Request)
    requires Keyed(g) && NoneSelfReserved(g)
    ensures NoneSelfReserved(Apply(g, r).0)
  {
    hide Apply, Keyed, SelfContained;
    var base := ApplyShape(g, r);
    if Apply(g, r).0 != g {
      RecordedAt(g, base, r, PreparedGraph);
      RecordedIsNotSelfContained(g, base, r);
    }
  }

  lemma RecordedIsNotSelfContained(g: State, base: Snapshot, r: Request)
    requires NoneSelfReserved(g) && BaseFor(g, r, base) && Guard(g, base, r) == None && !base.Has(r.StageOf())
    ensures Recorded(g, base, r).Has(PreparedGraph) ==> !SelfContained(Recorded(g, base, r).publication)
  {
    hide SelfContained, CheckBinding, CheckPrepared;
    RecordedAt(g, base, r, PreparedGraph);
    if r.PrepareGraph? {
      AcyclicIsNotSelfContained(ActiveEdges(g), base.publication);
    }
  }

  lemma {:induction false} ReachesKeepsNoneSelfReserved(s: System, events: seq<Event>, t: System)
    requires SysInv(s) && NoneSelfReserved(s.gcs) && Reaches(s, events, t)
    ensures NoneSelfReserved(t.gcs)
    decreases |events|
  {
    hide SysInv, NoneSelfReserved, Enabled, Next, J.Evident;
    if events == [] {
    } else {
      NextKeepsInv(s, events[0]);
      StepKeepsNoneSelfReserved(s, events[0]);
      ReachesKeepsNoneSelfReserved(Next(s, events[0]), events[1..], t);
    }
  }

  lemma StepKeepsNoneSelfReserved(s: System, e: Event)
    requires SysInv(s) && NoneSelfReserved(s.gcs) && s.journal.publication.TaskPublication? && J.Evident(s.journal)
    ensures NoneSelfReserved(Next(s, e).gcs)
  {
    hide NoneSelfReserved, Apply, J.Sound, J.Evident, SentSound, AnswersSound, RecordSound, DeathsSound;
    InvIsKeyed(s.gcs);
    match e
    case Deliver(r) => ApplyKeepsNoneSelfReserved(s.gcs, r);
    case Elsewhere(r) => ApplyKeepsNoneSelfReserved(s.gcs, r);
    case _ =>
  }

  // Without a reserved graph nothing was pinned, so nothing is released.
  lemma UnreservedIsWellFormed(rec: J.Record)
    requires J.Sound(rec) && rec.tombstone.Some? && DeathsAgree(rec.cleanups) && PreparedGraph !in rec.receipts
    ensures J.ClosedRollback(rec).Ok? && J.ClosedRollback(rec).value.Valid()
  {
    hide J.ClosedRollback, J.CleanupFits, DeathsAgree;
    J.InverseIsExact(rec.intents, rec.Count());
    ClosedIsWellFormed(rec);
  }

  lemma SelfContainedIsWellFormed(p: Publication, events: seq<Event>, s: System)
    requires p.TaskPublication? && p.Valid() && SelfContained(p) && Reaches(Start(p), events, s) && RolledBack(s)
    ensures J.ClosedRollback(s.journal).Ok? && J.ClosedRollback(s.journal).value.Valid()
  {
    hide Reaches, J.ClosedRollback, SelfContained, CheckClosed, Apply;
    StartIsInv(p);
    ReachesKeepsInv(Start(p), events, s);
    ReachesKeepsNoneSelfReserved(Start(p), events, s);
    RolledBackIsMatched(p, events, s);
    if PreparedGraph in s.journal.receipts {
      ReceiptsAgree(s.gcs, s.journal, PreparedGraph);
    }
    UnreservedIsWellFormed(s.journal);
  }

  // ------------------------------------------------------------------------
  // Exactly when

  // Whatever the interleaving, a finished rollback of p can construct its evidence.
  ghost predicate AlwaysConstructible(p: Publication)
    requires p.TaskPublication? && p.Valid()
  {
    forall events, s :: Reaches(Start(p), events, s) && RolledBack(s) ==>
      J.ClosedRollback(s.journal).Ok? && J.ClosedRollback(s.journal).value.Valid()
  }

  lemma UnaliasedIsWellFormed(p: Publication, events: seq<Event>, s: System)
    requires p.TaskPublication? && p.Valid() && NoAlias(p) && Reaches(Start(p), events, s) && RolledBack(s)
    ensures J.ClosedRollback(s.journal).Ok? && J.ClosedRollback(s.journal).value.Valid()
  {
    hide Reaches, J.ClosedRollback, NoAlias, CheckClosed, Apply;
    RollbackSettlesAtGcs(p, events, s);
  }

  /** Main result: the evidence of every finished rollback can be constructed
      exactly for manifests without an alias and for those that contain
      themselves, whose graph the GCS never reserves. */
  lemma ConstructibleIffUnaliased(p: Publication)
    requires p.TaskPublication? && p.Valid()
    ensures AlwaysConstructible(p) <==> NoAlias(p) || SelfContained(p)
  {
    hide Reaches, NoAlias, SelfContained, J.ClosedRollback, RolledBack;
    if NoAlias(p) || SelfContained(p) {
      forall events, s | Reaches(Start(p), events, s) && RolledBack(s)
        ensures J.ClosedRollback(s.journal).Ok? && J.ClosedRollback(s.journal).value.Valid()
      {
        if NoAlias(p) {
          UnaliasedIsWellFormed(p, events, s);
        } else {
          SelfContainedIsWellFormed(p, events, s);
        }
      }
    } else {
      var events, s := AliasedRun(p);
    }
  }
}
