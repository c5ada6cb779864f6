/** A publication can succeed: from the start of Node, network and GCS together, a
    run brings every valid acyclic manifest to Complete at the Node and to adoption at
    the GCS. */
module PublicationSuccess {
  import opened Ids
  import opened ReferenceGraph
  import opened PublicationFacts
  import opened PublicationAuthority
  import opened PublicationInvariants
  import J = PublicationJournal
  import opened NodePublication
  import Outcomes = PublicationOutcomes
  import JO = JournalOutcomes

  // ------------------------------------------------------------------------
  // One step of the joint machine

  // A run from the start whose journal is still active, with these receipts and acknowledgements.
  ghost predicate Underway(p: Publication, s: System, done: set<Stage>, acks: set<J.Step>) {
    && p.TaskPublication? && p.Valid() && Leads(Start(p), s) && SysInv(s)
    && s.journal.publication == p && s.journal.phase.Active? && s.journal.complete.None?
    && s.journal.receipts.Keys == done && s.journal.acks.Keys == acks
    && if done == {} then s.gcs == EMPTY else Outcomes.Reached(EMPTY, s.gcs, p, done)
  }

  lemma UnderwayFacts(p: Publication, s: System, done: set<Stage>, acks: set<J.Step>)
    requires Underway(p, s, done, acks)
    ensures s.journal.publication == p && p.TaskPublication? && J.Sound(s.journal) && J.Evident(s.journal)
    ensures Leads(Start(p), s) && SysInv(s) && Inv(s.gcs) && p.Valid()
  {
  }

  // The reply an effect gives when it went through.
  function Proof(p: Publication, step: J.Step): J.Evidence
    requires p.TaskPublication? && (step.Prepare? || step.Promote? ==> step.index < |p.transfers|)
  {
    match step
    case Prepare(i) => J.Pinned(PinReply(p.transfers[i], false, false))
    case Promote(i) => J.Pinned(PinReply(p.transfers[i], true, false))
    case Materialize => J.Stored(J.Descriptor(ObjectID(p.attempt.task, 0), p.payload, p.owner, p.node.node))
    case _ => J.Silent
  }

  lemma ProofIsGenuine(p: Publication, step: J.Step)
    requires p.TaskPublication? && (step.Prepare? || step.Promote? ==> step.index < |p.transfers|)
    ensures JO.Genuine(p, step, Proof(p, step))
  {
  }

  lemma IntentWritten(p: Publication, s: System, done: set<Stage>, acks: set<J.Step>, step: J.Step) returns (t: System)
    requires Underway(p, s, done, acks) && step.Forward() && JO.Exists(s.journal, step) && JO.TurnOf(s.journal, step)
    ensures Underway(p, t, done, acks) && step in t.journal.intents && t.journal.children == s.journal.children
    ensures t.gcs == s.gcs
  {
    hide SysInv, J.Sound, J.Evident, Inv, Leads, Outcomes.Reached, J.Begin, JO.TurnOf;
    UnderwayFacts(p, s, done, acks);
    JO.BeginIff(s.journal, step);
    var e := Event.Journal(J.Begins(step));
    OneMore(Start(p), s, e);
    t := Next(s, e);
  }

  /** One effect more is acknowledged. */
  lemma Effect(p: Publication, s: System, done: set<Stage>, acks: set<J.Step>, step: J.Step) returns (t: System)
    requires Underway(p, s, done, acks) && step.Forward() && JO.Exists(s.journal, step) && JO.TurnOf(s.journal, step)
    requires step !in acks
    ensures Underway(p, t, done, acks + {step}) && t.gcs == s.gcs
  {
    hide SysInv, J.Sound, J.Evident, Inv, Leads, Outcomes.Reached, J.AckForward, JO.Genuine;
    var u := IntentWritten(p, s, done, acks, step);
    UnderwayFacts(p, u, done, acks);
    var ack, proof := J.Ack(J.Effect(p.Ref(), step), false), Proof(p, step);
    ProofIsGenuine(p, step);
    JO.AckForwardIff(u.journal, ack, proof);
    var e := Event.Journal(J.Acks(ack, proof));
    OneMore(Start(p), u, e);
    t := Next(u, e);
  }

  // ------------------------------------------------------------------------
  // One exchange with the GCS

  // What the GCS answers to a fresh request of this publication.
  ghost predicate Granted(p: Publication, r: Request, reply: Reply)
    requires !r.GetPublication?
  {
    && reply.accepted && reply.receipt.Some? && reply.receipt.value.reference == p.Ref()
    && reply.receipt.value.stage == Outcomes.Stamp(r)
    && reply.snapshot.Some? && reply.snapshot.value.publication == p && reply.snapshot.value.fence.None?
    && reply.snapshot.value.At(Retired).None?
    && (r.ArmTask? ==> reply.snapshot.value.prepared == Some(r.prepared))
  }

  lemma ReachedIsOpen(p: Publication, g: State, done: set<Stage>)
    requires Outcomes.Reached(EMPTY, g, p, done) && Retired !in done
    ensures g.records[p.Key()].publication == p && g.records[p.Key()].fence.None?
    ensures g.records[p.Key()].At(Retired).None?
  {
    hide Outcomes.Received;
    Outcomes.ReceivedIsHas(g.records[p.Key()]);
  }

  lemma FirstGrant(p: Publication, r: Request)
    requires p.TaskPublication? && p.Valid() && Acyclic(EdgesFrom(p)) && r == BeginPublication(p)
    ensures var (h, reply) := Apply(EMPTY, r); Outcomes.Reached(EMPTY, h, p, {Intent}) && Granted(p, r, reply)
    ensures Outcomes.Reserved(Apply(EMPTY, r).0) == {}
  {
    hide Outcomes.Admissible, Inv, Apply, Outcomes.Received, Acyclic, Outcomes.Reached;
    Outcomes.FreshIsWelcoming(p);
    Outcomes.DrivenBegin(EMPTY, p);
    assert Run(EMPTY, [r]) == Run(Apply(EMPTY, r).0, []);
    Outcomes.AcceptedEffect(EMPTY, r);
    ReachedIsOpen(p, Apply(EMPTY, r).0, {Intent});
  }

  lemma NextGrant(p: Publication, g: State, done: set<Stage>, r: Request)
    requires Inv(g) && Outcomes.Reached(EMPTY, g, p, done) && r.Valid() && r.Ref() == p.Ref()
    requires Outcomes.Acceptable(g, r) && (r.PrepareGraph? || r.ArmTask?)
    requires Outcomes.Stamp(r) !in done && Retired !in done
    ensures var (h, reply) := Apply(g, r);
      Outcomes.Reached(EMPTY, h, p, done + {Outcomes.Stamp(r)}) && Granted(p, r, reply)
  {
    hide Outcomes.Acceptable, Inv, Apply, Outcomes.Received, Outcomes.Reached;
    Outcomes.ReachedFurther(EMPTY, g, p, done, r);
    NotDone(p, g, done, r);
    Outcomes.AcceptedEffect(g, r);
    ReachedIsOpen(p, Apply(g, r).0, done + {Outcomes.Stamp(r)});
  }

  lemma NotDone(p: Publication, g: State, done: set<Stage>, r: Request)
    requires Outcomes.Reached(EMPTY, g, p, done) && !r.GetPublication? && r.Ref() == p.Ref()
    requires Outcomes.Stamp(r) !in done
    ensures !Outcomes.Done(g, r) && p.Key() in g.records
  {
    hide Outcomes.Received;
  }

  // The journal may use this answer for its forward work.
  ghost predicate Usable(rec: J.Record, r: Request)
    requires rec.publication.TaskPublication? && J.Evident(rec)
  {
    && rec.phase.Active?
    && (r.BeginPublication? ==> J.OwnerRegister in rec.acks) && (r.PrepareGraph? ==> Intent in rec.receipts)
    && (r.ArmTask? ==> J.Preparation(rec) == J.Ok(r.prepared))
  }

  lemma GrantIsKept(rec: J.Record, r: Request, reply: Reply)
    requires rec.publication.TaskPublication? && J.Evident(rec)
    requires r.BeginPublication? || r.PrepareGraph? || r.ArmTask?
    requires Granted(rec.publication, r, reply) && Usable(rec, r) && Outcomes.Stamp(r) !in rec.receipts
    ensures J.RecordReply(rec, r, J.Answer(r, reply), Outcomes.Stamp(r), true)
         == J.Ok(rec.(receipts := rec.receipts[Outcomes.Stamp(r) := reply.receipt.value]))
  {
    hide J.Evident, J.RecordReply, J.Preparation, FindReceipt, JO.Attests, JO.Effected;
    JO.PreparationIff(rec);
    JO.ReceiptIff(rec, r, J.Answer(r, reply), Outcomes.Stamp(r), true);
  }

  // Only this receipt was added.
  predicate Stamped(rec: J.Record, next: J.Record, stage: Stage) {
    stage in next.receipts && next == rec.(receipts := rec.receipts[stage := next.receipts[stage]])
  }

  // Request, delivery and receipt.
  lemma Exchanged(p: Publication, s: System, r: Request) returns (t: System)
    requires p.TaskPublication? && Leads(Start(p), s) && SysInv(s) && s.journal.publication == p && J.Evident(s.journal)
    requires (r.BeginPublication? || r.PrepareGraph? || r.ArmTask?) && MaySend(s.journal, r)
    requires Granted(p, r, Apply(s.gcs, r).1) && Usable(s.journal, r) && Outcomes.Stamp(r) !in s.journal.receipts
    ensures Leads(Start(p), t) && SysInv(t) && t.gcs == Apply(s.gcs, r).0
    ensures Stamped(s.journal, t.journal, Outcomes.Stamp(r))
  {
    hide SysInv, J.Evident, Apply, Leads, MaySend, J.RecordReply, Usable, J.Preparation;
    OneMore(Start(p), s, Event.Send(r));
    var sent := Next(s, Event.Send(r));
    OneMore(Start(p), sent, Event.Deliver(r));
    var told := Next(sent, Event.Deliver(r));
    var reply := Apply(s.gcs, r).1;
    GrantIsKept(s.journal, r, reply);
    var records := Event.Journal(J.Records(r, J.Answer(r, reply), Outcomes.Stamp(r), true));
    OneMore(Start(p), told, records);
    t := Next(told, records);
  }

  // ------------------------------------------------------------------------
  // The forward path

  // The pins of the first n transfers.
  function Pins(promote: bool, n: nat): set<J.Step> {
    set i | i in Below(n) :: if promote then J.Promote(i) else J.Prepare(i)
  }

  lemma PinsGrow(promote: bool, n: nat)
    ensures Pins(promote, n + 1) == Pins(promote, n) + {if promote then J.Promote(n) else J.Prepare(n)}
    ensures (if promote then J.Promote(n) else J.Prepare(n)) !in Pins(promote, n)
  {
  }

  lemma MayStep(p: Publication, s: System, done: set<Stage>, acks: set<J.Step>, step: J.Step)
    requires Underway(p, s, done, acks) && step.Forward() && JO.Earlier(step, |p.transfers|) <= acks
    requires !step.OwnerRegister? ==> PreparedGraph in done
    requires step.Prepare? || step.Promote? ==> step.index < |p.transfers|
    ensures JO.Exists(s.journal, step) && JO.TurnOf(s.journal, step)
  {
    hide SysInv, Leads, Outcomes.Reached, JO.Earlier;
  }

  // The pins of one kind, from the n-th on.
  lemma {:induction false} AllPinned(p: Publication, s: System, done: set<Stage>, acks: set<J.Step>, promote: bool,
                                     n: nat)
      returns (t: System)
    requires Underway(p, s, done, acks) && PreparedGraph in done && n <= |p.transfers|
    requires acks * Pins(promote, |p.transfers|) == Pins(promote, n)
    requires JO.Earlier(if promote then J.Promote(0) else J.Prepare(0), |p.transfers|) <= acks
    ensures Underway(p, t, done, acks + Pins(promote, |p.transfers|)) && t.gcs == s.gcs
    decreases |p.transfers| - n
  {
    hide Underway, Pins;
    if n == |p.transfers| {
      t := s;
      assert acks + Pins(promote, n) == acks;
    } else {
      var step := if promote then J.Promote(n) else J.Prepare(n);
      PinsGrow(promote, n);
      PinIsNext(promote, n, |p.transfers|);
      MayStep(p, s, done, acks, step);
      var u := Effect(p, s, done, acks, step);
      assert (acks + {step}) * Pins(promote, |p.transfers|) == Pins(promote, n + 1);
      t := AllPinned(p, u, done, acks + {step}, promote, n + 1);
      assert acks + {step} + Pins(promote, |p.transfers|) == acks + Pins(promote, |p.transfers|);
    }
  }

  lemma PinIsNext(promote: bool, n: nat, count: nat)
    requires n < count
    ensures (if promote then J.Promote(n) else J.Prepare(n)) in Pins(promote, count)
  {
  }

  // ------------------------------------------------------------------------
  // From the start to adoption

  lemma Begun(p: Publication) returns (t: System)
    requires p.TaskPublication? && p.Valid() && Acyclic(EdgesFrom(p))
    ensures Underway(p, t, {Intent}, {J.OwnerRegister}) && Outcomes.Reserved(t.gcs) == {}
  {
    hide SysInv, J.Evident, Leads, Apply, Acyclic, Granted, Outcomes.Reserved, Outcomes.Reached, J.Sound, Inv;
    StartIsInv(p);
    LeadsToItself(Start(p));
    var s := Start(p);
    assert Underway(p, s, {}, {});
    MayStep(p, s, {}, {}, J.OwnerRegister);
    var u := Effect(p, s, {}, {}, J.OwnerRegister);
    UnderwayFacts(p, u, {}, {} + {J.OwnerRegister});
    FirstGrant(p, BeginPublication(p));
    t := Exchanged(p, u, BeginPublication(p));
  }

  lemma GraphMay(p: Publication, g: State)
    requires Outcomes.Reached(EMPTY, g, p, {Intent}) && Outcomes.Reserved(g) == {} && Acyclic(EdgesFrom(p))
    ensures Outcomes.Acceptable(g, PrepareGraph(p.Ref()))
  {
    hide Acyclic, Outcomes.Received, Outcomes.Reserved;
    assert Outcomes.Reserved(g) + EdgesFrom(p) == EdgesFrom(p);
    assert p.Ref().key == p.Key();
  }

  lemma Reserved(p: Publication) returns (t: System)
    requires p.TaskPublication? && p.Valid() && Acyclic(EdgesFrom(p))
    ensures Underway(p, t, {Intent, PreparedGraph}, {J.OwnerRegister})
  {
    hide SysInv, J.Evident, Leads, Apply, Acyclic, Granted, Outcomes.Acceptable, Outcomes.Reached, J.Sound, Inv;
    var s := Begun(p);
    UnderwayFacts(p, s, {Intent}, {J.OwnerRegister});
    GraphMay(p, s.gcs);
    NextGrant(p, s.gcs, {Intent}, PrepareGraph(p.Ref()));
    t := Exchanged(p, s, PrepareGraph(p.Ref()));
    assert {Intent} + {PreparedGraph} == {Intent, PreparedGraph};
  }

  // Every effect of the manifest.
  function Whole(p: Publication): set<J.Step> {
    {J.OwnerRegister} + Pins(false, |p.transfers|) + {J.Materialize} + Pins(true, |p.transfers|)
  }

  lemma WholeSteps(n: nat)
    ensures JO.Earlier(J.Prepare(0), n) <= {J.OwnerRegister}
    ensures JO.Earlier(J.Materialize, n) <= {J.OwnerRegister} + Pins(false, n)
    ensures JO.Earlier(J.Promote(0), n) <= {J.OwnerRegister} + Pins(false, n) + {J.Materialize}
    ensures {J.OwnerRegister} * Pins(false, n) == Pins(false, 0)
    ensures ({J.OwnerRegister} + Pins(false, n) + {J.Materialize}) * Pins(true, n) == Pins(true, 0)
    ensures J.Materialize !in {J.OwnerRegister} + Pins(false, n)
  {
  }

  lemma AllEffected(p: Publication) returns (t: System)
    requires p.TaskPublication? && p.Valid() && Acyclic(EdgesFrom(p))
    ensures Underway(p, t, {Intent, PreparedGraph}, Whole(p))
  {
    hide Underway, Acyclic, Pins, JO.Earlier;
    var n, done, owner := |p.transfers|, {Intent, PreparedGraph}, {J.OwnerRegister};
    WholeSteps(n);
    var s := Reserved(p);
    var pinned := AllPinned(p, s, done, owner, false, 0);
    MayStep(p, pinned, done, owner + Pins(false, n), J.Materialize);
    var stored := Effect(p, pinned, done, owner + Pins(false, n), J.Materialize);
    t := AllPinned(p, stored, done, owner + Pins(false, n) + {J.Materialize}, true, 0);
  }

  lemma WholeIsEffected(p: Publication, s: System, done: set<Stage>)
    requires Underway(p, s, done, Whole(p))
    ensures JO.Effected(s.journal)
  {
    hide SysInv, Leads, Outcomes.Reached, J.Sound;
    forall i: nat | i < s.journal.Count() ensures J.Promote(i) in s.journal.acks {
      PinIsNext(true, i, |p.transfers|);
    }
  }

  lemma ArmMay(p: Publication, g: State, prepared: Prepared)
    requires Outcomes.Reached(EMPTY, g, p, {Intent, PreparedGraph}) && CheckPrepared(p, prepared) == None
    ensures Outcomes.Acceptable(g, ArmTask(prepared)) && prepared.reference == p.Ref()
  {
    hide Outcomes.Received, Outcomes.Attests, CheckPrepared;
    Outcomes.AttestsIff(p, prepared);
    AttestsNames(p, prepared);
    assert p.Ref().key == p.Key();
  }

  lemma AttestsNames(p: Publication, prepared: Prepared)
    requires Outcomes.Attests(p, prepared)
    ensures prepared.reference == p.Ref() && (prepared.TaskPrepared? <==> p.TaskPublication?)
  {
  }

  lemma ArmedAtGcs(p: Publication) returns (t: System)
    requires p.TaskPublication? && p.Valid() && Acyclic(EdgesFrom(p))
    ensures Underway(p, t, {Intent, PreparedGraph, Armed}, Whole(p))
  {
    hide SysInv, J.Evident, Leads, Apply, Acyclic, Granted, Outcomes.Acceptable, Outcomes.Reached, J.Sound, Inv,
      J.Preparation, JO.Effected, CheckPrepared, Whole;
    var s := AllEffected(p);
    UnderwayFacts(p, s, {Intent, PreparedGraph}, Whole(p));
    WholeIsEffected(p, s, {Intent, PreparedGraph});
    JO.PreparationIff(s.journal);
    var prepared := J.Preparation(s.journal).value;
    PreparationPasses(s.journal, prepared);
    ArmMay(p, s.gcs, prepared);
    var r := ArmTask(prepared);
    NextGrant(p, s.gcs, {Intent, PreparedGraph}, r);
    t := Exchanged(p, s, r);
    assert {Intent, PreparedGraph} + {Armed} == {Intent, PreparedGraph, Armed};
  }

  // Complete is crossed at the Node.
  lemma Completed(p: Publication) returns (t: System)
    requires p.TaskPublication? && p.Valid() && Acyclic(EdgesFrom(p))
    ensures Leads(Start(p), t) && SysInv(t) && t.journal.publication == p
    ensures t.journal.complete == Some(Complete(p.Ref())) && t.journal.phase.Completed?
    ensures Outcomes.Reached(EMPTY, t.gcs, p, {Intent, PreparedGraph, Armed})
  {
    hide SysInv, J.Evident, Leads, Acyclic, Outcomes.Reached, J.Sound, Inv, JO.Effected, Whole, J.Finish;
    var s := ArmedAtGcs(p);
    UnderwayFacts(p, s, {Intent, PreparedGraph, Armed}, Whole(p));
    WholeIsEffected(p, s, {Intent, PreparedGraph, Armed});
    JO.FinishIff(s.journal, Complete(p.Ref()));
    var e := Event.Journal(J.Finishes(Complete(p.Ref())));
    OneMore(Start(p), s, e);
    t := Next(s, e);
  }

  // A run from the start in which the GCS went this far.
  ghost predicate Ripe(p: Publication, s: System, done: set<Stage>) {
    && s.journal.publication == p && p.TaskPublication? && J.Evident(s.journal)
    && Leads(Start(p), s) && SysInv(s) && Outcomes.Reached(EMPTY, s.gcs, p, done)
  }

  ghost predicate AdoptedAs(g: State, p: Publication, proof: Adoption) {
    p.Key() in g.records && g.records[p.Key()].adoption == Some(proof)
  }

  // The Node's report of Complete arrives, or the owner commits or adopts.
  ghost predicate Arrives(s: System, r: Request, e: Event) {
    && (r.RecordTerminal? || r.CommitGraph? || r.RecordAdoption?)
    && (e == Event.Deliver(r) || e == Event.Elsewhere(r))
    && s.journal.publication.TaskPublication? && J.Evident(s.journal) && Enabled(s, e)
  }

  // A later stage is reached by a request that the GCS accepts.
  lemma Later(p: Publication, s: System, done: set<Stage>, r: Request, e: Event) returns (t: System)
    requires Ripe(p, s, done) && Arrives(s, r, e)
    requires r.Valid() && r.Ref() == p.Ref() && Outcomes.Acceptable(s.gcs, r)
    requires !r.GetPublication? && Outcomes.Stamp(r) !in done
    requires r.RecordTerminal? ==> r.complete == Complete(p.Ref())
    ensures Ripe(p, t, done + {Outcomes.Stamp(r)}) && t.journal == s.journal && t.sent == s.sent
    ensures r.RecordAdoption? ==> AdoptedAs(t.gcs, p, r.proof)
  {
    hide SysInv, Leads, J.Evident, Enabled, Outcomes.Reached, Outcomes.Acceptable, Outcomes.Received, Apply, Inv;
    InvHolds(s);
    GcsGoesOn(p, s.gcs, done, r);
    OneMore(Start(p), s, e);
    t := Next(s, e);
  }

  lemma GcsGoesOn(p: Publication, g: State, done: set<Stage>, r: Request)
    requires Inv(g) && Outcomes.Reached(EMPTY, g, p, done) && r.Valid() && r.Ref() == p.Ref()
    requires r.RecordTerminal? || r.CommitGraph? || r.RecordAdoption?
    requires Outcomes.Acceptable(g, r) && Outcomes.Stamp(r) !in done
    requires r.RecordTerminal? ==> r.complete == Complete(p.Ref())
    ensures Outcomes.Reached(EMPTY, Apply(g, r).0, p, done + {Outcomes.Stamp(r)})
    ensures r.RecordAdoption? ==> AdoptedAs(Apply(g, r).0, p, r.proof)
  {
    hide Outcomes.Reached, Outcomes.Acceptable, Outcomes.Received, Apply, Inv;
    Outcomes.ReachedFurther(EMPTY, g, p, done, r);
    NotDone(p, g, done, r);
    Outcomes.AcceptedEffect(g, r);
  }

  lemma InvHolds(s: System)
    requires SysInv(s)
    ensures Inv(s.gcs)
  {
    hide Inv, J.Sound;
  }

  lemma FactsOf(s: System)
    requires SysInv(s)
    ensures J.Evident(s.journal) && s.journal.publication.TaskPublication?
  {
    SysInvMeans(s);
  }

  // The request the owner or the Node sends next is accepted.
  lemma LateMay(p: Publication, g: State, done: set<Stage>, commitId: string)
    requires Outcomes.Reached(EMPTY, g, p, done) && p.TaskPublication?
    ensures done == {Intent, PreparedGraph, Armed} ==> Outcomes.Acceptable(g, RecordTerminal(Complete(p.Ref())))
    ensures done == {Intent, PreparedGraph, Armed, Terminal} ==> Outcomes.Acceptable(g, CommitGraph(p.Ref(), None))
    ensures done == {Intent, PreparedGraph, Armed, Terminal, Committed} ==>
              Outcomes.Acceptable(g, RecordAdoption(Adoption(Complete(p.Ref()), p.owner, commitId)))
  {
    hide Outcomes.Received;
    assert p.Ref().key == p.Key();
  }

  // The Node tells the GCS of its Complete.
  lemma Told(p: Publication, s: System, commitId: string) returns (t: System)
    requires Ripe(p, s, {Intent, PreparedGraph, Armed}) && s.journal.complete == Some(Complete(p.Ref()))
    ensures Ripe(p, t, {Intent, PreparedGraph, Armed, Terminal}) && t.journal == s.journal
  {
    hide SysInv, J.Evident, Leads, J.Sound, Inv, Outcomes.Acceptable, Outcomes.Reached, Apply;
    var done, r := {Intent, PreparedGraph, Armed}, RecordTerminal(Complete(p.Ref()));
    OneMore(Start(p), s, Event.Send(r));
    var sent := Next(s, Event.Send(r));
    LateMay(p, sent.gcs, done, commitId);
    t := Later(p, sent, done, r, Event.Deliver(r));
    assert done + {Terminal} == {Intent, PreparedGraph, Armed, Terminal};
  }

  // The owner's table commits the graph and adopts the output.
  lemma Adopted(p: Publication, s: System, commitId: string) returns (t: System)
    requires Ripe(p, s, {Intent, PreparedGraph, Armed, Terminal})
    ensures Leads(Start(p), t) && SysInv(t) && t.journal == s.journal
    ensures AdoptedAs(t.gcs, p, Adoption(Complete(p.Ref()), p.owner, commitId))
  {
    hide SysInv, J.Evident, Leads, J.Sound, Inv, Outcomes.Acceptable, Outcomes.Reached, Apply;
    var done := {Intent, PreparedGraph, Armed, Terminal};
    LateMay(p, s.gcs, done, commitId);
    var commit := CommitGraph(p.Ref(), None);
    var u := Later(p, s, done, commit, Event.Elsewhere(commit));
    assert done + {Committed} == {Intent, PreparedGraph, Armed, Terminal, Committed};
    LateMay(p, u.gcs, done + {Committed}, commitId);
    var adopt := RecordAdoption(Adoption(Complete(p.Ref()), p.owner, commitId));
    t := Later(p, u, done + {Committed}, adopt, Event.Elsewhere(adopt));
  }

  /** Main result: for every valid Task manifest whose edges close no cycle there is a
      run of the joint machine in which the journal reaches Complete, the GCS learns of
      it and commits, and the owner adopts the output under its own commit. */
  lemma PublicationSucceeds(p: Publication, commitId: string) returns (t: System)
    requires p.TaskPublication? && p.Valid() && Acyclic(EdgesFrom(p))
    ensures Leads(Start(p), t) && SysInv(t)
    ensures t.journal.complete == Some(Complete(p.Ref())) && t.journal.phase.Completed?
    ensures AdoptedAs(t.gcs, p, Adoption(Complete(p.Ref()), p.owner, commitId))
  {
    hide SysInv, J.Evident, Leads, Acyclic, Outcomes.Reached, AdoptedAs;
    var s := Completed(p);
    FactsOf(s);
    var told := Told(p, s, commitId);
    t := Adopted(p, told, commitId);
  }
}
