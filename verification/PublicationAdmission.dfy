/** What the GCS answers under membership, said of registered Nodes and Workers
    alone, and that nobody dead gains forward permission. */
module PublicationAdmission {
  import opened Ids
  import opened PublicationFacts
  import opened PublicationAuthority
  import opened PublicationInvariants
  import opened PublicationHistory
  import opened PublicationOutcomes
  import opened DeathOutbox

  // ------------------------------------------------------------------------
  // Membership facts

  predicate LiveNode(m: Membership, node: NodeIncarnation) {
    node.node in m.nodes && m.nodes[node.node].incarnation == node && m.nodes[node.node].alive
  }

  // A registered owner that is dead, or whose Node is not its live incarnation.
  predicate OwnerLost(m: Membership, owner: WorkerID) {
    owner in m.workers && (!m.workers[owner].alive || !LiveNode(m, m.workers[owner].home))
  }

  // The publishing Node or the executing Worker is not the live one.
  predicate PublisherLost(m: Membership, p: Publication)
    requires p.TaskPublication?
  {
    || !LiveNode(m, p.node)
    || p.executor !in m.workers || !m.workers[p.executor].alive || m.workers[p.executor].home != p.node
  }

  // The registry holds exactly this death, and it was not an expected exit.
  predicate CommittedDeath(m: Membership, d: Death) {
    && d.worker in m.workers && !m.workers[d.worker].alive && m.workers[d.worker].home == d.home
    && m.workers[d.worker].death == Some(d) && d.reason != ExpectedExit
  }

  // ------------------------------------------------------------------------
  // The guard

  // The manifest a request speaks of, as far as it is known.
  function Subject(c: Control, r: Request): Option<Publication> {
    if r.BeginPublication? || r.FencePublication? then Some(r.publication)
    else if r.Ref().key in c.gcs.records then Some(c.gcs.records[r.Ref().key].publication)
    else None
  }

  // The stage has no receipt yet.
  ghost predicate First(c: Control, r: Request)
    requires !r.GetPublication?
  {
    r.Ref().key in c.gcs.records ==> !Received(c.gcs.records[r.Ref().key], Stamp(r))
  }

  // Some participant the request needs is not there.
  ghost predicate Unserved(c: Control, m: Membership, r: Request) {
    match r
    case CommitGraph(_, put) =>
      First(c, r) &&
      ((Subject(c, r).Some? && OwnerLost(m, Subject(c, r).value.owner)) ||
       (put.Some? && put.value.PutPrepared? && put.value.putNode.Some? && !LiveNode(m, put.value.putNode.value)))
    case FencePublication(_, fence) => fence.OwnerDeath? && !CommittedDeath(m, fence.death)
    case RetireGraph(closed) => exists d :: d in closed.deaths && !CommittedDeath(m, d)
    case RecordTerminal(_) => false
    case RecordAdoption(_) => false
    case GetPublication(_) => false
    case _ =>
      First(c, r) && Subject(c, r).Some? &&
      (OwnerLost(m, Subject(c, r).value.owner) ||
       (Subject(c, r).value.TaskPublication? && PublisherLost(m, Subject(c, r).value)))
  }

  // The key is registered under another digest.
  ghost predicate Rebound(c: Control, r: Request) {
    r.Ref().key in c.gcs.records && c.gcs.records[r.Ref().key].publication.Ref() != r.Ref()
  }

  // Admission is closed to a publication that has not begun.
  ghost predicate ShutOut(c: Control, r: Request) { r.BeginPublication? && c.admissionClosed && First(c, r) }

  // The owner's death arrives after another fence: it only queues the cleanup.
  ghost predicate FencedBefore(c: Control, r: Request) {
    && r.FencePublication? && r.fence.OwnerDeath? && r.Ref().key in c.gcs.records
    && var u := c.gcs.records[r.Ref().key];
    u.publication == r.publication && u.fence.Some? && u.fence.value != r.fence
  }

  lemma FirstIs(c: Control, r: Request, stage: Stage)
    requires !r.GetPublication? && stage == Stamp(r)
    ensures First(c, r) <==> (Lookup(c.gcs, r.Ref().key).None? || !Lookup(c.gcs, r.Ref().key).value.Has(stage))
  {
    if r.Ref().key in c.gcs.records { ReceivedIsHas(c.gcs.records[r.Ref().key]); }
    hide Received;
  }

  // The specification's guard says the same of every request.
  lemma AvailableIff(c: Control, m: Membership, r: Request)
    requires r.Valid()
    ensures Available(m, r, Lookup(c.gcs, r.Ref().key)) <==> !Unserved(c, m, r)
  {
    hide Received, First;
    if !r.GetPublication? { FirstIs(c, r, Stamp(r)); }
  }

  lemma QueryIs(c: Control, r: Request)
    ensures Apply(c.gcs, GetPublication(r.Ref())).0 == c.gcs
    ensures Apply(c.gcs, GetPublication(r.Ref())).1 ==
              if Rebound(c, r) then Reply(false, None, None, Some(Conflict))
              else Reply(true, Lookup(c.gcs, r.Ref().key), None, None)
  {
  }

  lemma ShutOutIs(c: Control, r: Request)
    ensures ShutOut(c, r) <==>
      && r.BeginPublication? && c.admissionClosed
      && (Lookup(c.gcs, r.Ref().key).None? || !Lookup(c.gcs, r.Ref().key).value.Has(Intent))
  {
    if r.BeginPublication? { FirstIs(c, r, Intent); }
    hide First;
  }

  /** Main result: the guarded reply and state of every well-formed request, said
      of receipts and membership: conflicting and shut-out requests and those
      whose participants are not there change nothing; any other is the
      reducer's, followed by the fences of an owner known to be dead. */
  lemma HandleIs(c: Control, m: Membership, r: Request)
    requires r.Valid()
    ensures var (c', reply) := Handle(c, m, r);
      if Rebound(c, r) then c' == c && reply == Reply(false, None, None, Some(Conflict))
      else if ShutOut(c, r) then c' == c && reply == Reply(false, None, None, Some(InvalidState))
      else if Unserved(c, m, r) then c' == c && reply == Reply(false, None, None, Some(Unavailable))
      else if FencedBefore(c, r) then
        && c' == CommitDeath(c, r.fence.death)
        && var u := c.gcs.records[r.Ref().key]; reply == Reply(true, Some(u), u.At(Fenced), None)
      else
        && reply == Apply(c.gcs, r).1
        && var applied := c.(gcs := Apply(c.gcs, r).0);
        && (forall d :: Owing(m, r, reply, d) ==> c' == CommitDeath(applied, d))
        && ((forall d :: !Owing(m, r, reply, d)) ==> c' == applied)
  {
    hide Apply, Available, ShutOut, Unserved, CommitDeath;
    QueryIs(c, r);
    AvailableIff(c, m, r);
    ShutOutIs(c, r);
    var reply := Handle(c, m, r).1;
    if reply.snapshot.Some? && OwnerDeathOf(m, reply.snapshot.value.publication.owner).Some? {
      assert reply.accepted && !r.GetPublication? ==>
        Owing(m, r, reply, OwnerDeathOf(m, reply.snapshot.value.publication.owner).value);
    }
  }

  // An accepted mutation on a publication whose owner's death is committed.
  ghost predicate Owing(m: Membership, r: Request, reply: Reply, d: Death) {
    && reply.accepted && reply.snapshot.Some? && !r.GetPublication?
    && var owner := reply.snapshot.value.publication.owner;
    owner in m.workers && !m.workers[owner].alive && m.workers[owner].death == Some(d) && d.reason != ExpectedExit
  }

  // ------------------------------------------------------------------------
  // Nobody dead goes forward

  predicate Publishing(stage: Stage) { stage in {Intent, PreparedGraph, Armed} }

  // The executing Worker or its Node is registered, and not as the live one.
  predicate PublisherDead(m: Membership, p: Publication)
    requires p.TaskPublication?
  {
    || (p.node.node in m.nodes && !LiveNode(m, p.node))
    || (p.executor in m.workers && (!m.workers[p.executor].alive || m.workers[p.executor].home != p.node))
  }

  // Tasks of dead publishers gained no INTENT, PREPARED or ARMED receipt.
  ghost predicate Silenced(g: State, g': State, m: Membership) {
    forall k, st | k in g'.records && Publishing(st) && g'.records[k].Has(st) ::
      (g'.records[k].publication.TaskPublication? && PublisherDead(m, g'.records[k].publication)) ==>
        k in g.records && g.records[k].Has(st)
  }

  lemma DeadPublisherIsRefused(c: Control, m: Membership, r: Request)
    requires !r.GetPublication? && Publishing(Stamp(r)) && First(c, r) && !Unserved(c, m, r)
    requires Subject(c, r).Some? && Subject(c, r).value.TaskPublication?
    ensures !PublisherDead(m, Subject(c, r).value)
  {
    hide First;
  }

  lemma AppliedSilences(c: Control, m: Membership, r: Request)
    requires Inv(c.gcs) && r.Valid() && !Unserved(c, m, r)
    ensures Silenced(c.gcs, Apply(c.gcs, r).0, m)
  {
    hide Inv, Apply, Unserved, PublisherDead, Acceptable, Received;
    if r.GetPublication? || !Acceptable(c.gcs, r) {
      OtherEffects(c.gcs, r);
    } else {
      AcceptedEffect(c.gcs, r);
      if r.BeginPublication? && r.Ref().key in c.gcs.records { BegunManifest(c.gcs, r); }
      if !Done(c.gcs, r) { FiledSilences(c, m, r, Apply(c.gcs, r).0, Apply(c.gcs, r).1); }
    }
  }

  lemma BegunManifest(g: State, r: Request)
    requires Acceptable(g, r) && r.BeginPublication? && r.Ref().key in g.records
    ensures g.records[r.Ref().key].publication == r.publication
  {
  }

  lemma FiledSilences(c: Control, m: Membership, r: Request, t: State, reply: Reply)
    requires !r.GetPublication? && Files(c.gcs, r, t, reply) && !Done(c.gcs, r) && !Unserved(c, m, r)
    requires r.BeginPublication? && r.Ref().key in c.gcs.records ==>
      c.gcs.records[r.Ref().key].publication == r.publication
    ensures Silenced(c.gcs, t, m)
  {
    hide Unserved, PublisherDead, Received, Grows;
    var key, u := r.Ref().key, Former(c.gcs, r);
    FormerGrows(u, t.records[key], r, t.sequence);
    forall k, st | k in t.records && Publishing(st) && t.records[k].Has(st)
      && t.records[k].publication.TaskPublication? && PublisherDead(m, t.records[k].publication)
      ensures k in c.gcs.records && c.gcs.records[k].Has(st)
    {
      if k == key {
        ReceivedIsHas(u);
        if st == Stamp(r) {
          assert t.records[k].publication == Subject(c, r).value;
          DeadPublisherIsRefused(c, m, r);
        } else {
          assert Received(u, st) && (k !in c.gcs.records ==> u.receipts == []);
          NoReceipts(u, st);
        }
      } else {
        assert t.records[k] == c.gcs.records[k];
      }
    }
  }

  lemma NoReceipts(u: Snapshot, st: Stage)
    requires Received(u, st)
    ensures u.receipts != []
  {
  }

  // Only the request's own stage is new.
  lemma FormerGrows(u: Snapshot, v: Snapshot, r: Request, n: nat)
    requires !r.GetPublication? && Grows(u, v, r, n)
    ensures v.publication == u.publication && forall st :: v.Has(st) ==> Received(u, st) || st == Stamp(r)
  {
    GrowsReceived(u, v, r, n);
    ReceivedIsHas(v);
  }

  lemma SilencedThenCalm(g: State, g': State, g'': State, m: Membership)
    requires Silenced(g, g', m) && Calm(g', g'')
    ensures Silenced(g, g'', m)
  {
    hide PublisherDead;
    forall k, st | k in g''.records && Publishing(st) && g''.records[k].Has(st)
      && g''.records[k].publication.TaskPublication? && PublisherDead(m, g''.records[k].publication)
      ensures k in g.records && g.records[k].Has(st)
    {
      assert ForwardStage(st) && k in g'.records && g'.records[k].Has(st);
      assert Continues(g'.records[k], g''.records[k], g'.sequence);
    }
  }

  lemma SilencedItself(g: State, m: Membership)
    ensures Silenced(g, g, m)
  {
  }

  lemma HandleSilences(c: Control, m: Membership, r: Request)
    requires ControlInv(c, m) && r.Valid()
    ensures Silenced(c.gcs, Handle(c, m, r).0.gcs, m)
  {
    hide Apply, Silenced, CommitDeath, Handle, Available;
    var d := HandleShape(c, m, r);
    SilencedItself(c.gcs, m);
    AvailableIff(c, m, r);
    if Handle(c, m, r).0 != c {
      var applied := c.(gcs := Apply(c.gcs, r).0);
      AppliedSilences(c, m, r);
      if d.Some? {
        CommitIsCalm(c, m, d.value);
        SilencedThenCalm(c.gcs, c.gcs, CommitDeath(c, d.value).gcs, m);
        StepContinues(c.gcs, r);
        AppliedWork(c, m, r);
        CommitIsCalm(applied, m, d.value);
        SilencedThenCalm(c.gcs, applied.gcs, CommitDeath(applied, d.value).gcs, m);
      }
    }
  }

  lemma NextSilences(c: Control, m: Membership, e: Event)
    requires ControlInv(c, m) && Enabled(c, m, e)
    ensures Silenced(c.gcs, Next(c, m, e).0.gcs, m)
  {
    hide Silenced, ControlInv, Handle, Drive, CommitDeaths, Committing, Calm, Honest;
    SilencedItself(c.gcs, m);
    match e
    case Asks(r) => HandleSilences(c, m, r);
    case Drives(ref, weather) =>
      DriveKeepsInv(c, m, ref, weather);
      SilencedThenCalm(c.gcs, c.gcs, Drive(c, m, ref, weather).0.gcs, m);
    case ClosesAdmission =>
    case Moves(m', deaths) =>
      MovesKeepsInv(c, m, m', deaths);
      SilencedThenCalm(c.gcs, c.gcs, CommitDeaths(c, deaths).gcs, m);
  }

  // Registries keep every incarnation for good, and no one dead comes back.
  ghost predicate Permanent(m: Membership, m': Membership) {
    && (forall n :: n in m.nodes ==>
          && n in m'.nodes && m'.nodes[n].incarnation == m.nodes[n].incarnation
          && (m'.nodes[n].alive ==> m.nodes[n].alive))
    && forall w :: w in m.workers ==>
         w in m'.workers && m'.workers[w].home == m.workers[w].home && (m'.workers[w].alive ==> m.workers[w].alive)
  }

  // Every membership change of the run is one the registries make.
  ghost predicate Registered(m: Membership, events: seq<Event>)
    decreases |events|
  {
    events == [] ||
    (if events[0].Moves? then Permanent(m, events[0].members) && Registered(events[0].members, events[1..])
     else Registered(m, events[1..]))
  }

  lemma DeadForGood(m: Membership, m': Membership, p: Publication)
    requires Permanent(m, m') && p.TaskPublication? && PublisherDead(m, p)
    ensures PublisherDead(m', p)
  {
  }

  lemma SilencedTwice(g: State, g': State, g'': State, m: Membership, m': Membership)
    requires Silenced(g, g', m) && Silenced(g', g'', m') && Later(g', g'') && (m' == m || Permanent(m, m'))
    ensures Silenced(g, g'', m)
  {
    hide PublisherDead, Permanent;
    forall k, st | k in g''.records && Publishing(st) && g''.records[k].Has(st)
      && g''.records[k].publication.TaskPublication? && PublisherDead(m, g''.records[k].publication)
      ensures k in g.records && g.records[k].Has(st)
    {
      if m' != m { DeadForGood(m, m', g''.records[k].publication); }
      assert k in g'.records && g'.records[k].Has(st);
      assert Continues(g'.records[k], g''.records[k], g'.sequence);
    }
  }

  /** Main result: over every run, no Task whose executing Worker or Node is
      already dead, or another incarnation, gains an INTENT, PREPARED or ARMED
      receipt. */
  lemma {:induction false} DeadPublishersStaySilent(c: Control, m: Membership, events: seq<Event>,
                                                    c': Control, m': Membership)
    requires ControlInv(c, m) && Reaches(c, m, events, c', m') && Registered(m, events)
    ensures Silenced(c.gcs, c'.gcs, m)
    decreases |events|
  {
    hide Silenced, ControlInv, Enabled, Next, Permanent;
    if events == [] {
      SilencedItself(c.gcs, m);
    } else {
      var (d, n) := Next(c, m, events[0]);
      NextKeepsInv(c, m, events[0]);
      NextSilences(c, m, events[0]);
      NextMembers(c, m, events[0]);
      DeadPublishersStaySilent(d, n, events[1..], c', m');
      ReachesContinues(d, n, events[1..], c', m');
      SilencedTwice(c.gcs, d.gcs, c'.gcs, m, n);
    }
  }

  lemma NextMembers(c: Control, m: Membership, e: Event)
    requires Enabled(c, m, e)
    ensures Next(c, m, e).1 == if e.Moves? then e.members else m
  {
    hide Handle, Drive, CommitDeaths;
  }
}
