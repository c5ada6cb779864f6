/** The GCS publication reducer: one request, one atomic transition. `Apply` is
    the transition as a function of the authority's state; the class below holds
    that state and computes the same transition in place. */
module PublicationAuthority {
  import opened Ids
  import opened ReferenceGraph
  import opened PublicationFacts

  datatype Request =
    | BeginPublication(publication: Publication)
    | PrepareGraph(reference: PublicationRef)
    | ArmTask(prepared: Prepared)
    | RecordTerminal(complete: Complete)
    | CommitGraph(reference: PublicationRef, putPrepared: Option<Prepared>)
    | RecordAdoption(proof: Adoption)
    | FencePublication(publication: Publication, fence: Fence)
    | RetireGraph(closed: ClosedHolds)
    | GetPublication(reference: PublicationRef)
  {
    function Ref(): PublicationRef {
      match this
      case BeginPublication(publication) => publication.Ref()
      case PrepareGraph(reference) => reference
      case ArmTask(prepared) => prepared.reference
      case RecordTerminal(complete) => complete.reference
      case CommitGraph(reference, _) => reference
      case RecordAdoption(proof) => proof.complete.reference
      case FencePublication(publication, _) => publication.Ref()
      case RetireGraph(closed) => closed.reference
      case GetPublication(reference) => reference
    }

    // The stage a mutation records.
    function StageOf(): Stage
      requires !GetPublication?
    {
      match this
      case BeginPublication(_) => Intent
      case PrepareGraph(_) => PreparedGraph
      case ArmTask(_) => Armed
      case RecordTerminal(_) => Terminal
      case CommitGraph(_, _) => Committed
      case RecordAdoption(_) => Adopted
      case FencePublication(_, _) => Fenced
      case RetireGraph(_) => Retired
    }

    // What the request constructors enforce on every caller.
    predicate Valid() {
      match this
      case BeginPublication(publication) => publication.Valid()
      case ArmTask(prepared) => prepared.TaskPrepared? && prepared.Valid()
      case RecordTerminal(complete) => complete.reference.key.TaskKey?
      case CommitGraph(reference, put) =>
        put.Some? ==> put.value.PutPrepared? && put.value.Valid() && put.value.reference == reference
      case RecordAdoption(proof) => proof.complete.reference.key.TaskKey?
      case FencePublication(publication, fence) => publication.Valid() && FenceMatches(publication, fence)
      case RetireGraph(closed) => closed.Valid()
      case _ => true
    }
  }

  datatype Reply = Reply(accepted: bool, snapshot: Option<Snapshot>, receipt: Option<Receipt>, error: Verdict)

  // `order` lists the keys of `records` by first registration.
  datatype State = State(records: map<PublicationKey, Snapshot>, order: seq<PublicationKey>, sequence: nat)

  const EMPTY := State(map[], [], 0)

  function Lookup(s: State, key: PublicationKey): Option<Snapshot> {
    if key in s.records then Some(s.records[key]) else None
  }

  // ------------------------------------------------------------------------
  // The contained-reference graph

  function EdgesFrom(publication: Publication): Edges {
    set t | t in publication.transfers :: (publication.Object(), t.child)
  }

  function ActiveEdges(s: State): Edges {
    set k, t | k in s.records && s.records[k].GraphActive() && t in s.records[k].publication.transfers
      :: (s.records[k].publication.Object(), t.child)
  }

  // ------------------------------------------------------------------------
  // Admission of a publication the authority has not seen

  function PairError(other: Snapshot, publication: Publication, admitting: bool): Verdict {
    var prior := other.publication;
    if prior.job != publication.job then Some(Conflict)
    else if prior.owner == publication.owner && prior.ownerAddress != publication.ownerAddress then Some(Conflict)
    else if prior.Object() != publication.Object() then None
    else if prior.owner != publication.owner then Some(Conflict)
    else if !admitting || !other.Has(Intent) then None
    else if !other.Has(Retired) then Some(InvalidState)
    else if publication.AttemptNumber() <= prior.AttemptNumber() then Some(InvalidState)
    else None
  }

  function FirstPairError(records: map<PublicationKey, Snapshot>, order: seq<PublicationKey>,
                          publication: Publication, admitting: bool): Verdict
  {
    if order == [] then None
    else
      var first := if order[0] in records then PairError(records[order[0]], publication, admitting) else None;
      if first.Some? then first else FirstPairError(records, order[1..], publication, admitting)
  }

  function NamesIn(publication: Publication): set<(ObjectID, WorkerID)> {
    {(publication.Object(), publication.owner)} + set t | t in publication.transfers :: (t.child, t.childOwner)
  }

  function AllNames(records: map<PublicationKey, Snapshot>): set<(ObjectID, WorkerID)> {
    set k, n | k in records && n in NamesIn(records[k].publication) :: n
  }

  predicate OneOwnerEach(names: set<(ObjectID, WorkerID)>) {
    forall a, b :: a in names && b in names && a.0 == b.0 ==> a.1 == b.1
  }

  function CheckBinding(s: State, publication: Publication, admitting: bool): Verdict {
    var first := FirstPairError(s.records, s.order, publication, admitting);
    if first.Some? then first
    else if !OneOwnerEach(AllNames(s.records) + NamesIn(publication)) then Some(Conflict)
    else None
  }

  // ------------------------------------------------------------------------
  // The guard of each mutation

  function RequireForward(base: Snapshot): Verdict {
    if base.ForwardOpen() then None else Some(InvalidState)
  }

  function RequireStage(base: Snapshot, stage: Stage): Verdict {
    if base.Has(stage) then None else Some(InvalidState)
  }

  // Run two checks in order.
  function Then(first: Verdict, second: Verdict): Verdict {
    if first.Some? then first else second
  }

  function Refuse(condition: bool, kind: ErrorKind): Verdict {
    if condition then Some(kind) else None
  }

  ghost function Guard(s: State, base: Snapshot, r: Request): Verdict
    requires !r.GetPublication?
  {
    if r.PrepareGraph? then
      Then(Then(RequireForward(base), RequireStage(base, Intent)),
           Refuse(!base.Has(PreparedGraph) && !Acyclic(ActiveEdges(s) + EdgesFrom(base.publication)), CycleError))
    else LocalGuard(base, r)
  }

  // Every other guard looks at the record alone.
  function LocalGuard(base: Snapshot, r: Request): Verdict
    requires !r.GetPublication? && !r.PrepareGraph?
  {
    match r
    case BeginPublication(_) => RequireForward(base)
    case ArmTask(prepared) =>
      Then(Then(CheckPrepared(base.publication, prepared),
                Refuse(base.prepared.Some? && base.prepared.value != prepared, Conflict)),
           Then(RequireForward(base), RequireStage(base, PreparedGraph)))
    case RecordTerminal(complete) =>
      Then(Then(Refuse(!base.publication.TaskPublication?, InvalidState), RequireStage(base, Armed)),
           Then(Refuse(base.complete.Some? && base.complete.value != complete, Conflict),
                Refuse(base.closed.Some? && base.closed.value.scope.Some?, Conflict)))
    case CommitGraph(_, put) =>
      Then(Then(if base.publication.PutPublication? then
                  if put.None? then Some(InvalidState)
                  else Then(CheckPrepared(base.publication, put.value),
                            Refuse(base.prepared.Some? && base.prepared.value != put.value, Conflict))
                else if put.Some? then Some(Conflict)
                else RequireStage(base, Terminal),
                RequireStage(base, PreparedGraph)),
           if base.Has(Committed) then None else RequireForward(base))
    case RecordAdoption(proof) =>
      Then(Then(RequireStage(base, Committed),
                Refuse(base.complete != Some(proof.complete) || proof.owner != base.publication.owner, Conflict)),
           Then(Refuse(base.adoption.Some? && base.adoption.value != proof, Conflict),
                Refuse(!base.Has(Adopted) && base.fence.Some? && base.fence.value.OwnerAbort?, InvalidState)))
    case FencePublication(_, fence) =>
      Then(Refuse(base.fence.Some? && base.fence.value != fence, Conflict),
           Refuse(fence.OwnerAbort? && base.adoption.Some?, InvalidState))
    case RetireGraph(closed) =>
      Then(Then(Refuse(base.fence.None?, InvalidState), CheckClosed(base, closed)),
           Refuse(base.closed.Some? && base.closed.value != closed, Conflict))
  }

  // The fact a mutation attaches to its snapshot, besides the receipt.
  function WithFact(base: Snapshot, r: Request): Snapshot {
    match r
    case ArmTask(prepared) => base.(prepared := Some(prepared))
    case RecordTerminal(complete) => base.(complete := Some(complete))
    case CommitGraph(_, put) => if base.publication.PutPublication? then base.(prepared := put) else base
    case RecordAdoption(proof) => base.(adoption := Some(proof))
    case FencePublication(_, fence) => base.(fence := Some(fence))
    case RetireGraph(closed) => base.(closed := Some(closed))
    case _ => base
  }

  // The snapshot a mutation starts from: only a begin or a fence may register one.
  function Base(s: State, r: Request, previous: Option<Snapshot>): (Option<Snapshot>, Verdict)
    requires !r.GetPublication?
  {
    if r.BeginPublication? || r.FencePublication? then
      if previous.Some? then
        if previous.value.publication != r.publication then (None, Some(Conflict)) else (previous, None)
      else
        var bound := CheckBinding(s, r.publication, r.BeginPublication?);
        if bound.Some? then (None, bound) else (Some(Unregistered(r.publication)), None)
    else if previous.None? then (None, Some(InvalidState))
    else (previous, None)
  }

  function Recorded(s: State, base: Snapshot, r: Request): Snapshot
    requires !r.GetPublication?
  {
    WithFact(base, r).(receipts := base.receipts + [Receipt(r.Ref(), r.StageOf(), s.sequence + 1)])
  }

  function Commit(s: State, key: PublicationKey, updated: Snapshot): State {
    State(s.records[key := updated], if key in s.records then s.order else s.order + [key], s.sequence + 1)
  }

  ghost function Apply(s: State, r: Request): (State, Reply) {
    var key, previous := r.Ref().key, Lookup(s, r.Ref().key);
    if previous.Some? && previous.value.Ref() != r.Ref() then (s, Reply(false, None, None, Some(Conflict)))
    else if r.GetPublication? then (s, Reply(true, previous, None, None))
    else
      var (base, refused) := Base(s, r, previous);
      if base.None? then (s, Reply(false, previous, None, refused))
      else
        var verdict := Guard(s, base.value, r);
        if verdict.Some? then (s, Reply(false, previous, None, verdict))
        else if base.value.Has(r.StageOf()) then (s, Reply(true, base, base.value.At(r.StageOf()), None))
        else
          var updated := Recorded(s, base.value, r);
          (Commit(s, key, updated), Reply(true, Some(updated), updated.At(r.StageOf()), None))
  }

  ghost function Run(s: State, requests: seq<Request>): State
    decreases requests
  {
    if requests == [] then s else Run(Apply(s, requests[0]).0, requests[1..])
  }

  // ------------------------------------------------------------------------
  // The authority object

  lemma {:induction false} FirstPairErrorAt(records: map<PublicationKey, Snapshot>, order: seq<PublicationKey>, n: nat,
                                            publication: Publication, admitting: bool)
    requires n < |order| && order[n] in records
    requires forall i :: 0 <= i < n && order[i] in records ==>
      PairError(records[order[i]], publication, admitting).None?
    requires PairError(records[order[n]], publication, admitting).Some?
    ensures FirstPairError(records, order, publication, admitting)
         == PairError(records[order[n]], publication, admitting)
  {
    if n == 0 {
    } else {
      assert order[0] in order;
      FirstPairErrorAt(records, order[1..], n - 1, publication, admitting);
    }
  }

  lemma {:induction false} FirstPairErrorNone(records: map<PublicationKey, Snapshot>, order: seq<PublicationKey>,
                                              publication: Publication, admitting: bool)
    requires forall i :: 0 <= i < |order| && order[i] in records ==>
               PairError(records[order[i]], publication, admitting).None?
    ensures FirstPairError(records, order, publication, admitting).None?
  {
    if order == [] {
    } else {
      FirstPairErrorNone(records, order[1..], publication, admitting);
    }
  }

  // The (name, owner) pairs of a publication in the order the manifest lists them.
  function NameList(publication: Publication): seq<(ObjectID, WorkerID)> {
    [(publication.Object(), publication.owner)]
      + seq(|publication.transfers|, i requires 0 <= i < |publication.transfers| =>
              (publication.transfers[i].child, publication.transfers[i].childOwner))
  }

  lemma NameListIsNamesIn(publication: Publication)
    ensures (set n | n in NameList(publication)) == NamesIn(publication)
  {
    var names := NameList(publication);
    forall n | n in NamesIn(publication) ensures n in names {
      if n == (publication.Object(), publication.owner) {
        assert n == names[0];
      } else {
        var i :| 0 <= i < |publication.transfers|
          && n == (publication.transfers[i].child, publication.transfers[i].childOwner);
        assert n == names[i + 1];
      }
    }
  }

  // `owners` is the functional graph of the pairs met so far.
  ghost predicate Tabulates(owners: map<ObjectID, WorkerID>, names: set<(ObjectID, WorkerID)>) {
    && (forall n :: n in names ==> n.0 in owners && owners[n.0] == n.1)
    && forall x :: x in owners ==> (x, owners[x]) in names
  }

  // setdefault over one publication's pairs.
  method Tabulate(owners: map<ObjectID, WorkerID>, publication: Publication, ghost met: set<(ObjectID, WorkerID)>)
    returns (owners': map<ObjectID, WorkerID>, conflict: bool)
    requires Tabulates(owners, met)
    ensures conflict <==> !OneOwnerEach(met + NamesIn(publication))
    ensures !conflict ==> Tabulates(owners', met + NamesIn(publication))
  {
    var names := NameList(publication);
    NameListIsNamesIn(publication);
    owners', conflict := owners, false;
    ghost var all := met + NamesIn(publication);
    ghost var seen := met;
    var i := 0;
    while i < |names|
      invariant 0 <= i <= |names|
      invariant met <= seen <= all && forall j :: 0 <= j < i ==> names[j] in seen
      invariant Tabulates(owners', seen)
    {
      var (name, owner) := names[i];
      assert names[i] in all;
      if name in owners' && owners'[name] != owner {
        assert (name, owners'[name]) in all;
        conflict := true;
        return;
      }
      owners' := owners'[name := owner];
      seen := seen + {names[i]};
      i := i + 1;
    }
    assert seen == all;
  }

  class Authority {
    var records: map<PublicationKey, Snapshot>
    var order: seq<PublicationKey>
    var sequence: nat

    function View(): State
      reads this
    {
      State(records, order, sequence)
    }

    // The record map lists its keys in insertion order.
    ghost predicate Valid()
      reads this
    {
      (forall k :: k in order <==> k in records) && forall i, j :: 0 <= i < j < |order| ==> order[i] != order[j]
    }

    constructor ()
      ensures Valid() && View() == EMPTY
    {
      records, order, sequence := map[], [], 0;
    }

    method PairErrors(publication: Publication, admitting: bool) returns (v: Verdict)
      requires Valid()
      ensures v == FirstPairError(records, order, publication, admitting)
    {
      var i := 0;
      while i < |order|
        invariant 0 <= i <= |order|
        invariant forall j :: 0 <= j < i ==> PairError(records[order[j]], publication, admitting).None?
      {
        v := PairError(records[order[i]], publication, admitting);
        if v.Some? {
          FirstPairErrorAt(records, order, i, publication, admitting);
          return;
        }
        i := i + 1;
      }
      FirstPairErrorNone(records, order, publication, admitting);
      v := None;
    }

    ghost function NamesBefore(n: nat): set<(ObjectID, WorkerID)>
      requires Valid() && n <= |order|
      reads this
    {
      set i, m | 0 <= i < n && m in NamesIn(records[order[i]].publication) :: m
    }

    lemma NamesBeforeAll()
      requires Valid()
      ensures NamesBefore(|order|) == AllNames(records)
    {
      forall m | m in AllNames(records) ensures m in NamesBefore(|order|) {
        var k :| k in records && m in NamesIn(records[k].publication);
        var i :| 0 <= i < |order| && order[i] == k;
      }
    }

    lemma NamesBeforeNext(n: nat)
      requires Valid() && n < |order|
      ensures NamesBefore(n + 1) == NamesBefore(n) + NamesIn(records[order[n]].publication)
      ensures NamesBefore(n + 1) <= AllNames(records)
    {
    }

    /** One job, one address per owner, one owner per name, one epoch at a time. */
    method ValidateBinding(publication: Publication, admitting: bool) returns (v: Verdict)
      requires Valid()
      ensures v == CheckBinding(View(), publication, admitting)
    {
      v := PairErrors(publication, admitting);
      if v.Some? { return; }
      var owners: map<ObjectID, WorkerID>, conflict := map[], false;
      var i := 0;
      assert NamesBefore(0) == {};
      while i < |order|
        invariant 0 <= i <= |order|
        invariant Tabulates(owners, NamesBefore(i))
      {
        NamesBeforeNext(i);
        owners, conflict := Tabulate(owners, records[order[i]].publication, NamesBefore(i));
        if conflict { return Some(Conflict); }
        i := i + 1;
      }
      NamesBeforeAll();
      owners, conflict := Tabulate(owners, publication, AllNames(records));
      v := if conflict then Some(Conflict) else None;
    }

    // The edges of the first n records that are graph-active.
    ghost function EdgesBefore(n: nat): Edges
      requires Valid() && n <= |order|
      reads this
    {
      set i, t | 0 <= i < n && records[order[i]].GraphActive() && t in records[order[i]].publication.transfers
        :: (records[order[i]].publication.Object(), t.child)
    }

    lemma EdgesBeforeAll()
      requires Valid()
      ensures EdgesBefore(|order|) == ActiveEdges(View())
    {
      forall e | e in ActiveEdges(View()) ensures e in EdgesBefore(|order|) {
        var k, t :| k in records && records[k].GraphActive() && t in records[k].publication.transfers
          && e == (records[k].publication.Object(), t.child);
        var i :| 0 <= i < |order| && order[i] == k;
      }
    }

    lemma EdgesBeforeNext(n: nat)
      requires Valid() && n < |order|
      ensures EdgesBefore(n + 1)
           == EdgesBefore(n) + if records[order[n]].GraphActive() then EdgesFrom(records[order[n]].publication) else {}
    {
    }

    /** Would reserving this publication's edges close a cycle? */
    method WouldCycle(publication: Publication) returns (cyclic: bool)
      requires Valid()
      ensures cyclic <==> !Acyclic(ActiveEdges(View()) + EdgesFrom(publication))
    {
      var adjacency: Adjacency := map[];
      var i := 0;
      while i < |order|
        invariant 0 <= i <= |order|
        invariant EdgesOf(adjacency) == EdgesBefore(i)
      {
        EdgesBeforeNext(i);
        var record := records[order[i]];
        if record.GraphActive() {
          adjacency := Reserve(adjacency, record.publication);
        }
        i := i + 1;
      }
      EdgesBeforeAll();
      adjacency := Reserve(adjacency, publication);
      cyclic := FindsCycle(adjacency);
    }

    // The guard of a mutation; only a fresh graph reservation runs the search.
    method CheckGuard(base: Snapshot, r: Request) returns (v: Verdict)
      requires Valid() && !r.GetPublication?
      ensures v == Guard(View(), base, r)
    {
      if !r.PrepareGraph? { return LocalGuard(base, r); }
      v := Then(RequireForward(base), RequireStage(base, Intent));
      if v.None? && !base.Has(PreparedGraph) {
        var cyclic := WouldCycle(base.publication);
        v := Refuse(cyclic, CycleError);
      }
    }

    // The snapshot a mutation starts from, or why there is none.
    method FindBase(r: Request) returns (base: Option<Snapshot>, refused: Verdict)
      requires Valid() && !r.GetPublication?
      ensures (base, refused) == Base(View(), r, Lookup(View(), r.Ref().key))
    {
      var previous := Lookup(View(), r.Ref().key);
      if r.BeginPublication? || r.FencePublication? {
        if previous.Some? {
          if previous.value.publication != r.publication { return None, Some(Conflict); }
          return previous, None;
        }
        refused := ValidateBinding(r.publication, r.BeginPublication?);
        base := if refused.Some? then None else Some(Unregistered(r.publication));
      } else {
        base := previous;
        refused := if previous.None? then Some(InvalidState) else None;
      }
    }

    /** One locked call: the reply and the new state are those of `Apply`. */
    method Handle(r: Request) returns (reply: Reply)
      requires Valid()
      modifies this
      ensures Valid()
      ensures View() == Apply(old(View()), r).0 && reply == Apply(old(View()), r).1
    {
      hide Base, Guard, LocalGuard, Recorded;
      var key := r.Ref().key;
      var previous := Lookup(View(), key);
      if previous.Some? && previous.value.Ref() != r.Ref() {
        return Reply(false, None, None, Some(Conflict));
      }
      if r.GetPublication? {
        return Reply(true, previous, None, None);
      }
      var base, refused := FindBase(r);
      if base.None? {
        return Reply(false, previous, None, refused);
      }
      var verdict := CheckGuard(base.value, r);
      if verdict.Some? {
        return Reply(false, previous, None, verdict);
      }
      if base.value.Has(r.StageOf()) {
        return Reply(true, base, base.value.At(r.StageOf()), None);
      }
      var updated := Recorded(View(), base.value, r);
      reply := Reply(true, Some(updated), updated.At(r.StageOf()), None);
      if key !in records { order := order + [key]; }
      records := records[key := updated];
      sequence := sequence + 1;
    }
  }

  // Merge one publication's children into the adjacency of its object.
  method Reserve(adjacency: Adjacency, publication: Publication) returns (adjacency': Adjacency)
    ensures EdgesOf(adjacency') == EdgesOf(adjacency) + EdgesFrom(publication)
  {
    var container := publication.Object();
    var children := set t | t in publication.transfers :: t.child;
    adjacency' := adjacency[container := Successors(adjacency, container) + children];
    forall e | e in EdgesFrom(publication) ensures e.0 == container && e.1 in children {
    }
    forall e ensures e in EdgesOf(adjacency') <==> e in EdgesOf(adjacency) + EdgesFrom(publication) {
      if e.0 == container && e.1 in children {
        var t :| t in publication.transfers && t.child == e.1;
        assert e == (publication.Object(), t.child);
      }
    }
  }

}
