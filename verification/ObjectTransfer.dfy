/** Node-local pull coordination over the local store: demand is coalesced per
    object, chunks are checked against what already arrived, and a replica is
    ready only once the store has sealed it. */
module ObjectTransfer {
  import opened Ids
  import opened ByteRanges
  import Local = LocalStore

  type Bytes = seq<Byte>

  datatype Phase = Waiting | Pulling | Ready | Failed

  datatype Pull = Pull(phase: Phase, source: Option<nat>, transfer: Option<nat>, waiters: set<nat>, size: Option<nat>,
                       checksum: Option<nat>, attempt: Option<nat>, buffer: Option<Bytes>, ranges: seq<Range>,
                       created: bool)

  datatype Manager = Manager(store: Local.Store, pulls: map<ObjectID, Pull>)

  datatype PullError = UnknownPull | WrongState | Conflicting | IncompletePull | BadChecksum | Stale | BadArgument
                     | StoreRefused(why: Local.StoreError)

  const NEW := Pull(Waiting, None, None, {}, None, None, None, None, [], false)

  predicate Sealed(m: Manager, id: ObjectID) { id in m.store.entries && m.store.entries[id].Sealed() }

  // ------------------------------------------------------------------------
  // Operations: the new state, and the error raised if any

  function Fail(m: Manager, id: ObjectID): Manager
    requires id in m.pulls
  {
    var p := m.pulls[id];
    var store := if p.created && id in m.store.entries && !Sealed(m, id) then Local.Remove(m.store, id) else m.store;
    Manager(store, m.pulls[id := p.(created := false, buffer := None, ranges := [], phase := Failed)])
  }

  predicate MetadataAgrees(p: Pull, size: Option<nat>, checksum: Option<nat>) {
    && (size.Some? && p.size.Some? ==> p.size == size)
    && (checksum.Some? && p.checksum.Some? ==> p.checksum == checksum)
  }

  // Reserve the target replica, once per transfer.
  function Configure(m: Manager, id: ObjectID, size: Option<nat>, checksum: Option<nat>): (Manager, Option<PullError>)
    requires id in m.pulls
  {
    var p := m.pulls[id];
    if size.None? || checksum.None? then (m, Some(BadArgument))
    else if !MetadataAgrees(p, size, checksum) then (m, Some(Conflicting))
    else if p.buffer.Some? then (m, None)
    else if id in m.store.entries then (m, Some(Conflicting))
    else
      var made := Local.Create(m.store, id, size.value);
      if made.Err? then (m, Some(StoreRefused(made.error)))
      else (Manager(made.value, m.pulls[id := p.(created := true, size := size, checksum := checksum,
                                                 buffer := Some(Local.Zeros(size.value)))]), None)
  }

  // A failure while configuring fails the whole pull.
  function ConfigureOrFail(m: Manager, id: ObjectID, size: Option<nat>,
                           checksum: Option<nat>): (Manager, Option<PullError>)
    requires id in m.pulls
  {
    var (m', error) := Configure(m, id, size, checksum);
    if error.Some? then (Fail(m, id), error) else (m', None)
  }

  function Or<T>(first: Option<T>, second: Option<T>): Option<T> { if first.Some? then first else second }

  datatype Demand = Demand(token: nat, size: Option<nat>, checksum: Option<nat>, attempt: Option<nat>,
                           chosen: Option<nat>, nextTransfer: nat)

  predicate ReplicaFits(bytes: Bytes, d: Demand, digest: Bytes -> nat) {
    (d.size.Some? ==> |bytes| == d.size.value) && (d.checksum.Some? ==> digest(bytes) == d.checksum.value)
  }

  predicate OtherAttempt(p: Pull, d: Demand) { p.attempt.Some? && d.attempt.Some? && p.attempt != d.attempt }

  /** Register demand: use the sealed replica, join or start a pull, or wait. */
  function RequestPull(m: Manager, id: ObjectID, d: Demand, digest: Bytes -> nat): (Manager, Option<PullError>) {
    if Sealed(m, id) then
      var unseen := NEW.(size := d.size, checksum := d.checksum, attempt := d.attempt);
      var p := if id in m.pulls then m.pulls[id] else unseen;
      if p.phase.Failed? then (m.(pulls := m.pulls[id := p.(waiters := p.waiters + {d.token})]), None)
      else if id in m.pulls && OtherAttempt(p, d) then (m, Some(Stale))
      else if id in m.pulls && !MetadataAgrees(p, d.size, d.checksum) then (m, Some(Conflicting))
      else if !ReplicaFits(m.store.entries[id].sealedData.value, d, digest) then (m, Some(Conflicting))
      else (m.(pulls := m.pulls[id := p.(phase := Ready, waiters := p.waiters + {d.token})]), None)
    else
      var p := if id in m.pulls then m.pulls[id] else NEW;
      if OtherAttempt(p, d) || !MetadataAgrees(p, d.size, d.checksum) then (m, Some(Conflicting))
      else
        var bound := p.(attempt := Or(p.attempt, d.attempt), size := Or(p.size, d.size),
                        checksum := Or(p.checksum, d.checksum), waiters := p.waiters + {d.token});
        if p.phase.Failed? || p.phase.Pulling? || d.chosen.None? then (m.(pulls := m.pulls[id := bound]), None)
        else
          var started := m.(pulls := m.pulls[id := bound.(phase := Pulling, source := d.chosen,
                                                          transfer := Some(d.nextTransfer))]);
          if bound.size.None? && bound.checksum.None? then (started, None)
          else ConfigureOrFail(started, id, bound.size, bound.checksum)
  }

  function RequirePulling(m: Manager, id: ObjectID, transfer: Option<nat>, source: Option<nat>): Option<PullError> {
    if id !in m.pulls then Some(UnknownPull)
    else if !m.pulls[id].phase.Pulling? then Some(WrongState)
    else if transfer.Some? && transfer != m.pulls[id].transfer then Some(Stale)
    else if source.Some? && source != m.pulls[id].source then Some(Stale)
    else None
  }

  function BeginTransfer(m: Manager, id: ObjectID, size: nat, checksum: nat, transfer: Option<nat>, source: Option<nat>)
    : (Manager, Option<PullError>)
  {
    var refused := RequirePulling(m, id, transfer, source);
    if refused.Some? then (m, refused) else ConfigureOrFail(m, id, Some(size), Some(checksum))
  }

  // Bytes that already arrived are the same in the new chunk.
  ghost predicate OverlapAgrees(p: Pull, offset: nat, payload: Bytes)
    requires p.buffer.Some? && offset + |payload| <= |p.buffer.value|
  {
    forall b: nat :: offset <= b < offset + |payload| && Covers(p.ranges, b) ==>
      p.buffer.value[b] == payload[b - offset]
  }

  ghost function ReceiveChunk(m: Manager, id: ObjectID, payload: Bytes, offset: int, transfer: Option<nat>,
                              source: Option<nat>)
    : (Manager, Option<PullError>)
  {
    var refused := RequirePulling(m, id, transfer, source);
    if offset < 0 then (m, Some(BadArgument))
    else if refused.Some? then (m, refused)
    else
      var p := m.pulls[id];
      if p.buffer.None? || p.size.None? then (m, Some(WrongState))
      else if offset + |payload| > p.size.value || offset + |payload| > |p.buffer.value| then (m, Some(BadArgument))
      else if !OverlapAgrees(p, offset, payload) then (m, Some(Conflicting))
      else
        var written := Local.Write(m.store, id, payload, offset);
        if written.Err? then (Fail(m, id), Some(StoreRefused(written.error)))
        else (Manager(written.value, m.pulls[id := p.(buffer := Some(Local.Overwrite(p.buffer.value, offset, payload)),
                                                      ranges := Add(p.ranges, offset, offset + |payload|))]), None)
  }

  /** Check, seal, publish; an owner that rejects the location quarantines the replica. */
  function FinishPull(m: Manager, id: ObjectID, transfer: Option<nat>, source: Option<nat>, digest: Bytes -> nat,
                      published: bool): (Manager, Option<PullError>)
  {
    var refused := RequirePulling(m, id, transfer, source);
    if refused.Some? then (m, refused)
    else
      var p := m.pulls[id];
      if p.buffer.None? || p.size.None? || p.checksum.None? then (m, Some(WrongState))
      else if Total(p.ranges) != p.size.value then (m, Some(IncompletePull))
      else if digest(p.buffer.value) != p.checksum.value then (Fail(m, id), Some(BadChecksum))
      else
        var sealed := Local.Seal(m.store, id);
        if sealed.Err? then (Fail(m, id), Some(StoreRefused(sealed.error)))
        else if !published then (Fail(m.(store := Local.Delete(sealed.value, id).0), id), Some(Stale))
        else (Manager(sealed.value, m.pulls[id := p.(phase := Ready)]), None)
  }

  function FailPull(m: Manager, id: ObjectID): (Manager, Option<PullError>) {
    if id !in m.pulls then (m, Some(UnknownPull))
    else if m.pulls[id].phase.Failed? || m.pulls[id].phase.Ready? then (m, None)
    else (Fail(m, id), None)
  }

  function ResetFailed(m: Manager, id: ObjectID): (Manager, Option<PullError>) {
    if id !in m.pulls || !m.pulls[id].phase.Failed? then (m, None)
    else if id in m.store.entries then (m, Some(WrongState))
    else (m.(pulls := m.pulls - {id}), None)
  }

  // The node deletes a sealed replica and then forgets the pull that produced it.
  function DropReplica(m: Manager, id: ObjectID): Manager {
    if !Sealed(m, id) then m
    else
      var (store, deleted) := Local.Delete(m.store, id);
      if deleted && id in m.pulls && !m.pulls[id].phase.Pulling? then Manager(store, m.pulls - {id})
      else m.(store := store)
  }

  // ------------------------------------------------------------------------
  // The manager and the store agree

  predicate Configured(p: Pull) { p.phase.Pulling? && p.buffer.Some? }

  // While a configured pull runs, its buffer and ranges are the store entry's.
  ghost predicate Agrees(m: Manager, id: ObjectID)
    requires id in m.pulls
  {
    var p := m.pulls[id];
    && (Configured(p) ==>
          && p.created && p.size.Some? && p.checksum.Some? && id in m.store.entries && !m.store.entries[id].Sealed()
          && m.store.entries[id].size == p.size.value && m.store.entries[id].buffer == p.buffer
          && m.store.entries[id].ranges == p.ranges)
    && (p.buffer.None? ==> p.ranges == [] && !p.created)
    && (p.phase.Waiting? || p.phase.Failed? ==> p.buffer.None?)
    && (p.phase.Ready? ==> Sealed(m, id) && (p.buffer.Some? ==> m.store.entries[id].sealedData == p.buffer))
  }

  ghost predicate ManagerInv(m: Manager) {
    Local.StoreInv(m.store) && forall id :: id in m.pulls ==> Agrees(m, id)
  }

  // A pull is filling this object's replica.
  predicate UnderPull(m: Manager, id: ObjectID) { id in m.pulls && Configured(m.pulls[id]) }

  // A direct store operation that cannot reach a replica some pull is filling.
  predicate Apart(m: Manager, id: ObjectID, e: Event) {
    e.Touches? ==> e.op.Pins? || e.op.Unpins? || e.op.Creates? || (!e.op.Deletes? && !UnderPull(m, id))
  }

  datatype Event =
    | Requests(demand: Demand)
    | Begins(size: nat, checksum: nat, transfer: Option<nat>, source: Option<nat>)
    | Receives(payload: Bytes, offset: int, transfer: Option<nat>, source: Option<nat>)
    | Finishes(transfer: Option<nat>, source: Option<nat>, published: bool)
    | Fails
    | Resets
    | Drops
    | Touches(op: Local.Op)

  ghost function Act(m: Manager, id: ObjectID, e: Event, digest: Bytes -> nat): Manager {
    match e
    case Requests(d) => RequestPull(m, id, d, digest).0
    case Begins(size, checksum, transfer, source) => BeginTransfer(m, id, size, checksum, transfer, source).0
    case Receives(payload, offset, transfer, source) => ReceiveChunk(m, id, payload, offset, transfer, source).0
    case Finishes(transfer, source, published) => FinishPull(m, id, transfer, source, digest, published).0
    case Fails => FailPull(m, id).0
    case Resets => ResetFailed(m, id).0
    case Drops => DropReplica(m, id)
    case Touches(op) => m.(store := Local.Perform(m.store, id, op))
  }

  // ------------------------------------------------------------------------
  // Every operation keeps them in agreement

  // An operation on one object leaves every other replica and pull alone.
  ghost predicate OnlyTouches(m: Manager, m': Manager, id: ObjectID) {
    && m'.pulls - {id} == m.pulls - {id}
    && m'.store.entries - {id} == m.store.entries - {id}
  }

  lemma OthersKeepAgreeing(m: Manager, m': Manager, id: ObjectID)
    requires ManagerInv(m) && OnlyTouches(m, m', id) && Local.StoreInv(m'.store)
    requires id in m'.pulls ==> Agrees(m', id)
    ensures ManagerInv(m')
  {
    forall other | other in m'.pulls && other != id ensures Agrees(m', other) {
      assert other in m'.pulls - {id} && other in m.pulls - {id};
      assert m'.pulls[other] == (m'.pulls - {id})[other] == (m.pulls - {id})[other] == m.pulls[other];
      assert Agrees(m, other);
      assert other in m.store.entries <==> other in m'.store.entries by {
        assert other in m.store.entries - {id} <==> other in m'.store.entries - {id};
      }
      if other in m.store.entries {
        assert m.store.entries[other] == (m.store.entries - {id})[other] == (m'.store.entries - {id})[other] ==
          m'.store.entries[other];
      }
    }
  }

  lemma FailKeeps(m: Manager, id: ObjectID)
    requires Local.StoreInv(m.store) && id in m.pulls
    ensures Local.StoreInv(Fail(m, id).store) && Agrees(Fail(m, id), id) && OnlyTouches(m, Fail(m, id), id)
  {
    if id in m.store.entries {
      Local.RemoveKeepsInv(m.store, id);
    }
  }

  lemma ConfigureKeeps(m: Manager, id: ObjectID, size: Option<nat>, checksum: Option<nat>)
    requires Local.StoreInv(m.store) && id in m.pulls && m.pulls[id].phase.Pulling? && Agrees(m, id)
    ensures var m' := ConfigureOrFail(m, id, size, checksum).0;
      Local.StoreInv(m'.store) && id in m'.pulls && Agrees(m', id) && OnlyTouches(m, m', id)
  {
    FailKeeps(m, id);
    if size.Some? && Local.Create(m.store, id, size.value).Ok? {
      Local.CreateKeepsInv(m.store, id, size.value);
    }
  }

  lemma JoinKeeps(m: Manager, id: ObjectID, d: Demand, digest: Bytes -> nat)
    requires ManagerInv(m) && (Sealed(m, id) || !Starts(m, id, d))
    ensures ManagerInv(RequestPull(m, id, d, digest).0)
  {
    OthersKeepAgreeing(m, RequestPull(m, id, d, digest).0, id);
  }

  // Demand that finds a source and no transfer under way.
  predicate Starts(m: Manager, id: ObjectID, d: Demand) {
    var p := if id in m.pulls then m.pulls[id] else NEW;
    !Sealed(m, id) && !OtherAttempt(p, d) && MetadataAgrees(p, d.size, d.checksum)
    && !p.phase.Failed? && !p.phase.Pulling? && d.chosen.Some?
  }

  function Started(m: Manager, id: ObjectID, d: Demand): Manager {
    var p := if id in m.pulls then m.pulls[id] else NEW;
    m.(pulls := m.pulls[id := p.(attempt := Or(p.attempt, d.attempt), size := Or(p.size, d.size),
                                checksum := Or(p.checksum, d.checksum), waiters := p.waiters + {d.token},
                                phase := Pulling, source := d.chosen, transfer := Some(d.nextTransfer))])
  }

  lemma StartKeeps(m: Manager, id: ObjectID, d: Demand, digest: Bytes -> nat)
    requires ManagerInv(m) && Starts(m, id, d)
    ensures ManagerInv(RequestPull(m, id, d, digest).0)
  {
    var started := Started(m, id, d);
    var p := started.pulls[id];
    ConfigureKeeps(started, id, p.size, p.checksum);
    OthersKeepAgreeing(m, RequestPull(m, id, d, digest).0, id);
  }

  lemma RequestKeeps(m: Manager, id: ObjectID, d: Demand, digest: Bytes -> nat)
    requires ManagerInv(m)
    ensures ManagerInv(RequestPull(m, id, d, digest).0)
  {
    if Starts(m, id, d) { StartKeeps(m, id, d, digest); } else { JoinKeeps(m, id, d, digest); }
  }

  lemma BeginKeeps(m: Manager, id: ObjectID, size: nat, checksum: nat, transfer: Option<nat>, source: Option<nat>)
    requires ManagerInv(m)
    ensures ManagerInv(BeginTransfer(m, id, size, checksum, transfer, source).0)
  {
    if RequirePulling(m, id, transfer, source).None? {
      ConfigureKeeps(m, id, Some(size), Some(checksum));
      OthersKeepAgreeing(m, BeginTransfer(m, id, size, checksum, transfer, source).0, id);
    }
  }

  lemma ReceiveKeeps(m: Manager, id: ObjectID, payload: Bytes, offset: int, transfer: Option<nat>, source: Option<nat>)
    requires ManagerInv(m)
    ensures ManagerInv(ReceiveChunk(m, id, payload, offset, transfer, source).0)
  {
    var m' := ReceiveChunk(m, id, payload, offset, transfer, source).0;
    if m' != m {
      FailKeeps(m, id);
      if Local.Write(m.store, id, payload, offset).Ok? {
        Local.WriteKeepsInv(m.store, id, payload, offset);
      }
      OthersKeepAgreeing(m, m', id);
    }
  }

  lemma RefusedKeeps(m: Manager, id: ObjectID)
    requires ManagerInv(m) && id in m.pulls
    ensures ManagerInv(Fail(m, id))
  {
    FailKeeps(m, id);
    OthersKeepAgreeing(m, Fail(m, id), id);
  }

  function Readied(m: Manager, id: ObjectID): Manager
    requires id in m.pulls && Local.Seal(m.store, id).Ok?
  {
    Manager(Local.Seal(m.store, id).value, m.pulls[id := m.pulls[id].(phase := Ready)])
  }

  function Quarantined(m: Manager, id: ObjectID): Manager
    requires id in m.pulls && Local.Seal(m.store, id).Ok?
  {
    Fail(m.(store := Local.Delete(Local.Seal(m.store, id).value, id).0), id)
  }

  lemma ReadiedKeeps(m: Manager, id: ObjectID)
    requires ManagerInv(m) && id in m.pulls && Configured(m.pulls[id]) && Local.Seal(m.store, id).Ok?
    ensures ManagerInv(Readied(m, id))
  {
    Local.PerformKeepsInv(m.store, id, Local.Seals);
    OthersKeepAgreeing(m, Readied(m, id), id);
  }

  lemma QuarantinedKeeps(m: Manager, id: ObjectID)
    requires ManagerInv(m) && id in m.pulls && Local.Seal(m.store, id).Ok?
    ensures ManagerInv(Quarantined(m, id))
  {
    var store := Local.Seal(m.store, id).value;
    Local.PerformKeepsInv(m.store, id, Local.Seals);
    Local.PerformKeepsInv(store, id, Local.Deletes);
    FailKeeps(m.(store := Local.Delete(store, id).0), id);
    OthersKeepAgreeing(m, Quarantined(m, id), id);
  }

  // The four ways a finish can end.
  lemma FinishShape(m: Manager, id: ObjectID, transfer: Option<nat>, source: Option<nat>, digest: Bytes -> nat,
                    published: bool)
    ensures var m' := FinishPull(m, id, transfer, source, digest, published).0;
      || m' == m || (id in m.pulls && m' == Fail(m, id))
      || (id in m.pulls && Configured(m.pulls[id]) && Local.Seal(m.store, id).Ok?
          && m' in {Readied(m, id), Quarantined(m, id)})
  {
  }

  lemma FinishKeeps(m: Manager, id: ObjectID, transfer: Option<nat>, source: Option<nat>, digest: Bytes -> nat,
                    published: bool)
    requires ManagerInv(m)
    ensures ManagerInv(FinishPull(m, id, transfer, source, digest, published).0)
  {
    FinishShape(m, id, transfer, source, digest, published);
    if id in m.pulls {
      RefusedKeeps(m, id);
      if Configured(m.pulls[id]) && Local.Seal(m.store, id).Ok? {
        ReadiedKeeps(m, id);
        QuarantinedKeeps(m, id);
      }
    }
  }

  lemma ResetKeeps(m: Manager, id: ObjectID)
    requires ManagerInv(m)
    ensures ManagerInv(ResetFailed(m, id).0)
  {
    OthersKeepAgreeing(m, ResetFailed(m, id).0, id);
  }

  lemma DropKeeps(m: Manager, id: ObjectID)
    requires ManagerInv(m)
    ensures ManagerInv(DropReplica(m, id))
  {
    if id in m.pulls { assert Agrees(m, id); }
    if Sealed(m, id) && m.store.entries[id].pins == {} {
      Local.RemoveKeepsInv(m.store, id);
      OthersKeepAgreeing(m, DropReplica(m, id), id);
    }
  }

  lemma TouchKeeps(m: Manager, id: ObjectID, op: Local.Op)
    requires ManagerInv(m) && Apart(m, id, Touches(op))
    ensures ManagerInv(m.(store := Local.Perform(m.store, id, op)))
  {
    var m' := m.(store := Local.Perform(m.store, id, op));
    Local.PerformKeepsInv(m.store, id, op);
    Local.OnlyOwnEntry(m.store, id, op);
    if id in m.pulls {
      TouchAgrees(m, id, op);
    }
    OthersKeepAgreeing(m, m', id);
  }

  lemma TouchAgrees(m: Manager, id: ObjectID, op: Local.Op)
    requires id in m.pulls && Agrees(m, id) && Apart(m, id, Touches(op))
    ensures Agrees(m.(store := Local.Perform(m.store, id, op)), id)
  {
    if Sealed(m, id) && !op.Deletes? {
      Local.SealedStays(m.store, id, op);
    }
  }

  lemma ActKeepsInv(m: Manager, id: ObjectID, e: Event, digest: Bytes -> nat)
    requires ManagerInv(m) && Apart(m, id, e)
    ensures ManagerInv(Act(m, id, e, digest))
  {
    match e
    case Requests(d) => RequestKeeps(m, id, d, digest);
    case Begins(size, checksum, transfer, source) => BeginKeeps(m, id, size, checksum, transfer, source);
    case Receives(payload, offset, transfer, source) => ReceiveKeeps(m, id, payload, offset, transfer, source);
    case Finishes(transfer, source, published) => FinishKeeps(m, id, transfer, source, digest, published);
    case Touches(op) => TouchKeeps(m, id, op);
    case Fails => if id in m.pulls { RefusedKeeps(m, id); }
    case Resets => ResetKeeps(m, id);
    case Drops => DropKeeps(m, id);
  }

  // ------------------------------------------------------------------------
  // Complete transfers seal

  /** Main result: the store never refuses what the manager checked. A chunk
      that passes the manager's checks is written, and a pull that counted all
      its bytes is sealed. */
  lemma StoreNeverRefuses(m: Manager, id: ObjectID, payload: Bytes, offset: int, transfer: Option<nat>,
                          source: Option<nat>,
                          digest: Bytes -> nat, published: bool)
    requires ManagerInv(m)
    ensures match ReceiveChunk(m, id, payload, offset, transfer, source).1
            case Some(StoreRefused(_)) => false
            case _ => true
    ensures match FinishPull(m, id, transfer, source, digest, published).1
            case Some(StoreRefused(_)) => false
            case _ => true
  {
    hide ReceiveChunk, FinishPull;
    ReceiveIsNeverRefused(m, id, payload, offset, transfer, source);
    FinishIsNeverRefused(m, id, transfer, source, digest, published);
  }

  lemma ReceiveIsNeverRefused(m: Manager, id: ObjectID, payload: Bytes, offset: int, transfer: Option<nat>,
                              source: Option<nat>)
    requires ManagerInv(m)
    ensures match ReceiveChunk(m, id, payload, offset, transfer, source).1
            case Some(StoreRefused(_)) => false
            case _ => true
  {
    hide Fail, Add, OverlapAgrees, Local.Overwrite;
    if UnderPull(m, id) { assert Agrees(m, id); }
  }

  lemma FinishIsNeverRefused(m: Manager, id: ObjectID, transfer: Option<nat>, source: Option<nat>, digest: Bytes -> nat,
                             published: bool)
    requires ManagerInv(m)
    ensures match FinishPull(m, id, transfer, source, digest, published).1
            case Some(StoreRefused(_)) => false
            case _ => true
  {
    hide Fail;
    if UnderPull(m, id) {
      var e := m.store.entries[id];
      CompleteIffTotal(e.ranges, e.size);
    }
  }

  datatype Chunk = Chunk(offset: nat, payload: Bytes)

  // The chunk's bytes stand at their place in the pull's buffer.
  ghost predicate Holds(m: Manager, id: ObjectID, c: Chunk) {
    && id in m.pulls && (m.pulls[id].phase.Pulling? || m.pulls[id].phase.Ready?) && m.pulls[id].buffer.Some?
    && c.offset + |c.payload| <= |m.pulls[id].buffer.value|
    && m.pulls[id].buffer.value[c.offset..c.offset + |c.payload|] == c.payload
    && Spans(m.pulls[id].ranges, c.offset, c.offset + |c.payload|)
  }

  lemma AcceptedChunkHolds(m: Manager, id: ObjectID, c: Chunk, transfer: Option<nat>, source: Option<nat>)
    requires ManagerInv(m) && ReceiveChunk(m, id, c.payload, c.offset, transfer, source).1.None?
    ensures Holds(ReceiveChunk(m, id, c.payload, c.offset, transfer, source).0, id, c)
  {
    AddSpans(m.pulls[id].ranges, c.offset, c.offset + |c.payload|);
  }

  // A later accepted chunk may overlap, but only with the same bytes.
  lemma LaterChunkHolds(m: Manager, id: ObjectID, c: Chunk, payload: Bytes, offset: int, transfer: Option<nat>,
                        source: Option<nat>)
    requires ManagerInv(m) && Holds(m, id, c) && m.pulls[id].phase.Pulling?
    requires ReceiveChunk(m, id, payload, offset, transfer, source).1.None?
    ensures Holds(ReceiveChunk(m, id, payload, offset, transfer, source).0, id, c)
  {
    var p := m.pulls[id];
    var p' := ReceiveChunk(m, id, payload, offset, transfer, source).0.pulls[id];
    SpansKept(p.ranges, offset, offset + |payload|, c.offset, c.offset + |c.payload|);
    var now := p'.buffer.value[c.offset..c.offset + |c.payload|];
    forall i | 0 <= i < |c.payload| ensures now[i] == c.payload[i] {
      assert p.buffer.value[c.offset..c.offset + |c.payload|][i] == c.payload[i];
      assert Covers(p.ranges, c.offset + i);
    }
    assert now == c.payload;
  }

  lemma OtherHolds(m: Manager, m': Manager, other: ObjectID, id: ObjectID, c: Chunk)
    requires Holds(m, id, c) && other != id && m'.pulls - {other} == m.pulls - {other}
    ensures Holds(m', id, c)
  {
    assert id in m.pulls - {other};
    assert m'.pulls[id] == (m'.pulls - {other})[id] == (m.pulls - {other})[id] == m.pulls[id];
  }

  lemma OnlyOwnPull(m: Manager, id: ObjectID, e: Event, digest: Bytes -> nat)
    ensures Act(m, id, e, digest).pulls - {id} == m.pulls - {id}
  {
  }

  // A live pull keeps its buffer through everything but an accepted chunk.
  lemma SameBuffer(m: Manager, id: ObjectID, e: Event, digest: Bytes -> nat)
    requires id in m.pulls && Agrees(m, id) && m.pulls[id].buffer.Some?
    requires (m.pulls[id].phase.Pulling? || m.pulls[id].phase.Ready?)
    requires e.Receives? ==> ReceiveChunk(m, id, e.payload, e.offset, e.transfer, e.source).1.Some?
    requires var m' := Act(m, id, e, digest); id in m'.pulls && !m'.pulls[id].phase.Failed?
    ensures var p' := Act(m, id, e, digest).pulls[id];
      p'.buffer == m.pulls[id].buffer && p'.ranges == m.pulls[id].ranges && (p'.phase.Pulling? || p'.phase.Ready?)
  {
  }

  lemma ActHolds(m: Manager, other: ObjectID, e: Event, digest: Bytes -> nat, id: ObjectID, c: Chunk)
    requires ManagerInv(m) && Apart(m, other, e) && Holds(m, id, c)
    requires var m' := Act(m, other, e, digest); id in m'.pulls && !m'.pulls[id].phase.Failed?
    ensures Holds(Act(m, other, e, digest), id, c)
  {
    if other != id {
      OnlyOwnPull(m, other, e, digest);
      OtherHolds(m, Act(m, other, e, digest), other, id, c);
    } else if e.Receives? && ReceiveChunk(m, id, e.payload, e.offset, e.transfer, e.source).1.None? {
      LaterChunkHolds(m, id, c, e.payload, e.offset, e.transfer, e.source);
    } else {
      SameBuffer(m, id, e, digest);
    }
  }

  // ------------------------------------------------------------------------
  // Everyone else at the store

  // The node's own writers use the store directly; `building` are the replicas
  // they created and neither sealed nor aborted yet.
  datatype Site = Site(manager: Manager, building: set<ObjectID>)

  // A writer creates any replica the store lets it, but writes, seals and
  // aborts only one that it created; deletion is always a drop.
  predicate MayAct(s: Site, id: ObjectID, e: Event) {
    e.Touches? ==>
      e.op.Pins? || e.op.Unpins? || e.op.Creates? || ((e.op.Writes? || e.op.Seals? || e.op.Aborts?) && id in s.building)
  }

  function StillBuilding(s: Site, id: ObjectID, e: Event): set<ObjectID> {
    match e
    case Touches(Creates(size)) =>
      if Local.Create(s.manager.store, id, size).Ok? then s.building + {id} else s.building
    case Touches(Seals) => if Local.Seal(s.manager.store, id).Ok? then s.building - {id} else s.building
    case Touches(Aborts) => s.building - {id}
    case _ => s.building
  }

  ghost function Step(s: Site, id: ObjectID, e: Event, digest: Bytes -> nat): Site {
    Site(Act(s.manager, id, e, digest), StillBuilding(s, id, e))
  }

  // A replica someone else is writing is in the store and no pull's business.
  ghost predicate Foreign(m: Manager, id: ObjectID) {
    id in m.store.entries && !Sealed(m, id) && !UnderPull(m, id)
  }

  ghost predicate SiteInv(s: Site) {
    ManagerInv(s.manager) && forall id :: id in s.building ==> Foreign(s.manager, id)
  }

  lemma StaysApart(s: Site, id: ObjectID, e: Event)
    requires SiteInv(s) && MayAct(s, id, e)
    ensures Apart(s.manager, id, e)
  {
  }

  // The manager neither adopts, seals nor removes a replica another writer is building.
  lemma ForeignIsLeftAlone(m: Manager, id: ObjectID, e: Event, digest: Bytes -> nat)
    requires ManagerInv(m) && Foreign(m, id) && !e.Touches?
    ensures Foreign(Act(m, id, e, digest), id)
  {
    if id in m.pulls { assert Agrees(m, id); }
  }

  lemma ForeignTouched(s: Site, id: ObjectID, e: Event, digest: Bytes -> nat)
    requires SiteInv(s) && MayAct(s, id, e) && e.Touches? && id in StillBuilding(s, id, e)
    ensures Foreign(Act(s.manager, id, e, digest), id)
  {
    if id in s.manager.pulls { assert Agrees(s.manager, id); }
  }

  lemma OtherForeign(m: Manager, id: ObjectID, e: Event, digest: Bytes -> nat, other: ObjectID)
    requires other != id && Foreign(m, other) && OnlyTouches(m, Act(m, id, e, digest), id)
    ensures Foreign(Act(m, id, e, digest), other)
  {
    var m' := Act(m, id, e, digest);
    assert other in m.store.entries - {id};
    assert m'.store.entries[other] == (m'.store.entries - {id})[other] == (m.store.entries - {id})[other];
    assert other in m'.pulls - {id} <==> other in m.pulls - {id};
    if other in m'.pulls {
      assert m'.pulls[other] == (m'.pulls - {id})[other] == (m.pulls - {id})[other];
    }
  }

  lemma OnlyOwnReplica(m: Manager, id: ObjectID, e: Event, digest: Bytes -> nat)
    ensures Act(m, id, e, digest).store.entries - {id} == m.store.entries - {id}
  {
    hide OverlapAgrees, Add, Total, MetadataAgrees, Local.Overwrite;
    if e.Touches? { Local.OnlyOwnEntry(m.store, id, e.op); }
  }

  lemma ActTouchesOnlyOwn(m: Manager, id: ObjectID, e: Event, digest: Bytes -> nat)
    ensures OnlyTouches(m, Act(m, id, e, digest), id)
  {
    hide Act;
    OnlyOwnPull(m, id, e, digest);
    OnlyOwnReplica(m, id, e, digest);
  }

  /** Every step of the manager and of the other writers keeps replicas under
      construction apart: nobody needs to know of the others. */
  lemma StepKeepsSite(s: Site, id: ObjectID, e: Event, digest: Bytes -> nat)
    requires SiteInv(s) && MayAct(s, id, e)
    ensures SiteInv(Step(s, id, e, digest))
  {
    hide Agrees, Act, OnlyTouches, Local.StoreInv;
    StaysApart(s, id, e);
    ActKeepsInv(s.manager, id, e, digest);
    ActTouchesOnlyOwn(s.manager, id, e, digest);
    forall other | other in StillBuilding(s, id, e) ensures Foreign(Act(s.manager, id, e, digest), other) {
      if other != id {
        OtherForeign(s.manager, id, e, digest, other);
      } else if e.Touches? {
        ForeignTouched(s, id, e, digest);
      } else {
        ForeignIsLeftAlone(s.manager, id, e, digest);
      }
    }
  }

  datatype Message = Message(id: ObjectID, event: Event)

  ghost predicate Reaches(s: Site, messages: seq<Message>, digest: Bytes -> nat, t: Site)
    decreases |messages|
  {
    if messages == [] then s == t
    else
      && MayAct(s, messages[0].id, messages[0].event)
      && Reaches(Step(s, messages[0].id, messages[0].event, digest), messages[1..], digest, t)
  }

  // The same pull is alive in every state of the run.
  ghost predicate Alive(s: Site, messages: seq<Message>, digest: Bytes -> nat, id: ObjectID)
    decreases |messages|
  {
    && id in s.manager.pulls && !s.manager.pulls[id].phase.Failed?
    && (messages != [] ==> Alive(Step(s, messages[0].id, messages[0].event, digest), messages[1..], digest, id))
  }

  lemma ReadyDelivers(m: Manager, id: ObjectID, c: Chunk)
    requires ManagerInv(m) && Holds(m, id, c) && m.pulls[id].phase.Ready?
    ensures Local.Get(m.store, id).Ok?
    ensures var bytes := Local.Get(m.store, id).value;
      c.offset + |c.payload| <= |bytes| && bytes[c.offset..c.offset + |c.payload|] == c.payload
  {
    assert Agrees(m, id);
  }

  /** Main result: over every interleaving with other objects, other writers,
      duplicates, overlaps and reordering, once the pull is ready the sealed
      replica carries each accepted chunk at its own place. */
  lemma {:induction false} SealedBytesAreDelivered(s: Site, messages: seq<Message>, digest: Bytes -> nat, t: Site,
                                                   id: ObjectID, c: Chunk)
    requires SiteInv(s) && Holds(s.manager, id, c) && Reaches(s, messages, digest, t) && Alive(s, messages, digest, id)
    ensures SiteInv(t) && Holds(t.manager, id, c)
    ensures t.manager.pulls[id].phase.Ready? ==>
      && Local.Get(t.manager.store, id).Ok?
      && var bytes := Local.Get(t.manager.store, id).value;
         c.offset + |c.payload| <= |bytes| && bytes[c.offset..c.offset + |c.payload|] == c.payload
    decreases |messages|
  {
    hide ManagerInv, Act, Foreign;
    if messages == [] {
      if t.manager.pulls[id].phase.Ready? { ReadyDelivers(t.manager, id, c); }
    } else {
      var next := Step(s, messages[0].id, messages[0].event, digest);
      StaysApart(s, messages[0].id, messages[0].event);
      StepKeepsSite(s, messages[0].id, messages[0].event, digest);
      assert Alive(next, messages[1..], digest, id);
      ActHolds(s.manager, messages[0].id, messages[0].event, digest, id, c);
      SealedBytesAreDelivered(next, messages[1..], digest, t, id, c);
    }
  }

  // ------------------------------------------------------------------------
  // The overlap check

  // The new bytes agree with the buffer from lo to hi.
  ghost predicate Same(buffer: Bytes, payload: Bytes, offset: nat, lo: nat, hi: nat)
    requires offset <= lo && hi <= offset + |payload| <= |buffer|
  {
    forall b: nat :: lo <= b < hi ==> buffer[b] == payload[b - offset]
  }

  method SliceMatches(buffer: Bytes, payload: Bytes, offset: nat, lo: nat, hi: nat) returns (same: bool)
    requires offset <= lo <= hi <= offset + |payload| <= |buffer|
    ensures same <==> Same(buffer, payload, offset, lo, hi)
  {
    var a, b := buffer[lo..hi], payload[lo - offset..hi - offset];
    same := a == b;
    if same {
      forall n: nat | lo <= n < hi ensures buffer[n] == payload[n - offset] {
        assert a[n - lo] == b[n - lo];
      }
    } else {
      var k :| 0 <= k < hi - lo && a[k] != b[k];
      assert buffer[lo + k] != payload[lo + k - offset];
    }
  }

  // The chunk agrees with everything the first n ranges hold.
  ghost predicate AgreesSoFar(p: Pull, offset: nat, payload: Bytes, n: nat)
    requires p.buffer.Some? && offset + |payload| <= |p.buffer.value| && n <= |p.ranges|
  {
    forall b: nat :: offset <= b < offset + |payload| && Covers(p.ranges[..n], b) ==>
      p.buffer.value[b] == payload[b - offset]
  }

  lemma AgreesNext(p: Pull, offset: nat, payload: Bytes, n: nat, lo: nat, hi: nat)
    requires p.buffer.Some? && offset + |payload| <= |p.buffer.value| && n < |p.ranges|
    requires AgreesSoFar(p, offset, payload, n)
    requires lo == Max(offset, p.ranges[n].start) && hi == Min(offset + |payload|, p.ranges[n].end)
    requires lo < hi ==> Same(p.buffer.value, payload, offset, lo, hi)
    ensures AgreesSoFar(p, offset, payload, n + 1)
  {
    CoversNext(p.ranges, n);
  }

  /** One pass over the written ranges decides whether a chunk conflicts. */
  method OverlapMatches(p: Pull, offset: nat, payload: Bytes) returns (agrees: bool)
    requires p.buffer.Some? && offset + |payload| <= |p.buffer.value|
    ensures agrees <==> OverlapAgrees(p, offset, payload)
  {
    var i := 0;
    while i < |p.ranges|
      invariant 0 <= i <= |p.ranges| && AgreesSoFar(p, offset, payload, i)
    {
      var lo, hi := Max(offset, p.ranges[i].start), Min(offset + |payload|, p.ranges[i].end);
      if lo < hi {
        var same := SliceMatches(p.buffer.value, payload, offset, lo, hi);
        if !same {
          var b: nat :| lo <= b < hi && p.buffer.value[b] != payload[b - offset];
          assert Covers(p.ranges, b);
          return false;
        }
      }
      AgreesNext(p, offset, payload, i, lo, hi);
      i := i + 1;
    }
    assert p.ranges[..i] == p.ranges;
    agrees := true;
  }

  // ------------------------------------------------------------------------
  // The manager object

  class ObjectManager {
    const store: Local.ObjectStore
    var pulls: map<ObjectID, Pull>

    function View(): Manager
      reads this, store
    {
      Manager(store.View(), pulls)
    }

    ghost predicate Valid()
      reads this, store
    {
      ManagerInv(View())
    }

    constructor (store: Local.ObjectStore)
      requires store.Valid()
      ensures Valid() && this.store == store && View() == Manager(store.View(), map[])
    {
      this.store := store;
      pulls := map[];
    }

    // Abort the reservation this pull made and remember the failure.
    method FailRecord(id: ObjectID)
      requires Valid() && id in pulls
      modifies this, store
      ensures Valid() && View() == Fail(old(View()), id)
    {
      RefusedKeeps(View(), id);
      var p := pulls[id];
      if p.created && id in store.entries && !store.entries[id].Sealed() {
        var _ := store.AbortReplica(id);
      }
      pulls := pulls[id := p.(created := false, buffer := None, ranges := [], phase := Failed)];
    }

    // The store takes whatever passed the manager's checks.
    lemma ChunkIsWritten(id: ObjectID, payload: Bytes, offset: nat, transfer: Option<nat>, source: Option<nat>)
      requires Valid() && RequirePulling(View(), id, transfer, source).None?
      requires pulls[id].buffer.Some? && pulls[id].size.Some? && offset + |payload| <= pulls[id].size.value
      ensures offset + |payload| <= |pulls[id].buffer.value| && Local.Write(View().store, id, payload, offset).Ok?
      ensures Canonical(pulls[id].ranges)
    {
      assert Agrees(View(), id);
    }

    // Everything that is checked before any byte is stored.
    method CheckChunk(id: ObjectID, payload: Bytes, offset: int, transfer: Option<nat>, source: Option<nat>)
      returns (refused: Option<PullError>)
      requires Valid()
      ensures refused.Some? ==> (View(), refused) == ReceiveChunk(View(), id, payload, offset, transfer, source)
      ensures refused.None? ==>
        && offset >= 0 && RequirePulling(View(), id, transfer, source).None?
        && pulls[id].buffer.Some? && pulls[id].size.Some? && offset + |payload| <= pulls[id].size.value
        && offset + |payload| <= |pulls[id].buffer.value| && OverlapAgrees(pulls[id], offset, payload)
    {
      if offset < 0 { return Some(BadArgument); }
      refused := RequirePulling(View(), id, transfer, source);
      if refused.Some? { return; }
      var p := pulls[id];
      if p.buffer.None? || p.size.None? { return Some(WrongState); }
      if offset + |payload| > p.size.value { return Some(BadArgument); }
      ChunkIsWritten(id, payload, offset, transfer, source);
      var agrees := OverlapMatches(p, offset, payload);
      refused := if agrees then None else Some(Conflicting);
    }

    /** Write one chunk to the store and to the manager's own buffer. */
    method DeliverChunk(id: ObjectID, payload: Bytes, offset: int, transfer: Option<nat>, source: Option<nat>)
      returns (error: Option<PullError>)
      requires Valid()
      modifies this, store
      ensures Valid() && (View(), error) == ReceiveChunk(old(View()), id, payload, offset, transfer, source)
    {
      hide Agrees, OverlapAgrees, Fail;
      ReceiveKeeps(View(), id, payload, offset, transfer, source);
      error := CheckChunk(id, payload, offset, transfer, source);
      if error.Some? { return; }
      ChunkIsWritten(id, payload, offset, transfer, source);
      var p := pulls[id];
      var _ := store.WriteChunk(id, payload, offset);
      var ranges := MergeRange(p.ranges, offset, offset + |payload|);
      pulls := pulls[id := p.(buffer := Some(Local.Overwrite(p.buffer.value, offset, payload)), ranges := ranges)];
    }

    /** Verify the digest, seal, publish, and only then become ready. */
    method Finish(id: ObjectID, transfer: Option<nat>, source: Option<nat>, digest: Bytes -> nat, published: bool)
      returns (error: Option<PullError>)
      requires Valid()
      modifies this, store
      ensures Valid() && (View(), error) == FinishPull(old(View()), id, transfer, source, digest, published)
    {
      FinishKeeps(View(), id, transfer, source, digest, published);
      StoreNeverRefuses(View(), id, [], 0, transfer, source, digest, published);
      var refused := RequirePulling(View(), id, transfer, source);
      if refused.Some? { return refused; }
      var p := pulls[id];
      if p.buffer.None? || p.size.None? || p.checksum.None? { return Some(WrongState); }
      if Total(p.ranges) != p.size.value { return Some(IncompletePull); }
      if digest(p.buffer.value) != p.checksum.value {
        FailRecord(id);
        return Some(BadChecksum);
      }
      var _ := store.SealReplica(id);
      if !published {
        var _ := store.DeleteReplica(id);
        pulls := pulls[id := p.(created := false, buffer := None, ranges := [], phase := Failed)];
        return Some(Stale);
      }
      pulls := pulls[id := p.(phase := Ready)];
      error := None;
    }
  }
}
