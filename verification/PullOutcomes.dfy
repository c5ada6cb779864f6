/** What the calls of a pull answer and leave behind, said of bytes and receipts
    alone: which chunks are taken, when a pull becomes ready, and whether a ready
    replica is the one its digest names. */
module PullOutcomes {
  import opened Ids
  import opened ByteRanges
  import Local = LocalStore
  import opened ObjectTransfer

  // ------------------------------------------------------------------------
  // One chunk

  // The message belongs to the pull's transfer and source, as far as it names them.
  predicate Addressed(p: Pull, transfer: Option<nat>, source: Option<nat>) {
    (transfer.Some? ==> transfer == p.transfer) && (source.Some? ==> source == p.source)
  }

  // Every byte that arrived before is the same in the chunk.
  ghost predicate Consistent(p: Pull, payload: Bytes, offset: nat)
    requires p.buffer.Some? && offset + |payload| <= |p.buffer.value|
  {
    forall i: nat :: i < |payload| && Covers(p.ranges, offset + i) ==> p.buffer.value[offset + i] == payload[i]
  }

  ghost predicate Fitting(m: Manager, id: ObjectID, payload: Bytes, offset: int, transfer: Option<nat>,
                          source: Option<nat>)
  {
    && offset >= 0 && UnderPull(m, id) && Addressed(m.pulls[id], transfer, source)
    && m.pulls[id].size.Some? && offset + |payload| <= m.pulls[id].size.value
    && m.pulls[id].size.value == |m.pulls[id].buffer.value| && Consistent(m.pulls[id], payload, offset)
  }

  // The chunk stands in the buffer, every other byte as before, and exactly its bytes are new.
  ghost predicate Takes(p: Pull, q: Pull, payload: Bytes, offset: nat)
    requires p.buffer.Some? && offset + |payload| <= |p.buffer.value|
  {
    && q == p.(buffer := q.buffer, ranges := q.ranges)
    && q.buffer.Some? && |q.buffer.value| == |p.buffer.value|
    && (forall b: nat :: b < |p.buffer.value| ==>
          q.buffer.value[b] == if offset <= b < offset + |payload| then payload[b - offset] else p.buffer.value[b])
    && (forall b: nat :: Covers(q.ranges, b) <==> Covers(p.ranges, b) || offset <= b < offset + |payload|)
  }

  lemma ConsistentIff(p: Pull, payload: Bytes, offset: nat)
    requires p.buffer.Some? && offset + |payload| <= |p.buffer.value|
    ensures OverlapAgrees(p, offset, payload) <==> Consistent(p, payload, offset)
  {
    hide Covers;
    if Consistent(p, payload, offset) {
      forall b: nat | offset <= b < offset + |payload| && Covers(p.ranges, b)
        ensures p.buffer.value[b] == payload[b - offset]
      {
        var i: nat := b - offset;
        assert Covers(p.ranges, offset + i);
      }
    }
  }

  lemma WrittenIs(p: Pull, payload: Bytes, offset: nat)
    requires p.buffer.Some? && offset + |payload| <= |p.buffer.value| && Canonical(p.ranges)
    ensures Takes(p, p.(buffer := Some(Local.Overwrite(p.buffer.value, offset, payload)),
                        ranges := Add(p.ranges, offset, offset + |payload|)), payload, offset)
  {
    hide Covers, Add;
    var q := p.(buffer := Some(Local.Overwrite(p.buffer.value, offset, payload)),
                ranges := Add(p.ranges, offset, offset + |payload|));
    OverwrittenIs(p.buffer.value, payload, offset);
    forall b: nat
      ensures Covers(q.ranges, b) <==>
                Covers(p.ranges, b) || offset <= b < offset + |payload|
    {
      AddCovers(p.ranges, offset, offset + |payload|, b);
    }
  }

  lemma OverwrittenIs(buffer: Bytes, payload: Bytes, offset: nat)
    requires offset + |payload| <= |buffer|
    ensures var done := Local.Overwrite(buffer, offset, payload);
      && |done| == |buffer|
      && forall b: nat :: b < |buffer| ==>
           done[b] == if offset <= b < offset + |payload| then payload[b - offset] else buffer[b]
  {
  }

  /** A chunk is taken exactly when it is the running transfer's, lies within the
      object and agrees with every byte that already arrived; it then stands in
      buffer and store alike. Any other chunk changes nothing. */
  lemma ChunkIsTakenIff(m: Manager, id: ObjectID, payload: Bytes, offset: int, transfer: Option<nat>,
                        source: Option<nat>)
    requires ManagerInv(m)
    ensures var (m', error) := ReceiveChunk(m, id, payload, offset, transfer, source);
      && (error.None? <==> Fitting(m, id, payload, offset, transfer, source))
      && (error.Some? ==> m' == m)
      && (error.None? ==> m'.pulls == m.pulls[id := m'.pulls[id]] && Takes(m.pulls[id], m'.pulls[id], payload, offset))
  {
    hide Add, Local.Overwrite, Covers, OverlapAgrees, Consistent, Takes, Fail;
    ReceiveIsNeverRefused(m, id, payload, offset, transfer, source);
    if UnderPull(m, id) && offset >= 0 {
      PullFacts(m, id);
      var p := m.pulls[id];
      if offset + |payload| <= |p.buffer.value| {
        ConsistentIff(p, payload, offset);
        WrittenIs(p, payload, offset);
      }
    }
  }

  // What the invariant says of a pull that is being filled.
  lemma PullFacts(m: Manager, id: ObjectID)
    requires ManagerInv(m) && UnderPull(m, id)
    ensures var p := m.pulls[id];
      && p.created && p.buffer.Some? && p.size.Some? && p.checksum.Some? && |p.buffer.value| == p.size.value
      && Canonical(p.ranges) && Within(p.ranges, p.size.value)
      && id in m.store.entries && m.store.entries[id].buffer == p.buffer && m.store.entries[id].ranges == p.ranges
      && m.store.entries[id].size == p.size.value && m.store.entries[id].pins == {} && !Sealed(m, id)
  {
    assert Agrees(m, id);
  }

  // ------------------------------------------------------------------------
  // The end of a pull

  // Every byte of the object arrived.
  ghost predicate Whole(p: Pull) { p.size.Some? && forall b: nat :: b < p.size.value ==> Covers(p.ranges, b) }

  // The pull failed, and its reservation or replica is gone.
  ghost predicate Undone(m: Manager, m': Manager, id: ObjectID)
    requires id in m.pulls
  {
    && m'.pulls == m.pulls[id := m.pulls[id].(phase := Failed, created := false, buffer := None, ranges := [])]
    && id in m.store.entries && m'.store.entries == m.store.entries - {id}
    && m'.store.used == m.store.used - m.store.entries[id].size && m'.store.capacity == m.store.capacity
  }

  lemma WholeIffTotal(m: Manager, id: ObjectID)
    requires ManagerInv(m) && UnderPull(m, id)
    ensures Total(m.pulls[id].ranges) == m.pulls[id].size.value <==> Whole(m.pulls[id])
    ensures Local.Seal(m.store, id).Ok? <==> Whole(m.pulls[id])
  {
    hide ManagerInv, Total, Covers;
    PullFacts(m, id);
    CompleteIffTotal(m.pulls[id].ranges, m.pulls[id].size.value);
    CompleteIffCovered(m.pulls[id].ranges, m.pulls[id].size.value);
  }

  /** Main result: finishing a running pull makes it ready exactly when every byte
      arrived, their digest is the recorded one and the owner published the
      location. Incomplete, it goes on as it was; with a wrong digest the
      reservation is given back; unpublished, the replica is deleted. */
  lemma FinishIff(m: Manager, id: ObjectID, transfer: Option<nat>, source: Option<nat>, digest: Bytes -> nat,
                  published: bool)
    requires ManagerInv(m) && UnderPull(m, id) && Addressed(m.pulls[id], transfer, source)
    ensures var (m', error), p := FinishPull(m, id, transfer, source, digest, published), m.pulls[id];
      && p.buffer.Some? && p.checksum.Some?
      && if !Whole(p) then m' == m && error == Some(IncompletePull)
         else if digest(p.buffer.value) != p.checksum.value then Undone(m, m', id) && error == Some(BadChecksum)
         else if !published then Undone(m, m', id) && error == Some(Stale)
         else
           && error.None? && m'.pulls == m.pulls[id := p.(phase := Ready)]
           && Local.Get(m'.store, id) == Local.Ok(p.buffer.value)
           && m'.store.entries - {id} == m.store.entries - {id} && m'.store.used == m.store.used
  {
    hide Total, Whole, ManagerInv;
    PullFacts(m, id);
    WholeIffTotal(m, id);
    FailedIsUndone(m, id);
    if Local.Seal(m.store, id).Ok? { UnpublishedIsUndone(m, id); }
  }

  lemma FailedIsUndone(m: Manager, id: ObjectID)
    requires id in m.pulls && m.pulls[id].created && id in m.store.entries && !Sealed(m, id)
    ensures Undone(m, Fail(m, id), id)
  {
  }

  lemma UnpublishedIsUndone(m: Manager, id: ObjectID)
    requires id in m.pulls && id in m.store.entries && m.store.entries[id].pins == {} && Local.Seal(m.store, id).Ok?
    ensures Undone(m, Fail(m.(store := Local.Delete(Local.Seal(m.store, id).value, id).0), id), id)
  {
    var sealed := Local.Seal(m.store, id).value;
    assert sealed.entries - {id} == m.store.entries - {id};
  }

  /** Any other finish is refused and changes nothing. */
  lemma FinishRefused(m: Manager, id: ObjectID, transfer: Option<nat>, source: Option<nat>, digest: Bytes -> nat,
                      published: bool)
    requires ManagerInv(m) && !(UnderPull(m, id) && Addressed(m.pulls[id], transfer, source))
    ensures var (m', error) := FinishPull(m, id, transfer, source, digest, published);
      && m' == m
      && error == Some(if id !in m.pulls then UnknownPull
                       else if !m.pulls[id].phase.Pulling? then WrongState
                       else if !Addressed(m.pulls[id], transfer, source) then Stale
                       else WrongState)
  {
    hide ManagerInv;
  }

  // ------------------------------------------------------------------------
  // The start of a pull

  // The store has no entry for the object and room for it.
  predicate Room(m: Manager, id: ObjectID, size: nat) {
    id !in m.store.entries && m.store.used + size <= m.store.capacity
  }

  // A running pull got its reservation, or had it already.
  ghost predicate Reserves(m: Manager, m': Manager, id: ObjectID, size: nat, checksum: nat)
    requires id in m.pulls && id in m'.pulls
  {
    if UnderPull(m, id) then m' == m
    else
      && m'.pulls == m.pulls[id := m.pulls[id].(created := true, size := Some(size), checksum := Some(checksum),
                                                 buffer := m'.pulls[id].buffer)]
      && m'.pulls[id].buffer.Some? && |m'.pulls[id].buffer.value| == size && m'.pulls[id].ranges == []
      && m'.store.entries.Keys == m.store.entries.Keys + {id} && m'.store.used == m.store.used + size
  }

  // The pull failed; a reservation it had is gone.
  ghost predicate GivesUp(m: Manager, m': Manager, id: ObjectID)
    requires id in m.pulls
  {
    if UnderPull(m, id) then Undone(m, m', id)
    else m'.store == m.store
         && m'.pulls == m.pulls[id := m.pulls[id].(phase := Failed, created := false, buffer := None, ranges := [])]
  }

  ghost predicate Configurable(m: Manager, id: ObjectID, size: Option<nat>, checksum: Option<nat>)
    requires id in m.pulls
  {
    && size.Some? && checksum.Some?
    && (m.pulls[id].size.Some? ==> m.pulls[id].size == size)
    && (m.pulls[id].checksum.Some? ==> m.pulls[id].checksum == checksum)
    && (UnderPull(m, id) || Room(m, id, size.value))
  }

  lemma ConfiguredIff(m: Manager, id: ObjectID, size: Option<nat>, checksum: Option<nat>)
    requires Local.StoreInv(m.store) && id in m.pulls && m.pulls[id].phase.Pulling? && Agrees(m, id)
    ensures var (m', error) := ConfigureOrFail(m, id, size, checksum);
      && (error.None? <==> Configurable(m, id, size, checksum)) && id in m'.pulls
      && (if error.None? then Reserves(m, m', id, size.value, checksum.value) else GivesUp(m, m', id))
  {
  }

  /** The metadata of a running transfer is attached exactly when it contradicts
      nothing and the target can be reserved; otherwise the pull fails. Messages
      of other transfers change nothing. */
  lemma BegunIff(m: Manager, id: ObjectID, size: nat, checksum: nat, transfer: Option<nat>, source: Option<nat>)
    requires ManagerInv(m)
    ensures var (m', error) := BeginTransfer(m, id, size, checksum, transfer, source);
      if !(id in m.pulls && m.pulls[id].phase.Pulling? && Addressed(m.pulls[id], transfer, source)) then
        m' == m && error.Some?
      else
        && (error.None? <==> Configurable(m, id, Some(size), Some(checksum))) && id in m'.pulls
        && (if error.None? then Reserves(m, m', id, size, checksum) else GivesUp(m, m', id))
  {
    hide Configurable, Reserves, GivesUp, ConfigureOrFail;
    if id in m.pulls && m.pulls[id].phase.Pulling? { ConfiguredIff(m, id, Some(size), Some(checksum)); }
  }

  // The record a demand joins or opens.
  function Joined(m: Manager, id: ObjectID): Pull {
    if id in m.pulls then m.pulls[id]
    else Pull(Phase.Waiting, None, None, {}, None, None, None, None, [], false)
  }

  // Nothing the demand names contradicts the record.
  predicate NamesAgree(p: Pull, d: Demand) {
    && (p.attempt.Some? && d.attempt.Some? ==> p.attempt == d.attempt)
    && (p.size.Some? && d.size.Some? ==> p.size == d.size)
    && (p.checksum.Some? && d.checksum.Some? ==> p.checksum == d.checksum)
  }

  // The local replica is what the demand names.
  predicate LocalFits(m: Manager, id: ObjectID, d: Demand, digest: Bytes -> nat)
    requires id in m.store.entries && m.store.entries[id].sealedData.Some?
  {
    var bytes := m.store.entries[id].sealedData.value;
    (d.size.Some? ==> |bytes| == d.size.value) && (d.checksum.Some? ==> digest(bytes) == d.checksum.value)
  }

  function Bind(a: Option<nat>, b: Option<nat>): Option<nat> { if a.Some? then a else b }

  /** Demand for a sealed replica: a failed pull only notes the waiter; otherwise
      it is ready exactly when nothing contradicts the record or the replica. */
  lemma LocalDemand(m: Manager, id: ObjectID, d: Demand, digest: Bytes -> nat)
    requires Sealed(m, id)
    ensures var (m', error), p := RequestPull(m, id, d, digest), Joined(m, id);
      if p.phase.Failed? then error.None? && m' == m.(pulls := m.pulls[id := p.(waiters := p.waiters + {d.token})])
      else
        && (error.None? <==> NamesAgree(p, d) && LocalFits(m, id, d, digest))
        && (error.Some? ==> m' == m)
        && (error.None? ==>
              var known :=
                if id in m.pulls then p else p.(size := d.size, checksum := d.checksum, attempt := d.attempt);
              m' == m.(pulls := m.pulls[id := known.(phase := Ready, waiters := p.waiters + {d.token})]))
  {
  }

  /** Demand without a local replica: contradictions change nothing; otherwise the
      record takes the waiter and the metadata, and with a source and no transfer
      under way one starts, if its target can be reserved. */
  lemma RemoteDemand(m: Manager, id: ObjectID, d: Demand, digest: Bytes -> nat)
    requires ManagerInv(m) && !Sealed(m, id)
    ensures var (m', error), p := RequestPull(m, id, d, digest), Joined(m, id);
      var bound := p.(attempt := Bind(p.attempt, d.attempt), size := Bind(p.size, d.size),
                      checksum := Bind(p.checksum, d.checksum), waiters := p.waiters + {d.token});
      if !NamesAgree(p, d) then m' == m && error == Some(Conflicting)
      else if p.phase.Failed? || p.phase.Pulling? || d.chosen.None? then
        m' == m.(pulls := m.pulls[id := bound]) && error.None?
      else
        var started := m.(pulls := m.pulls[id := bound.(phase := Pulling, source := d.chosen,
                                                        transfer := Some(d.nextTransfer))]);
        if bound.size.None? && bound.checksum.None? then m' == started && error.None?
        else
          && (error.None? <==> Configurable(started, id, bound.size, bound.checksum)) && id in m'.pulls
          && (if error.None? then Reserves(started, m', id, bound.size.value, bound.checksum.value)
              else GivesUp(started, m', id))
  {
    hide Configurable, Reserves, GivesUp, ConfigureOrFail, ManagerInv;
    StartedAgrees(m, id, d);
    if Starts(m, id, d) {
      var started := Started(m, id, d);
      ConfiguredIff(started, id, started.pulls[id].size, started.pulls[id].checksum);
    }
  }

  lemma StartedAgrees(m: Manager, id: ObjectID, d: Demand)
    requires ManagerInv(m) && !Sealed(m, id)
    ensures Starts(m, id, d) ==> Agrees(Started(m, id, d), id) && Local.StoreInv(m.store)
    ensures id in m.pulls ==> !m.pulls[id].phase.Ready?
  {
    if id in m.pulls { assert Agrees(m, id); }
  }

  // ------------------------------------------------------------------------
  // Failure, retry and deletion

  /** A failure report ends exactly the pulls that are still under way; what such a
      pull had reserved is given back, and a second report changes nothing. */
  lemma FailIff(m: Manager, id: ObjectID)
    requires ManagerInv(m)
    ensures var (m', error) := FailPull(m, id);
      && (error.Some? <==> id !in m.pulls)
      && (id in m.pulls ==>
            var p := m.pulls[id];
            if p.phase.Ready? || p.phase.Failed? then m' == m
            else
              && m'.pulls == m.pulls[id := p.(phase := Phase.Failed, buffer := None, ranges := [], created := false)]
              && if p.buffer.Some? then id in m.store.entries && Undone(m, m', id) else m'.store == m.store)
      && (id !in m.pulls ==> m' == m)
  {
    hide Local.StoreInv;
    if id in m.pulls { assert Agrees(m, id); }
  }

  /** A failed pull is forgotten exactly when no replica of the object is left. */
  lemma ResetIff(m: Manager, id: ObjectID)
    ensures var (m', error) := ResetFailed(m, id);
      && (error.Some? <==> id in m.pulls && m.pulls[id].phase.Failed? && id in m.store.entries)
      && (m' != m <==> id in m.pulls && m.pulls[id].phase.Failed? && id !in m.store.entries)
      && (m' != m ==> m' == m.(pulls := m.pulls - {id}))
  {
    if id in m.pulls { assert id !in m.pulls - {id}; }
  }

  /** A deletion takes exactly a sealed replica that nothing pins, and the record of
      the pull that brought it with it. */
  lemma DropIff(m: Manager, id: ObjectID)
    requires ManagerInv(m)
    ensures var m' := DropReplica(m, id);
      if Sealed(m, id) && m.store.entries[id].pins == {} then
        && m'.store.entries == m.store.entries - {id} && m'.store.used == m.store.used - m.store.entries[id].size
        && (id in m'.pulls <==> id in m.pulls && m.pulls[id].phase.Pulling?)
        && m'.pulls - {id} == m.pulls - {id}
      else m' == m
  {
  }

  /** Main result: a failed pull can be tried again. After a reset, demand that names a
      source and what to expect starts a new transfer into an empty buffer, if there is
      room for it. */
  lemma FailedCanRestart(m: Manager, id: ObjectID, d: Demand, digest: Bytes -> nat)
    requires ManagerInv(m) && id in m.pulls && m.pulls[id].phase.Failed? && id !in m.store.entries
    requires d.chosen.Some? && d.size.Some? && d.checksum.Some? && m.store.used + d.size.value <= m.store.capacity
    ensures var t := Act(Act(m, id, Resets, digest), id, Requests(d), digest);
      && ManagerInv(t) && id in t.pulls && t.pulls[id].phase.Pulling? && t.pulls[id].buffer.Some?
      && t.pulls[id].source == d.chosen && t.pulls[id].transfer == Some(d.nextTransfer)
      && t.pulls[id].size == d.size && t.pulls[id].checksum == d.checksum
      && t.pulls[id].ranges == [] && t.pulls[id].waiters == {d.token}
  {
    hide ConfigureOrFail, ManagerInv, RequestPull, Local.Create;
    var reset := Act(m, id, Resets, digest);
    ResetIff(m, id);
    ActKeepsInv(m, id, Resets, digest);
    ActKeepsInv(reset, id, Requests(d), digest);
    RemoteDemand(reset, id, d, digest);
  }

  // ------------------------------------------------------------------------
  // Delivery

  // A running pull of an object with these bytes: what arrived is right.
  ghost predicate Filling(m: Manager, id: ObjectID, content: Bytes) {
    && ManagerInv(m) && UnderPull(m, id) && m.pulls[id].size == Some(|content|)
    && m.pulls[id].buffer.Some? && |m.pulls[id].buffer.value| == |content|
    && forall b: nat :: b < |content| && Covers(m.pulls[id].ranges, b) ==> m.pulls[id].buffer.value[b] == content[b]
  }

  ghost predicate SliceOf(content: Bytes, c: Chunk) {
    c.offset + |c.payload| <= |content| && forall i: nat :: i < |c.payload| ==> c.payload[i] == content[c.offset + i]
  }

  // Some chunk brings this byte.
  ghost predicate Brought(chunks: seq<Chunk>, b: nat) {
    exists i :: 0 <= i < |chunks| && chunks[i].offset <= b < chunks[i].offset + |chunks[i].payload|
  }

  ghost function Received(m: Manager, id: ObjectID, chunks: seq<Chunk>): Manager
    decreases |chunks|
  {
    if chunks == [] then m
    else Received(ReceiveChunk(m, id, chunks[0].payload, chunks[0].offset, None, None).0, id, chunks[1..])
  }

  lemma SliceIsTaken(m: Manager, id: ObjectID, content: Bytes, c: Chunk)
    requires Filling(m, id, content) && SliceOf(content, c)
    ensures var (m', error) := ReceiveChunk(m, id, c.payload, c.offset, None, None);
      && error.None? && Filling(m', id, content) && m'.pulls[id].checksum == m.pulls[id].checksum
      && forall b: nat ::
           Covers(m'.pulls[id].ranges, b) <==> Covers(m.pulls[id].ranges, b) || c.offset <= b < c.offset + |c.payload|
  {
    hide ReceiveChunk, Covers, Canonical;
    assert m.pulls[id].buffer.Some?;
    ChunkIsTakenIff(m, id, c.payload, c.offset, None, None);
    ReceiveKeeps(m, id, c.payload, c.offset, None, None);
  }

  lemma {:induction false} SlicesAreTaken(m: Manager, id: ObjectID, content: Bytes, chunks: seq<Chunk>)
    requires Filling(m, id, content) && forall c :: c in chunks ==> SliceOf(content, c)
    ensures var t := Received(m, id, chunks);
      && Filling(t, id, content) && t.pulls[id].checksum == m.pulls[id].checksum
      && forall b: nat :: Covers(t.pulls[id].ranges, b) <==> Covers(m.pulls[id].ranges, b) || Brought(chunks, b)
    decreases |chunks|
  {
    hide ReceiveChunk, Covers, SliceOf, ManagerInv;
    if chunks == [] {
    } else {
      var next := ReceiveChunk(m, id, chunks[0].payload, chunks[0].offset, None, None).0;
      SliceIsTaken(m, id, content, chunks[0]);
      SlicesAreTaken(next, id, content, chunks[1..]);
      forall b: nat
        ensures Brought(chunks, b) <==>
                  chunks[0].offset <= b < chunks[0].offset + |chunks[0].payload| || Brought(chunks[1..], b)
      {
        BroughtFirst(chunks, b);
      }
    }
  }

  lemma BroughtFirst(chunks: seq<Chunk>, b: nat)
    requires chunks != []
    ensures Brought(chunks, b) <==>
              chunks[0].offset <= b < chunks[0].offset + |chunks[0].payload| || Brought(chunks[1..], b)
  {
    if Brought(chunks[1..], b) {
      var i :| 0 <= i < |chunks[1..]| && chunks[1..][i].offset <= b < chunks[1..][i].offset + |chunks[1..][i].payload|;
      assert chunks[i + 1] == chunks[1..][i];
    }
    if Brought(chunks, b) {
      var i :| 0 <= i < |chunks| && chunks[i].offset <= b < chunks[i].offset + |chunks[i].payload|;
      assert i > 0 ==> chunks[1..][i - 1] == chunks[i];
    }
  }

  /** Main result: slices of an object, in any order, overlapping and repeated,
      are all taken; the pull then becomes ready with exactly the object's bytes if
      and only if they bring every byte and the digest is the recorded one. */
  lemma DeliveryCompletes(m: Manager, id: ObjectID, content: Bytes, chunks: seq<Chunk>, digest: Bytes -> nat)
    requires Filling(m, id, content) && (forall c :: c in chunks ==> SliceOf(content, c)) && m.pulls[id].ranges == []
    requires m.pulls[id].checksum.Some?
    ensures var t := FinishPull(Received(m, id, chunks), id, None, None, digest, true).0;
      && (id in t.pulls && t.pulls[id].phase.Ready? <==>
            (forall b: nat :: b < |content| ==> Brought(chunks, b)) && digest(content) == m.pulls[id].checksum.value)
      && (id in t.pulls && t.pulls[id].phase.Ready? ==> Local.Get(t.store, id) == Local.Ok(content))
  {
    hide Received, FinishPull, Brought, SliceOf, ManagerInv, Covers;
    SlicesAreTaken(m, id, content, chunks);
    var u := Received(m, id, chunks);
    NothingCovered();
    FinishIff(u, id, None, None, digest, true);
    if Whole(u.pulls[id]) { assert u.pulls[id].buffer.value == content; }
  }

  lemma NothingCovered()
    ensures forall b: nat :: !Covers([], b)
  {
  }

  // ------------------------------------------------------------------------
  // Whether a ready replica is the one its digest names

  // The replica of a ready pull has the recorded size and digest, where recorded.
  ghost predicate Genuine(m: Manager, id: ObjectID, digest: Bytes -> nat) {
    id in m.pulls && m.pulls[id].phase.Ready? ==>
      && Sealed(m, id)
      && var bytes := m.store.entries[id].sealedData.value;
      && (m.pulls[id].size.Some? ==> |bytes| == m.pulls[id].size.value)
      && (m.pulls[id].checksum.Some? ==> digest(bytes) == m.pulls[id].checksum.value)
  }

  ghost predicate AllGenuine(m: Manager, digest: Bytes -> nat) { forall id :: id in m.pulls ==> Genuine(m, id, digest) }

  // The demand names whatever the record names.
  predicate NamesAll(p: Pull, d: Demand) {
    (p.size.Some? ==> d.size.Some?) && (p.checksum.Some? ==> d.checksum.Some?)
  }

  // A demand for a sealed replica whose record is not ready yet names all of it.
  ghost predicate Careful(m: Manager, id: ObjectID, e: Event) {
    e.Requests? && Sealed(m, id) && id in m.pulls && !m.pulls[id].phase.Ready? && !m.pulls[id].phase.Failed? ==>
      NamesAll(m.pulls[id], e.demand)
  }

  lemma DemandKeepsGenuine(m: Manager, id: ObjectID, d: Demand, digest: Bytes -> nat)
    requires ManagerInv(m) && Genuine(m, id, digest) && Careful(m, id, Requests(d))
    ensures Genuine(RequestPull(m, id, d, digest).0, id, digest)
  {
    hide RequestPull, ManagerInv, Configurable;
    if Sealed(m, id) { LocalDemand(m, id, d, digest); } else { RemoteDemand(m, id, d, digest); }
  }

  lemma FinishKeepsGenuine(m: Manager, id: ObjectID, transfer: Option<nat>, source: Option<nat>, digest: Bytes -> nat,
                           published: bool)
    requires ManagerInv(m) && Genuine(m, id, digest)
    ensures Genuine(FinishPull(m, id, transfer, source, digest, published).0, id, digest)
  {
    hide FinishPull, ManagerInv, Whole;
    if UnderPull(m, id) && Addressed(m.pulls[id], transfer, source) {
      PullFacts(m, id);
      FinishIff(m, id, transfer, source, digest, published);
    } else {
      FinishRefused(m, id, transfer, source, digest, published);
    }
  }

  lemma OthersKeepGenuine(m: Manager, id: ObjectID, e: Event, digest: Bytes -> nat)
    requires ManagerInv(m) && Genuine(m, id, digest) && Apart(m, id, e) && !e.Requests? && !e.Finishes?
    ensures Genuine(Act(m, id, e, digest), id, digest)
  {
    hide OverlapAgrees, Add, Local.Overwrite;
    if e.Touches? && Sealed(m, id) && !e.op.Deletes? { Local.SealedStays(m.store, id, e.op); }
  }

  lemma ActKeepsGenuine(m: Manager, id: ObjectID, e: Event, digest: Bytes -> nat)
    requires ManagerInv(m) && AllGenuine(m, digest) && Apart(m, id, e) && Careful(m, id, e)
    ensures AllGenuine(Act(m, id, e, digest), digest)
  {
    hide Act, ManagerInv, Apart, Careful, OnlyTouches, Genuine;
    ActTouchesOnlyOwn(m, id, e, digest);
    OwnGenuine(m, id, e, digest);
    forall other | other in Act(m, id, e, digest).pulls && other != id
      ensures Genuine(Act(m, id, e, digest), other, digest)
    {
      OtherGenuine(m, Act(m, id, e, digest), id, other, digest);
    }
  }

  lemma OwnGenuine(m: Manager, id: ObjectID, e: Event, digest: Bytes -> nat)
    requires ManagerInv(m) && AllGenuine(m, digest) && Apart(m, id, e) && Careful(m, id, e)
    ensures Genuine(Act(m, id, e, digest), id, digest)
  {
    hide ManagerInv, Apart, Careful, RequestPull, FinishPull;
    assert Genuine(m, id, digest);
    match e
    case Requests(d) => DemandKeepsGenuine(m, id, d, digest);
    case Finishes(transfer, source, published) => FinishKeepsGenuine(m, id, transfer, source, digest, published);
    case _ => OthersKeepGenuine(m, id, e, digest);
  }

  lemma OtherGenuine(m: Manager, m': Manager, id: ObjectID, other: ObjectID, digest: Bytes -> nat)
    requires AllGenuine(m, digest) && OnlyTouches(m, m', id) && other != id && other in m'.pulls
    ensures Genuine(m', other, digest)
  {
    assert other in m'.pulls - {id} && other in m.pulls - {id};
    assert m'.pulls[other] == (m'.pulls - {id})[other] == (m.pulls - {id})[other] == m.pulls[other];
    assert Genuine(m, other, digest);
    if other in m.store.entries {
      assert other in m.store.entries - {id};
      assert m'.store.entries[other] == (m'.store.entries - {id})[other] == (m.store.entries - {id})[other];
    }
  }

  // Every demand of the run is careful.
  ghost predicate CarefulRun(s: Site, messages: seq<Message>, digest: Bytes -> nat)
    decreases |messages|
  {
    messages == [] ||
    (Careful(s.manager, messages[0].id, messages[0].event)
     && CarefulRun(Step(s, messages[0].id, messages[0].event, digest), messages[1..], digest))
  }

  /** Main result: over every run whose demands name what the records name, a
      ready pull's replica has the recorded size and digest. */
  lemma {:induction false} ReadyIsGenuine(s: Site, messages: seq<Message>, digest: Bytes -> nat, t: Site)
    requires SiteInv(s) && AllGenuine(s.manager, digest) && Reaches(s, messages, digest, t)
    requires CarefulRun(s, messages, digest)
    ensures SiteInv(t) && AllGenuine(t.manager, digest)
    decreases |messages|
  {
    hide ManagerInv, Act, Foreign, Careful, Genuine, Apart;
    if messages == [] {
    } else {
      StaysApart(s, messages[0].id, messages[0].event);
      StepKeepsSite(s, messages[0].id, messages[0].event, digest);
      ActKeepsGenuine(s.manager, messages[0].id, messages[0].event, digest);
      ReadyIsGenuine(Step(s, messages[0].id, messages[0].event, digest), messages[1..], digest, t);
    }
  }

  // Demands that name size and digest, as every caller in the Node makes them.
  ghost predicate FullyNamed(messages: seq<Message>) {
    forall x :: x in messages && x.event.Requests? ==> x.event.demand.size.Some? && x.event.demand.checksum.Some?
  }

  /** Demands that name both are always careful. */
  lemma {:induction false} NamingIsCareful(s: Site, messages: seq<Message>, digest: Bytes -> nat)
    requires FullyNamed(messages)
    ensures CarefulRun(s, messages, digest)
    decreases |messages|
  {
    hide Step;
    if messages == [] {
    } else {
      assert messages[0] in messages && forall x :: x in messages[1..] ==> x in messages;
      NamingIsCareful(Step(s, messages[0].id, messages[0].event, digest), messages[1..], digest);
    }
  }

  // Whatever sealed replica meets the demand, the ready pull is genuine.
  ghost predicate AlwaysGenuine(p: Pull, d: Demand) {
    forall m: Manager, id: ObjectID, digest: Bytes -> nat ::
      id in m.pulls && m.pulls[id] == p && Sealed(m, id) && RequestPull(m, id, d, digest).1.None? ==>
        Genuine(RequestPull(m, id, d, digest).0, id, digest)
  }

  /** The demands that are safe for a record which is not ready: exactly those
      that name whatever the record names, unless they contradict it. */
  lemma SafeIffNamesAll(p: Pull, d: Demand)
    requires !p.phase.Ready? && !p.phase.Failed?
    ensures AlwaysGenuine(p, d) <==> NamesAll(p, d) || !NamesAgree(p, d)
  {
    hide RequestPull, Genuine;
    if NamesAll(p, d) || !NamesAgree(p, d) {
      forall m: Manager, id: ObjectID, digest: Bytes -> nat
        | id in m.pulls && m.pulls[id] == p && Sealed(m, id) && RequestPull(m, id, d, digest).1.None?
        ensures Genuine(RequestPull(m, id, d, digest).0, id, digest)
      {
        NamedIsGenuine(m, id, d, digest);
      }
    } else {
      var m, id, digest := Deceived(p, d);
      assert !Genuine(RequestPull(m, id, d, digest).0, id, digest);
    }
  }

  lemma NamedIsGenuine(m: Manager, id: ObjectID, d: Demand, digest: Bytes -> nat)
    requires id in m.pulls && Sealed(m, id) && !m.pulls[id].phase.Failed? && RequestPull(m, id, d, digest).1.None?
    requires NamesAll(m.pulls[id], d) || !NamesAgree(m.pulls[id], d)
    ensures Genuine(RequestPull(m, id, d, digest).0, id, digest)
  {
    hide RequestPull;
    LocalDemand(m, id, d, digest);
  }

  function Filler(n: nat): Bytes { seq(n, i => 0) }

  // A replica that fits what the demand names, but not what the record names.
  lemma Deceived(p: Pull, d: Demand) returns (m: Manager, id: ObjectID, digest: Bytes -> nat)
    requires !p.phase.Ready? && !p.phase.Failed? && !NamesAll(p, d) && NamesAgree(p, d)
    ensures id in m.pulls && m.pulls[id] == p && Sealed(m, id) && RequestPull(m, id, d, digest).1.None?
    ensures !Genuine(RequestPull(m, id, d, digest).0, id, digest)
  {
    hide RequestPull;
    id := ObjectID(TaskID(0), 0);
    var n: nat := if d.size.Some? then d.size.value else if p.size.Some? then p.size.value + 1 else 0;
    var sum: nat := if d.checksum.Some? then d.checksum.value else if p.checksum.Some? then p.checksum.value + 1 else 0;
    digest := (bytes: Bytes) => sum;
    m := Manager(Local.Store(map[id := Local.Entry(n, None, Some(Filler(n)), [], {})], n, n), map[id := p]);
    LocalDemand(m, id, d, digest);
  }

  const DECEIVED_ID := ObjectID(TaskID(0), 0)

  // A pull of one object that waits for a source, beside what the store holds of it.
  function Waits(entry: Option<Local.Entry>, sum: nat, phase: Phase, waiters: set<nat>, building: set<ObjectID>): Site {
    var p := NEW.(checksum := Some(sum), phase := phase, waiters := waiters);
    var entries := if entry.Some? then map[DECEIVED_ID := entry.value] else map[];
    Site(Manager(Local.Store(entries, if entry.Some? then 1 else 0, 1), map[DECEIVED_ID := p]), building)
  }

  // One permitted step.
  ghost predicate Moves(s: Site, e: Event, digest: Bytes -> nat, t: Site) {
    MayAct(s, DECEIVED_ID, e) && Step(s, DECEIVED_ID, e, digest) == t
  }

  // A demand with a digest waits; another writer then seals other bytes.
  lemma OthersSeal(digest: Bytes -> nat, sum: nat, byte: Byte)
    ensures var empty := Site(Manager(Local.Store(map[], 0, 1), map[]), {});
      Moves(empty, Requests(Demand(0, None, Some(sum), None, None, 0)), digest,
            Waits(None, sum, Phase.Waiting, {0}, {}))
    ensures var created := Local.Entry(1, Some([0]), None, [], {});
      && Moves(Waits(None, sum, Phase.Waiting, {0}, {}), Touches(Local.Creates(1)), digest,
               Waits(Some(created), sum, Phase.Waiting, {0}, {DECEIVED_ID}))
      && Moves(Waits(Some(created), sum, Phase.Waiting, {0}, {DECEIVED_ID}), Touches(Local.Writes([byte], 0)), digest,
               Waits(Some(created.(buffer := Some([byte]), ranges := [Range(0, 1)])), sum, Phase.Waiting, {0},
                     {DECEIVED_ID}))
  {
    var none: set<nat> := {};
    var nobody: set<ObjectID> := {};
    assert none + {0} == {0} && nobody + {DECEIVED_ID} == {DECEIVED_ID};
    assert Local.Zeros(1) == [0] && Local.Overwrite([0], 0, [byte]) == [byte];
  }

  lemma ThenDemanded(digest: Bytes -> nat, sum: nat, byte: Byte)
    ensures var sealed := Local.Entry(1, None, Some([byte]), [], {});
      && Moves(Waits(Some(Local.Entry(1, Some([byte]), None, [Range(0, 1)], {})), sum, Phase.Waiting, {0},
                     {DECEIVED_ID}),
               Touches(Local.Seals), digest, Waits(Some(sealed), sum, Phase.Waiting, {0}, {}))
      && Moves(Waits(Some(sealed), sum, Phase.Waiting, {0}, {}), Requests(Demand(1, None, None, None, None, 0)), digest,
               Waits(Some(sealed), sum, Phase.Ready, {0, 1}, {}))
  {
    var some: set<nat> := {0};
    assert some + {1} == {0, 1} && {DECEIVED_ID} - {DECEIVED_ID} == {};
  }

  lemma Before(s: Site, e: Event, digest: Bytes -> nat, t: Site, rest: seq<Message>, u: Site)
    returns (messages: seq<Message>)
    requires Moves(s, e, digest, t) && Reaches(t, rest, digest, u)
    ensures messages == [Message(DECEIVED_ID, e)] + rest && Reaches(s, messages, digest, u)
  {
    messages := [Message(DECEIVED_ID, e)] + rest;
    assert messages[1..] == rest;
  }

  /** A demand that names nothing makes a waiting pull ready on bytes whose digest
      is not the recorded one: such a run exists for every digest and byte. */
  lemma UnnamedDemandDeceives(digest: Bytes -> nat, sum: nat, byte: Byte) returns (messages: seq<Message>, t: Site)
    requires digest([byte]) != sum
    ensures Reaches(Site(Manager(Local.Store(map[], 0, 1), map[]), {}), messages, digest, t)
    ensures DECEIVED_ID in t.manager.pulls && t.manager.pulls[DECEIVED_ID].phase.Ready?
    ensures t.manager.pulls[DECEIVED_ID].checksum == Some(sum)
    ensures Local.Get(t.manager.store, DECEIVED_ID) == Local.Ok([byte])
  {
    hide Moves;
    OthersSeal(digest, sum, byte);
    ThenDemanded(digest, sum, byte);
    var created := Local.Entry(1, Some([0]), None, [], {});
    var sealed := Local.Entry(1, None, Some([byte]), [], {});
    var idle := Waits(None, sum, Phase.Waiting, {0}, {});
    var written := created.(buffer := Some([byte]), ranges := [Range(0, 1)]);
    t := Waits(Some(sealed), sum, Phase.Ready, {0, 1}, {});
    messages := Before(Waits(Some(sealed), sum, Phase.Waiting, {0}, {}), Requests(Demand(1, None, None, None, None, 0)),
                       digest, t, [], t);
    messages := Before(Waits(Some(written), sum, Phase.Waiting, {0}, {DECEIVED_ID}), Touches(Local.Seals), digest,
                       Waits(Some(sealed), sum, Phase.Waiting, {0}, {}), messages, t);
    messages := Before(Waits(Some(created), sum, Phase.Waiting, {0}, {DECEIVED_ID}),
                       Touches(Local.Writes([byte], 0)), digest,
                       Waits(Some(written), sum, Phase.Waiting, {0}, {DECEIVED_ID}), messages, t);
    messages := Before(idle, Touches(Local.Creates(1)), digest,
                       Waits(Some(created), sum, Phase.Waiting, {0}, {DECEIVED_ID}), messages, t);
    messages := Before(Site(Manager(Local.Store(map[], 0, 1), map[]), {}),
                       Requests(Demand(0, None, Some(sum), None, None, 0)), digest, idle, messages, t);
  }
}
