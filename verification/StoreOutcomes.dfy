/** When the store's operations succeed, and what a whole run of them leaves:
    the bytes written last and the pins not released. */
module StoreOutcomes {
  import opened Ids
  import opened ByteRanges
  import opened LocalStore

  // ------------------------------------------------------------------------
  // Acceptance

  /** A reservation is made exactly for a new object that fits; it holds no byte yet. */
  lemma CreateIff(s: Store, id: ObjectID, size: nat)
    requires StoreInv(s)
    ensures var made := Create(s, id, size);
      && (made.Ok? <==> id !in s.entries && SizeOf(s.entries) + size <= s.capacity)
      && (made == Err(AlreadyExists) <==> id in s.entries)
      && (made.Ok? ==>
            && made.value.used == s.used + size && id in made.value.entries
            && var e := made.value.entries[id];
               e.size == size && !e.Sealed() && e.pins == {} && forall b :: !Covers(e.ranges, b))
  {
  }

  /** A write is taken exactly when it stays inside an unsealed replica. */
  lemma WriteIff(s: Store, id: ObjectID, payload: seq<Byte>, offset: int)
    requires StoreInv(s)
    ensures Write(s, id, payload, offset).Ok? <==>
              0 <= offset && id in s.entries && !s.entries[id].Sealed() && offset + |payload| <= s.entries[id].size
    ensures Write(s, id, payload, offset) == Err(AlreadySealed) <==>
              0 <= offset && id in s.entries && s.entries[id].Sealed()
  {
    if id in s.entries { UnsealedHasBuffer(s, id); }
  }

  /** Only sealed replicas are read, and sealing publishes the buffer as it is. */
  lemma ReadsAreSealed(s: Store, id: ObjectID)
    requires StoreInv(s)
    ensures Get(s, id).Ok? <==> id in s.entries && s.entries[id].Sealed()
    ensures Seal(s, id).Ok? ==>
              id in s.entries && s.entries[id].buffer.Some?
              && Get(Seal(s, id).value, id) == Ok(s.entries[id].buffer.value)
  {
    if id in s.entries { UnsealedHasBuffer(s, id); }
  }

  // The replica is gone and its capacity is free again; nothing else moved.
  ghost predicate Freed(s: Store, t: Store, id: ObjectID)
    requires id in s.entries
  {
    && id !in t.entries && t.entries == s.entries - {id}
    && t.used == s.used - s.entries[id].size && t.capacity == s.capacity
  }

  /** An unfinished replica can be given up, a finished one deleted once nothing
      pins it; both free exactly its capacity. */
  lemma RemovalIff(s: Store, id: ObjectID)
    requires StoreInv(s)
    ensures var (t, deleted) := Delete(s, id);
      (deleted <==> id in s.entries && s.entries[id].pins == {}) && if deleted then Freed(s, t, id) else t == s
    ensures var aborted := Abort(s, id);
      && (aborted.Ok? <==> id in s.entries ==> !s.entries[id].Sealed())
      && (aborted.Ok? ==>
            && (aborted.value.1 <==> id in s.entries)
            && if aborted.value.1 then Freed(s, aborted.value.0, id) else aborted.value.0 == s)
  {
  }

  // ------------------------------------------------------------------------
  // The last write of every byte

  // This request writes byte b of the replica.
  predicate Hits(r: Request, id: ObjectID, size: nat, b: nat) {
    && r.id == id && r.op.Writes? && 0 <= r.op.offset && r.op.offset + |r.op.payload| <= size
    && r.op.offset <= b < r.op.offset + |r.op.payload|
  }

  // What was written at b last; writes outside the replica are refused.
  function Latest(requests: seq<Request>, id: ObjectID, size: nat, b: nat, known: Option<Byte>): Option<Byte>
    decreases |requests|
  {
    if requests == [] then known
    else
      var hit := Hits(requests[0], id, size, b);
      Latest(requests[1..], id, size, b,
             if hit then Some(requests[0].op.payload[b - requests[0].op.offset]) else known)
  }

  // What an unsealed replica holds at b, if anything was written there.
  function Held(s: Store, id: ObjectID, b: nat): Option<Byte>
    requires id in s.entries
  {
    var e := s.entries[id];
    if e.buffer.Some? && b < |e.buffer.value| && Covers(e.ranges, b) then Some(e.buffer.value[b]) else None
  }

  // Only writes concern this replica; other replicas see anything.
  ghost predicate OnlyWrites(requests: seq<Request>, id: ObjectID) {
    forall r :: r in requests && r.id == id ==> r.op.Writes?
  }

  lemma OneWrite(s: Store, r: Request, id: ObjectID, b: nat)
    requires StoreInv(s) && id in s.entries && !s.entries[id].Sealed() && b < s.entries[id].size
    requires r.id == id ==> r.op.Writes?
    ensures var t := Perform(s, r.id, r.op);
      && id in t.entries && !t.entries[id].Sealed() && t.entries[id].size == s.entries[id].size
      && Held(t, id, b) == if Hits(r, id, s.entries[id].size, b) then Some(r.op.payload[b - r.op.offset])
                           else Held(s, id, b)
  {
    hide SizeOf;
    if r.id != id {
      OnlyOwnEntry(s, r.id, r.op);
      assert id in s.entries - {r.id};
      assert Perform(s, r.id, r.op).entries[id] == (Perform(s, r.id, r.op).entries - {r.id})[id];
    } else {
      UnsealedHasBuffer(s, id);
      WriteIff(s, id, r.op.payload, r.op.offset);
      if Write(s, id, r.op.payload, r.op.offset).Ok? { WriteIsExact(s, id, r.op.payload, r.op.offset, b); }
    }
  }

  lemma {:induction false} WritesDecide(s: Store, requests: seq<Request>, id: ObjectID, b: nat)
    requires StoreInv(s) && id in s.entries && !s.entries[id].Sealed() && b < s.entries[id].size
    requires OnlyWrites(requests, id)
    ensures var t := PerformAll(s, requests);
      && StoreInv(t) && id in t.entries && !t.entries[id].Sealed() && t.entries[id].size == s.entries[id].size
      && Held(t, id, b) == Latest(requests, id, s.entries[id].size, b, Held(s, id, b))
    decreases |requests|
  {
    hide StoreInv, Held, Perform, Hits;
    if requests == [] {
    } else {
      PerformKeepsInv(s, requests[0].id, requests[0].op);
      OneWrite(s, requests[0], id, b);
      WritesDecide(Perform(s, requests[0].id, requests[0].op), requests[1..], id, b);
    }
  }

  lemma {:induction false} StaysOpen(s: Store, requests: seq<Request>, id: ObjectID)
    requires StoreInv(s) && id in s.entries && !s.entries[id].Sealed() && OnlyWrites(requests, id)
    ensures var t := PerformAll(s, requests);
      StoreInv(t) && id in t.entries && !t.entries[id].Sealed() && t.entries[id].size == s.entries[id].size
    decreases |requests|
  {
    hide SizeOf;
    if requests == [] {
    } else {
      var r := requests[0];
      PerformKeepsInv(s, r.id, r.op);
      OnlyOwnEntry(s, r.id, r.op);
      assert r.id != id ==> id in s.entries - {r.id};
      assert r.id != id ==> Perform(s, r.id, r.op).entries[id] == (Perform(s, r.id, r.op).entries - {r.id})[id];
      StaysOpen(Perform(s, r.id, r.op), requests[1..], id);
    }
  }

  // Every byte below the size was written.
  ghost predicate AllWritten(requests: seq<Request>, id: ObjectID, size: nat) {
    forall b: nat :: b < size ==> Latest(requests, id, size, b, None).Some?
  }

  lemma LatestOfRun(s: Store, id: ObjectID, size: nat, requests: seq<Request>, b: nat)
    requires StoreInv(s) && Create(s, id, size).Ok? && OnlyWrites(requests, id) && b < size
    ensures var t := PerformAll(Create(s, id, size).value, requests);
      && StoreInv(t) && id in t.entries && t.entries[id].size == size
      && Held(t, id, b) == Latest(requests, id, size, b, None)
      && (Covers(t.entries[id].ranges, b) <==> Held(t, id, b).Some?)
  {
    CreateKeepsInv(s, id, size);
    CreateIff(s, id, size);
    WritesDecide(Create(s, id, size).value, requests, id, b);
    UnsealedHasBuffer(PerformAll(Create(s, id, size).value, requests), id);
  }

  /** Main result: whatever else the store does, a reserved replica can be sealed
      exactly when every byte was written, and then each byte reads as it was written
      last. */
  lemma ReadsLastWrites(s: Store, id: ObjectID, size: nat, requests: seq<Request>)
    requires StoreInv(s) && Create(s, id, size).Ok? && OnlyWrites(requests, id)
    ensures var t := PerformAll(Create(s, id, size).value, requests);
      && (Seal(t, id).Ok? <==> AllWritten(requests, id, size))
      && (Seal(t, id).Ok? ==>
            var read := Get(Seal(t, id).value, id);
            && read.Ok? && |read.value| == size
            && forall b: nat :: b < size ==> Latest(requests, id, size, b, None) == Some(read.value[b]))
  {
    hide Latest, Seal, Get, Write, Perform, SizeOf;
    CreateKeepsInv(s, id, size);
    CreateIff(s, id, size);
    var t := PerformAll(Create(s, id, size).value, requests);
    StaysOpen(Create(s, id, size).value, requests, id);
    UnsealedHasBuffer(t, id);
    SealIffWritten(t, id);
    ReadsAreSealed(t, id);
    forall b: nat | b < size
      ensures Held(t, id, b) == Latest(requests, id, size, b, None)
      ensures Covers(t.entries[id].ranges, b) <==> Latest(requests, id, size, b, None).Some?
    {
      LatestOfRun(s, id, size, requests, b);
    }
  }

  // ------------------------------------------------------------------------
  // The pins not released

  // Whether the token is held after the run: the last request about it decides.
  function HeldPin(requests: seq<Request>, id: ObjectID, token: nat, before: bool): bool
    decreases |requests|
  {
    if requests == [] then before
    else
      HeldPin(requests[1..], id, token,
              if requests[0] == Request(id, Pins(token)) then true
              else before && requests[0] != Request(id, Unpins(token)))
  }

  lemma OnePin(s: Store, r: Request, id: ObjectID, token: nat)
    requires StoreInv(s) && id in s.entries && s.entries[id].Sealed() && r != Request(id, Deletes)
    ensures var t := Perform(s, r.id, r.op);
      && id in t.entries && t.entries[id].Sealed()
      && (token in t.entries[id].pins <==>
            r == Request(id, Pins(token)) || (token in s.entries[id].pins && r != Request(id, Unpins(token))))
  {
    hide SizeOf;
    if r.id != id {
      OnlyOwnEntry(s, r.id, r.op);
      assert id in s.entries - {r.id};
      assert Perform(s, r.id, r.op).entries[id] == (Perform(s, r.id, r.op).entries - {r.id})[id];
    }
  }

  /** Main result: over every run without a deletion, the pins of a sealed replica
      are exactly the tokens pinned and not released since. */
  lemma {:induction false} PinsAreUnreleased(s: Store, requests: seq<Request>, id: ObjectID, token: nat)
    requires StoreInv(s) && id in s.entries && s.entries[id].Sealed() && Request(id, Deletes) !in requests
    ensures var t := PerformAll(s, requests);
      && StoreInv(t) && id in t.entries && t.entries[id].Sealed()
      && (token in t.entries[id].pins <==> HeldPin(requests, id, token, token in s.entries[id].pins))
    decreases |requests|
  {
    hide StoreInv, Perform;
    if requests == [] {
    } else {
      PerformKeepsInv(s, requests[0].id, requests[0].op);
      OnePin(s, requests[0], id, token);
      PinsAreUnreleased(Perform(s, requests[0].id, requests[0].op), requests[1..], id, token);
    }
  }

  /** A sealed replica can be deleted exactly when every pin of it was released. */
  lemma DeletableIffReleased(s: Store, requests: seq<Request>, id: ObjectID)
    requires StoreInv(s) && id in s.entries && s.entries[id].Sealed() && Request(id, Deletes) !in requests
    ensures Delete(PerformAll(s, requests), id).1 <==>
              forall token: nat :: !HeldPin(requests, id, token, token in s.entries[id].pins)
  {
    hide HeldPin, StoreInv, Perform;
    var t := PerformAll(s, requests);
    PinsAreUnreleased(s, requests, id, 0);
    RemovalIff(t, id);
    forall token: nat
      ensures token in t.entries[id].pins <==> HeldPin(requests, id, token, token in s.entries[id].pins)
    {
      PinsAreUnreleased(s, requests, id, token);
    }
    if t.entries[id].pins != {} {
      var token :| token in t.entries[id].pins;
      assert HeldPin(requests, id, token, token in s.entries[id].pins);
    }
  }
}
