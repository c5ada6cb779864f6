/** One node's capacity-bounded store of immutable replicas: reserve, write in
    any order, seal once, pin. */
module LocalStore {
  import opened Ids
  import opened ByteRanges

  datatype Entry = Entry(size: nat, buffer: Option<seq<Byte>>, sealedData: Option<seq<Byte>>, ranges: seq<Range>,
                         pins: set<nat>)
  {
    predicate Sealed() { sealedData.Some? }
  }

  datatype Store = Store(entries: map<ObjectID, Entry>, used: int, capacity: nat)

  datatype StoreError = AlreadyExists | StoreFull | NotFound | AlreadySealed | NotSealed | InvalidWrite | Incomplete
  datatype Result<+T> = Ok(value: T) | Err(error: StoreError)

  // ------------------------------------------------------------------------
  // Operations

  function Zeros(n: nat): (z: seq<Byte>)
    ensures |z| == n
  {
    seq(n, i => 0)
  }

  function Create(s: Store, id: ObjectID, size: nat): Result<Store> {
    if id in s.entries then Err(AlreadyExists)
    else if s.used + size > s.capacity then Err(StoreFull)
    else Ok(s.(entries := s.entries[id := Entry(size, Some(Zeros(size)), None, [], {})], used := s.used + size))
  }

  function Overwrite(buffer: seq<Byte>, offset: nat, payload: seq<Byte>): seq<Byte>
    requires offset + |payload| <= |buffer|
  {
    buffer[..offset] + payload + buffer[offset + |payload|..]
  }

  function Write(s: Store, id: ObjectID, payload: seq<Byte>, offset: int): Result<Store> {
    if offset < 0 then Err(InvalidWrite)
    else if id !in s.entries then Err(NotFound)
    else
      var e := s.entries[id];
      if e.Sealed() || e.buffer.None? then Err(AlreadySealed)
      else if offset + |payload| > e.size || offset + |payload| > |e.buffer.value| then Err(InvalidWrite)
      else Ok(s.(entries := s.entries[id := e.(buffer := Some(Overwrite(e.buffer.value, offset, payload)),
                                              ranges := Add(e.ranges, offset, offset + |payload|))]))
  }

  function Seal(s: Store, id: ObjectID): Result<Store> {
    if id !in s.entries then Err(NotFound)
    else if s.entries[id].Sealed() then Err(AlreadySealed)
    else if !Complete(s.entries[id].ranges, s.entries[id].size) then Err(Incomplete)
    else Ok(s.(entries := s.entries[id := s.entries[id].(sealedData := s.entries[id].buffer, buffer := None,
                                                         ranges := [])]))
  }

  function Get(s: Store, id: ObjectID): Result<seq<Byte>> {
    if id !in s.entries then Err(NotFound)
    else if !s.entries[id].Sealed() then Err(NotSealed)
    else Ok(s.entries[id].sealedData.value)
  }

  function Pin(s: Store, id: ObjectID, token: nat): Result<Store> {
    if id !in s.entries then Err(NotFound)
    else if !s.entries[id].Sealed() then Err(NotSealed)
    else Ok(s.(entries := s.entries[id := s.entries[id].(pins := s.entries[id].pins + {token})]))
  }

  function Unpin(s: Store, id: ObjectID, token: nat): Result<Store> {
    if id !in s.entries then Err(NotFound)
    else Ok(s.(entries := s.entries[id := s.entries[id].(pins := s.entries[id].pins - {token})]))
  }

  function Remove(s: Store, id: ObjectID): Store
    requires id in s.entries
  {
    s.(entries := s.entries - {id}, used := s.used - s.entries[id].size)
  }

  // Deleting a missing or pinned replica is refused without an error.
  function Delete(s: Store, id: ObjectID): (Store, bool) {
    if id !in s.entries || s.entries[id].pins != {} then (s, false) else (Remove(s, id), true)
  }

  function Abort(s: Store, id: ObjectID): Result<(Store, bool)> {
    if id !in s.entries then Ok((s, false))
    else if s.entries[id].Sealed() then Err(AlreadySealed)
    else Ok((Remove(s, id), true))
  }

  // ------------------------------------------------------------------------
  // What every store satisfies

  ghost function SizeOf(entries: map<ObjectID, Entry>): nat
    decreases entries
  {
    if entries == map[] then 0
    else
      var id :| id in entries;
      assert entries == (entries - {id})[id := entries[id]];
      entries[id].size + SizeOf(entries - {id})
  }

  lemma {:induction false} SizeWithout(entries: map<ObjectID, Entry>, id: ObjectID)
    requires id in entries
    ensures SizeOf(entries) == entries[id].size + SizeOf(entries - {id})
    decreases entries
  {
    var first :| first in entries && SizeOf(entries) == entries[first].size + SizeOf(entries - {first});
    if first == id {
    } else {
      assert entries == (entries - {first})[first := entries[first]];
      assert entries == (entries - {id})[id := entries[id]];
      SizeWithout(entries - {first}, id);
      SizeWithout(entries - {id}, first);
      assert entries - {first} - {id} == entries - {id} - {first};
    }
  }

  lemma SizeUpdate(entries: map<ObjectID, Entry>, id: ObjectID, e: Entry)
    ensures SizeOf(entries[id := e]) == e.size + SizeOf(entries - {id})
  {
    SizeWithout(entries[id := e], id);
    assert entries[id := e] - {id} == entries - {id};
  }

  ghost predicate EntryOk(e: Entry) {
    && (e.buffer.Some? <==> e.sealedData.None?)
    && (e.buffer.Some? ==> |e.buffer.value| == e.size) && (e.sealedData.Some? ==> |e.sealedData.value| == e.size)
    && Canonical(e.ranges) && Within(e.ranges, e.size)
    && (e.Sealed() ==> e.ranges == []) && (e.pins != {} ==> e.Sealed())
  }

  // Capacity is accounted for exactly and every entry is well-formed.
  ghost predicate StoreInv(s: Store) {
    && (forall id :: id in s.entries ==> EntryOk(s.entries[id]))
    && s.used == SizeOf(s.entries) && s.used <= s.capacity
  }

  datatype Op =
    | Creates(size: nat) | Writes(payload: seq<Byte>, offset: int) | Seals | Pins(token: nat) | Unpins(released: nat)
    | Deletes | Aborts

  function Perform(s: Store, id: ObjectID, op: Op): Store {
    match op
    case Creates(size) => if Create(s, id, size).Ok? then Create(s, id, size).value else s
    case Writes(payload, offset) => if Write(s, id, payload, offset).Ok? then Write(s, id, payload, offset).value else s
    case Seals => if Seal(s, id).Ok? then Seal(s, id).value else s
    case Pins(token) => if Pin(s, id, token).Ok? then Pin(s, id, token).value else s
    case Unpins(token) => if Unpin(s, id, token).Ok? then Unpin(s, id, token).value else s
    case Deletes => Delete(s, id).0
    case Aborts => if Abort(s, id).Ok? then Abort(s, id).value.0 else s
  }

  lemma ReplaceKeepsInv(s: Store, id: ObjectID, e: Entry)
    requires StoreInv(s) && id in s.entries && EntryOk(e) && e.size == s.entries[id].size
    ensures StoreInv(s.(entries := s.entries[id := e]))
  {
    SizeUpdate(s.entries, id, e);
    SizeWithout(s.entries, id);
  }

  lemma RemoveKeepsInv(s: Store, id: ObjectID)
    requires StoreInv(s) && id in s.entries
    ensures StoreInv(Remove(s, id))
  {
    SizeWithout(s.entries, id);
  }

  lemma CreateKeepsInv(s: Store, id: ObjectID, size: nat)
    requires StoreInv(s) && Create(s, id, size).Ok?
    ensures StoreInv(Create(s, id, size).value)
  {
    SizeUpdate(s.entries, id, Entry(size, Some(Zeros(size)), None, [], {}));
    assert s.entries - {id} == s.entries;
  }

  lemma UnsealedHasBuffer(s: Store, id: ObjectID)
    requires StoreInv(s) && id in s.entries
    ensures var e := s.entries[id];
      e.Sealed() || (e.buffer.Some? && |e.buffer.value| == e.size && Canonical(e.ranges))
  {
  }

  lemma WriteKeepsInv(s: Store, id: ObjectID, payload: seq<Byte>, offset: int)
    requires StoreInv(s) && Write(s, id, payload, offset).Ok?
    ensures StoreInv(Write(s, id, payload, offset).value)
  {
    var e := s.entries[id];
    AddIsCanonical(e.ranges, offset, offset + |payload|);
    AddWithin(e.ranges, offset, offset + |payload|, e.size);
    ReplaceKeepsInv(s, id, Write(s, id, payload, offset).value.entries[id]);
  }

  /** Every operation keeps used bytes equal to the sum of the entry sizes, at
      most the capacity, and written ranges canonical. */
  lemma PerformKeepsInv(s: Store, id: ObjectID, op: Op)
    requires StoreInv(s)
    ensures StoreInv(Perform(s, id, op))
  {
    match op
    case Creates(size) => if Create(s, id, size).Ok? { CreateKeepsInv(s, id, size); }
    case Writes(payload, offset) => if Write(s, id, payload, offset).Ok? { WriteKeepsInv(s, id, payload, offset); }
    case Deletes => if id in s.entries { RemoveKeepsInv(s, id); }
    case Aborts => if id in s.entries { RemoveKeepsInv(s, id); }
    case _ =>
      if id in s.entries && Perform(s, id, op) != s {
        ReplaceKeepsInv(s, id, Perform(s, id, op).entries[id]);
      }
  }

  // ------------------------------------------------------------------------
  // Written bytes, sealed bytes and pins

  /** A write covers exactly its own bytes and stores exactly its payload there. */
  lemma WriteIsExact(s: Store, id: ObjectID, payload: seq<Byte>, offset: int, b: nat)
    requires StoreInv(s) && Write(s, id, payload, offset).Ok? && b < s.entries[id].size
    ensures var e, e' := s.entries[id], Write(s, id, payload, offset).value.entries[id];
      && e'.buffer.Some? && |e'.buffer.value| == e.size
      && (Covers(e'.ranges, b) <==> Covers(e.ranges, b) || offset <= b < offset + |payload|)
      && e'.buffer.value[b] == if offset <= b < offset + |payload| then payload[b - offset] else e.buffer.value[b]
  {
    AddCovers(s.entries[id].ranges, offset, offset + |payload|, b);
  }

  /** Sealing succeeds exactly when every byte was written. */
  lemma SealIffWritten(s: Store, id: ObjectID)
    requires StoreInv(s) && id in s.entries && !s.entries[id].Sealed()
    ensures Seal(s, id).Ok? <==> forall b: nat :: b < s.entries[id].size ==> Covers(s.entries[id].ranges, b)
  {
    CompleteIffCovered(s.entries[id].ranges, s.entries[id].size);
  }

  datatype Request = Request(id: ObjectID, op: Op)

  function PerformAll(s: Store, requests: seq<Request>): Store
    decreases |requests|
  {
    if requests == [] then s else PerformAll(Perform(s, requests[0].id, requests[0].op), requests[1..])
  }

  lemma OnlyOwnEntry(s: Store, id: ObjectID, op: Op)
    ensures Perform(s, id, op).entries - {id} == s.entries - {id}
  {
  }

  // A sealed replica survives everything but its deletion, pins changing as asked.
  lemma SealedStays(s: Store, id: ObjectID, op: Op)
    requires id in s.entries && s.entries[id].Sealed() && (op.Deletes? ==> s.entries[id].pins != {})
    ensures var t := Perform(s, id, op);
      && id in t.entries && t.entries[id].sealedData == s.entries[id].sealedData
      && t.entries[id].size == s.entries[id].size
      && forall token :: token in s.entries[id].pins && op != Unpins(token) ==> token in t.entries[id].pins
  {
  }

  lemma PinnedStays(s: Store, r: Request, id: ObjectID, token: nat)
    requires StoreInv(s) && id in s.entries && token in s.entries[id].pins && (r.id == id ==> r.op != Unpins(token))
    ensures var t := Perform(s, r.id, r.op);
      id in t.entries && token in t.entries[id].pins && t.entries[id].sealedData == s.entries[id].sealedData
  {
    if r.id == id {
      SealedStays(s, id, r.op);
    } else {
      OnlyOwnEntry(s, r.id, r.op);
      assert id in s.entries - {r.id};
      assert Perform(s, r.id, r.op).entries[id] == (Perform(s, r.id, r.op).entries - {r.id})[id];
    }
  }

  /** Over every run, a sealed replica keeps its bytes for as long as it stays,
      and it stays for as long as a pin of it is not released. */
  lemma {:induction false} SealedBytesStay(s: Store, requests: seq<Request>, id: ObjectID, token: nat)
    requires StoreInv(s) && id in s.entries && token in s.entries[id].pins
    requires forall r :: r in requests && r.id == id ==> r.op != Unpins(token)
    ensures var t := PerformAll(s, requests);
      id in t.entries && token in t.entries[id].pins && t.entries[id].sealedData == s.entries[id].sealedData
    decreases |requests|
  {
    if requests == [] {
    } else {
      PerformKeepsInv(s, requests[0].id, requests[0].op);
      PinnedStays(s, requests[0], id, token);
      SealedBytesStay(Perform(s, requests[0].id, requests[0].op), requests[1..], id, token);
    }
  }

  /** Unpinned or not, one operation never changes sealed bytes in place. */
  lemma SealedNeverChange(s: Store, other: ObjectID, op: Op, id: ObjectID)
    requires StoreInv(s) && id in s.entries && s.entries[id].Sealed()
    ensures var t := Perform(s, other, op); id in t.entries ==> t.entries[id].sealedData == s.entries[id].sealedData
  {
  }

  // A fresh reservation takes the whole payload and seals.
  lemma PutSucceeds(s: Store, id: ObjectID, payload: seq<Byte>)
    requires Create(s, id, |payload|).Ok?
    ensures var made := Create(s, id, |payload|).value; Write(made, id, payload, 0).Ok?
    ensures var written := Write(Create(s, id, |payload|).value, id, payload, 0).value;
      && Seal(written, id).Ok? && Get(Seal(written, id).value, id) == Ok(payload)
      && Seal(written, id).value.used == s.used + |payload| && Seal(written, id).value.entries - {id} == s.entries
  {
    var written := Write(Create(s, id, |payload|).value, id, payload, 0).value;
    assert written.entries[id].buffer.value == payload;
  }

  // ------------------------------------------------------------------------
  // The store object

  class ObjectStore {
    const capacity: nat
    var entries: map<ObjectID, Entry>
    var used: int

    function View(): Store
      reads this
    {
      Store(entries, used, capacity)
    }

    ghost predicate Valid()
      reads this
    {
      StoreInv(View())
    }

    constructor (capacity: nat)
      ensures Valid() && View() == Store(map[], 0, capacity)
    {
      this.capacity := capacity;
      entries, used := map[], 0;
    }

    method CreateReplica(id: ObjectID, size: nat) returns (error: Option<StoreError>)
      requires Valid()
      modifies this
      ensures Valid()
      ensures var done := Create(old(View()), id, size);
        if done.Ok? then error.None? && View() == done.value else error == Some(done.error) && View() == old(View())
    {
      if id in entries { return Some(AlreadyExists); }
      if used + size > capacity { return Some(StoreFull); }
      CreateKeepsInv(View(), id, size);
      entries := entries[id := Entry(size, Some(Zeros(size)), None, [], {})];
      used := used + size;
      error := None;
    }

    method WriteChunk(id: ObjectID, payload: seq<Byte>, offset: int) returns (error: Option<StoreError>)
      requires Valid()
      modifies this
      ensures Valid()
      ensures var done := Write(old(View()), id, payload, offset);
        if done.Ok? then error.None? && View() == done.value else error == Some(done.error) && View() == old(View())
    {
      hide StoreInv, Overwrite;
      if offset < 0 { return Some(InvalidWrite); }
      if id !in entries { return Some(NotFound); }
      UnsealedHasBuffer(View(), id);
      var e := entries[id];
      if e.Sealed() { return Some(AlreadySealed); }
      if offset + |payload| > e.size { return Some(InvalidWrite); }
      WriteKeepsInv(View(), id, payload, offset);
      var ranges := MergeRange(e.ranges, offset, offset + |payload|);
      entries := entries[id := e.(buffer := Some(Overwrite(e.buffer.value, offset, payload)), ranges := ranges)];
      error := None;
    }

    method SealReplica(id: ObjectID) returns (error: Option<StoreError>)
      requires Valid()
      modifies this
      ensures Valid()
      ensures var done := Seal(old(View()), id);
        if done.Ok? then error.None? && View() == done.value else error == Some(done.error) && View() == old(View())
    {
      PerformKeepsInv(View(), id, Seals);
      if id !in entries { return Some(NotFound); }
      var e := entries[id];
      if e.Sealed() { return Some(AlreadySealed); }
      if !Complete(e.ranges, e.size) { return Some(Incomplete); }
      entries := entries[id := e.(sealedData := e.buffer, buffer := None, ranges := [])];
      error := None;
    }

    method AbortReplica(id: ObjectID) returns (aborted: Result<bool>)
      requires Valid()
      modifies this
      ensures Valid()
      ensures var done := Abort(old(View()), id);
        if done.Ok? then aborted == Ok(done.value.1) && View() == done.value.0
        else aborted == Err(done.error) && View() == old(View())
    {
      PerformKeepsInv(View(), id, Aborts);
      if id !in entries { return Ok(false); }
      if entries[id].Sealed() { return Err(AlreadySealed); }
      used := used - entries[id].size;
      entries := entries - {id};
      aborted := Ok(true);
    }

    method DeleteReplica(id: ObjectID) returns (deleted: bool)
      requires Valid()
      modifies this
      ensures Valid() && (View(), deleted) == Delete(old(View()), id)
    {
      PerformKeepsInv(View(), id, Deletes);
      if id !in entries || entries[id].pins != {} { return false; }
      used := used - entries[id].size;
      entries := entries - {id};
      deleted := true;
    }

    /** One-shot create, write and seal: afterwards exactly the payload is
        readable, or nothing changed. */
    method Put(id: ObjectID, payload: seq<Byte>) returns (error: Option<StoreError>)
      requires Valid()
      modifies this
      ensures Valid()
      ensures error.Some? <==> id in old(entries) || old(used) + |payload| > capacity
      ensures error.Some? ==> View() == old(View())
      ensures error.None? ==> Get(View(), id) == Ok(payload) && used == old(used) + |payload|
                              && entries - {id} == old(entries)
    {
      if Create(View(), id, |payload|).Ok? {
        PutSucceeds(View(), id, payload);
      }
      error := CreateReplica(id, |payload|);
      if error.Some? { return; }
      error := WriteChunk(id, payload, 0);
      error := SealReplica(id);
    }
  }
}
