/** Task arguments that contain object references: an inline payload refers to
    its references by first-use index into a manifest, and a worker imports the
    manifest in one transactional session. */
module NestedArguments {
  import opened Ids

  datatype Name = Name(id: ObjectID, owner: WorkerID)

  // A user value; a container is a tagged pair, a longer one nests to the right.
  datatype Value = Leaf(content: int) | Reference(name: Name) | Join(tag: nat, left: Value, right: Value)

  // Its serialized form, in traversal order; references are manifest indexes.
  datatype Wire = WireLeaf(content: int) | WireReference(index: int) | WireJoin(tag: nat, left: Wire, right: Wire)

  datatype Transfer = Transfer(name: Name, capability: nat)

  datatype ArgumentError = ConflictingOwners | NoExporter | ChangedIdentity | BadIndex | OutOfOrder | Incomplete
                         | ImportFailed | SessionClosed
  datatype Result<+T> = Ok(value: T) | Err(error: ArgumentError)

  // ------------------------------------------------------------------------
  // Encoding

  datatype Builder = Builder(indexes: map<Name, nat>, owners: map<ObjectID, WorkerID>, manifest: seq<Transfer>)

  const NO_REFERENCES := Builder(map[], map[], [])

  type Exporter = Name -> Option<Transfer>

  function PersistentId(b: Builder, name: Name, export_: Exporter): Result<(Builder, nat)> {
    if name.id in b.owners && b.owners[name.id] != name.owner then Err(ConflictingOwners)
    else
      var owned := b.(owners := b.owners[name.id := name.owner]);
      if name in b.indexes then Ok((owned, b.indexes[name]))
      else if export_(name).None? then Err(NoExporter)
      else if export_(name).value.name != name then Err(ChangedIdentity)
      else Ok((owned.(indexes := b.indexes[name := |b.manifest|], manifest := b.manifest + [export_(name).value]),
               |b.manifest|))
  }

  function Encode(v: Value, b: Builder, export_: Exporter): Result<(Builder, Wire)> {
    match v
    case Leaf(content) => Ok((b, WireLeaf(content)))
    case Reference(name) =>
      var id := PersistentId(b, name, export_);
      if id.Err? then Err(id.error) else Ok((id.value.0, WireReference(id.value.1)))
    case Join(tag, left, right) =>
      var l := Encode(left, b, export_);
      if l.Err? then Err(l.error)
      else
        var r := Encode(right, l.value.0, export_);
        if r.Err? then Err(r.error) else Ok((r.value.0, WireJoin(tag, l.value.1, r.value.1)))
  }

  // ------------------------------------------------------------------------
  // Decoding

  // `acquired` lists what was imported, `released` what was given back, oldest first.
  datatype Session = Session(acquired: seq<Transfer>, committed: bool, rolledBack: bool, closed: bool,
                             released: seq<Transfer>)

  const OPENED := Session([], false, false, false, [])

  predicate IsOpen(s: Session) { !s.committed && !s.rolledBack && !s.closed }

  type Importer = Transfer -> bool

  function Resolve(s: Session, t: Transfer, imports: Importer): (Session, Option<ArgumentError>) {
    if !IsOpen(s) then (s, Some(SessionClosed))
    else if t in s.acquired then (s, None)
    else if !imports(t) then (s, Some(ImportFailed))
    else (s.(acquired := s.acquired + [t]), None)
  }

  // `firstUse` counts the distinct indexes met so far.
  function Load(w: Wire, manifest: seq<Transfer>, firstUse: nat, s: Session,
                imports: Importer): (Result<Value>, nat, Session) {
    match w
    case WireLeaf(content) => (Ok(Leaf(content)), firstUse, s)
    case WireReference(index) =>
      if index < 0 || index >= |manifest| then (Err(BadIndex), firstUse, s)
      else if index > firstUse then (Err(OutOfOrder), firstUse, s)
      else
        var (s', error) := Resolve(s, manifest[index], imports);
        var next := if index == firstUse then firstUse + 1 else firstUse;
        if error.Some? then (Err(error.value), next, s') else (Ok(Reference(manifest[index].name)), next, s')
    case WireJoin(tag, left, right) =>
      var (l, k, s1) := Load(left, manifest, firstUse, s, imports);
      if l.Err? then (l, k, s1)
      else
        var (r, k', s2) := Load(right, manifest, k, s1, imports);
        if r.Err? then (r, k', s2) else (Ok(Join(tag, l.value, r.value)), k', s2)
  }

  // Give back everything, latest first.
  function ReleaseAll(s: Session): Session { s.(released := s.released + Reversed(s.acquired), acquired := []) }

  function Reversed(ts: seq<Transfer>): seq<Transfer> {
    if ts == [] then [] else [ts[|ts| - 1]] + Reversed(ts[..|ts| - 1])
  }

  function Rollback(s: Session): Session {
    if !IsOpen(s) then s else ReleaseAll(s.(rolledBack := true))
  }

  function Close(s: Session): Session {
    if s.closed then s else ReleaseAll(s.(closed := true))
  }

  // Any failure rolls the whole session back.
  function Decode(w: Wire, manifest: seq<Transfer>, s: Session, imports: Importer): (Result<Value>, Session) {
    var (v, k, s') := Load(w, manifest, 0, s, imports);
    if v.Err? then (v, Rollback(s'))
    else if k != |manifest| then (Err(Incomplete), Rollback(s'))
    else (v, s')
  }

  // ------------------------------------------------------------------------
  // Index streams

  function Indexes(w: Wire): seq<int> {
    match w
    case WireLeaf(_) => []
    case WireReference(index) => [index]
    case WireJoin(_, left, right) => Indexes(left) + Indexes(right)
  }

  // The check the decoder makes, one index at a time.
  function Scan(indexes: seq<int>, firstUse: nat, n: nat): Option<nat> {
    if indexes == [] then Some(firstUse)
    else if indexes[0] < 0 || indexes[0] >= n || indexes[0] > firstUse then None
    else Scan(indexes[1..], if indexes[0] == firstUse then firstUse + 1 else firstUse, n)
  }

  lemma {:induction false} ScanConcat(a: seq<int>, b: seq<int>, firstUse: nat, n: nat)
    ensures var first := Scan(a, firstUse, n);
      Scan(a + b, firstUse, n) == if first.Some? then Scan(b, first.value, n) else None
  {
    if a == [] {
      assert a + b == b;
    } else {
      assert (a + b)[1..] == a[1..] + b && (a + b)[0] == a[0];
      if !(a[0] < 0 || a[0] >= n || a[0] > firstUse) {
        ScanConcat(a[1..], b, if a[0] == firstUse then firstUse + 1 else firstUse, n);
      }
    }
  }

  // First-use order: before an index appears, all smaller ones have.
  ghost predicate FirstUseOrder(indexes: seq<int>, known: nat) {
    forall p :: 0 <= p < |indexes| ==> indexes[p] >= 0 && forall j :: known <= j < indexes[p] ==> j in indexes[..p]
  }

  ghost predicate CoversAll(indexes: seq<int>, known: nat, n: nat) {
    (forall i :: i in indexes ==> i < n) && forall j :: known <= j < n ==> j in indexes
  }

  lemma {:induction false} ScanAccepts(indexes: seq<int>, known: nat, n: nat)
    requires known <= n
    ensures Scan(indexes, known, n) == Some(n) <==> FirstUseOrder(indexes, known) && CoversAll(indexes, known, n)
  {
    if indexes == [] {
      assert known !in indexes;
    } else {
      var i, rest := indexes[0], indexes[1..];
      assert indexes == [i] + rest;
      if 0 <= i < n && i <= known {
        var next: nat := if i == known then known + 1 else known;
        ScanAccepts(rest, next, n);
        OrderStep(indexes, known, next);
      } else {
        FirstIndexBad(indexes, known, n);
      }
    }
  }

  lemma FirstIndexBad(indexes: seq<int>, known: nat, n: nat)
    requires indexes != [] && !(0 <= indexes[0] < n && indexes[0] <= known)
    ensures !(FirstUseOrder(indexes, known) && CoversAll(indexes, known, n))
  {
    var none := indexes[..0];
    assert known !in none && indexes[0] in indexes;
  }

  // Dropping an index that is known, or exactly the next one.
  lemma OrderStep(indexes: seq<int>, known: nat, next: nat)
    requires indexes != [] && 0 <= indexes[0] <= known && next == if indexes[0] == known then known + 1 else known
    ensures FirstUseOrder(indexes, known) <==> FirstUseOrder(indexes[1..], next)
    ensures forall n :: indexes[0] < n ==> (CoversAll(indexes, known, n) <==> CoversAll(indexes[1..], next, n))
  {
    hide FirstUseOrder;
    assert indexes == [indexes[0]] + indexes[1..];
    assert forall j :: j in indexes <==> j == indexes[0] || j in indexes[1..];
    if FirstUseOrder(indexes, known) { OrderDrops(indexes, known, next); }
    if FirstUseOrder(indexes[1..], next) { OrderExtends(indexes, known, next); }
  }

  // What stands before a place, with and without the first index.
  lemma BeforePlace(indexes: seq<int>, p: nat)
    requires 0 < p < |indexes|
    ensures indexes[p] == indexes[1..][p - 1]
    ensures forall j :: j in indexes[..p] <==> j == indexes[0] || j in indexes[1..][..p - 1]
  {
    assert indexes[..p] == [indexes[0]] + indexes[1..][..p - 1];
  }

  lemma OrderDrops(indexes: seq<int>, known: nat, next: nat)
    requires indexes != [] && 0 <= indexes[0] <= known && next == if indexes[0] == known then known + 1 else known
    requires FirstUseOrder(indexes, known)
    ensures FirstUseOrder(indexes[1..], next)
  {
    var rest := indexes[1..];
    forall p | 0 <= p < |rest| ensures rest[p] >= 0 && forall j :: next <= j < rest[p] ==> j in rest[..p] {
      BeforePlace(indexes, p + 1);
      assert indexes[p + 1] == rest[p] && rest[..p + 1 - 1] == rest[..p];
      forall j | next <= j < rest[p] ensures j in rest[..p] {
        assert j in indexes[..p + 1];
      }
    }
  }

  lemma OrderExtends(indexes: seq<int>, known: nat, next: nat)
    requires indexes != [] && 0 <= indexes[0] <= known && next == if indexes[0] == known then known + 1 else known
    requires FirstUseOrder(indexes[1..], next)
    ensures FirstUseOrder(indexes, known)
  {
    forall p | 0 <= p < |indexes|
      ensures indexes[p] >= 0 && forall j :: known <= j < indexes[p] ==> j in indexes[..p]
    {
      if p > 0 {
        BeforePlace(indexes, p);
        assert indexes[1..][p - 1] >= 0;
      }
    }
  }

  // ------------------------------------------------------------------------
  // What the decoder accepts

  // The value a wire tree denotes under a manifest.
  function Denotes(w: Wire, manifest: seq<Transfer>): Option<Value> {
    match w
    case WireLeaf(content) => Some(Leaf(content))
    case WireReference(index) => if 0 <= index < |manifest| then Some(Reference(manifest[index].name)) else None
    case WireJoin(tag, left, right) =>
      var l, r := Denotes(left, manifest), Denotes(right, manifest);
      if l.Some? && r.Some? then Some(Join(tag, l.value, r.value)) else None
  }

  // Whatever happens, a session only appends new transfers of the manifest.
  ghost predicate Imports(s: Session, s': Session, manifest: seq<Transfer>) {
    && s' == s.(acquired := s'.acquired) && s.acquired <= s'.acquired
    && (forall t :: t in s'.acquired ==> t in s.acquired || t in manifest)
    && (Distinct(s.acquired) ==> Distinct(s'.acquired))
  }

  ghost predicate Distinct(ts: seq<Transfer>) { forall i, j :: 0 <= i < j < |ts| ==> ts[i] != ts[j] }

  lemma {:induction false} LoadImports(w: Wire, manifest: seq<Transfer>, firstUse: nat, s: Session, imports: Importer)
    ensures Imports(s, Load(w, manifest, firstUse, s, imports).2, manifest)
    decreases w
  {
    if !w.WireJoin? {
    } else {
      var (l, k, s1) := Load(w.left, manifest, firstUse, s, imports);
      LoadImports(w.left, manifest, firstUse, s, imports);
      LoadImports(w.right, manifest, k, s1, imports);
    }
  }

  /** Loading succeeds exactly on first-use-ordered streams, when imports do. */
  lemma {:induction false} LoadScans(w: Wire, manifest: seq<Transfer>, firstUse: nat, s: Session, imports: Importer)
    requires IsOpen(s) && forall t :: t in manifest ==> imports(t)
    ensures var (v, k, s') := Load(w, manifest, firstUse, s, imports);
      && IsOpen(s') && (v.Ok? <==> Scan(Indexes(w), firstUse, |manifest|).Some?)
      && (v.Ok? ==> Scan(Indexes(w), firstUse, |manifest|) == Some(k) && Denotes(w, manifest) == Some(v.value))
    decreases w
  {
    if w.WireJoin? {
      var (l, k, s1) := Load(w.left, manifest, firstUse, s, imports);
      LoadScans(w.left, manifest, firstUse, s, imports);
      ScanConcat(Indexes(w.left), Indexes(w.right), firstUse, |manifest|);
      if l.Ok? {
        LoadScans(w.right, manifest, k, s1, imports);
      }
    } else if w.WireReference? {
      assert Indexes(w)[1..] == [];
    }
  }

  /** Main result: the decoder accepts exactly the streams that use the whole
      manifest in first-use order, and returns what they denote. */
  lemma DecodeAccepts(w: Wire, manifest: seq<Transfer>, s: Session, imports: Importer)
    requires IsOpen(s) && forall t :: t in manifest ==> imports(t)
    ensures Decode(w, manifest, s, imports).0.Ok? <==>
              FirstUseOrder(Indexes(w), 0) && CoversAll(Indexes(w), 0, |manifest|)
    ensures Decode(w, manifest, s, imports).0.Ok? ==>
      Denotes(w, manifest) == Some(Decode(w, manifest, s, imports).0.value)
  {
    LoadScans(w, manifest, 0, s, imports);
    ScanAccepts(Indexes(w), 0, |manifest|);
  }

  // ------------------------------------------------------------------------
  // Round trip

  ghost predicate BuilderOk(b: Builder) {
    && (forall n :: n in b.indexes ==> b.indexes[n] < |b.manifest| && b.manifest[b.indexes[n]].name == n)
    && (forall i :: 0 <= i < |b.manifest| ==> b.manifest[i].name in b.indexes && b.indexes[b.manifest[i].name] == i)
    && (forall n :: n in b.indexes ==> n.id in b.owners && b.owners[n.id] == n.owner)
  }

  // The wire tree denotes the same value under every longer manifest.
  lemma {:induction false} DenotesGrows(w: Wire, manifest: seq<Transfer>, longer: seq<Transfer>)
    requires manifest <= longer && Denotes(w, manifest).Some?
    ensures Denotes(w, longer) == Denotes(w, manifest)
    decreases w
  {
    if !w.WireJoin? {
    } else {
      DenotesGrows(w.left, manifest, longer);
      DenotesGrows(w.right, manifest, longer);
    }
  }

  lemma {:induction false} ScanGrows(indexes: seq<int>, firstUse: nat, n: nat, m: nat)
    requires n <= m && Scan(indexes, firstUse, n).Some?
    ensures Scan(indexes, firstUse, m) == Scan(indexes, firstUse, n)
  {
    if indexes == [] {
    } else {
      ScanGrows(indexes[1..], if indexes[0] == firstUse then firstUse + 1 else firstUse, n, m);
    }
  }

  /** Encoding extends the manifest in first-use order and denotes its value. */
  lemma {:induction false} EncodeDenotes(v: Value, b: Builder, export_: Exporter)
    requires BuilderOk(b) && Encode(v, b, export_).Ok?
    ensures var (b', w) := Encode(v, b, export_).value;
      && BuilderOk(b') && b.manifest <= b'.manifest
      && Denotes(w, b'.manifest) == Some(v)
      && Scan(Indexes(w), |b.manifest|, |b'.manifest|) == Some(|b'.manifest|)
    decreases v
  {
    if v.Join? {
      EncodeDenotes(v.left, b, export_);
      var (b1, l) := Encode(v.left, b, export_).value;
      EncodeDenotes(v.right, b1, export_);
      var (b2, r) := Encode(v.right, b1, export_).value;
      DenotesGrows(l, b1.manifest, b2.manifest);
      ScanGrows(Indexes(l), |b.manifest|, |b1.manifest|, |b2.manifest|);
      ScanConcat(Indexes(l), Indexes(r), |b.manifest|, |b2.manifest|);
    } else if v.Reference? {
      ReferenceDenotes(v.name, b, export_);
    }
  }

  lemma ReferenceDenotes(name: Name, b: Builder, export_: Exporter)
    requires BuilderOk(b) && PersistentId(b, name, export_).Ok?
    ensures var (b', index) := PersistentId(b, name, export_).value;
      && BuilderOk(b') && b.manifest <= b'.manifest
      && Denotes(WireReference(index), b'.manifest) == Some(Reference(name))
      && Scan(Indexes(WireReference(index)), |b.manifest|, |b'.manifest|) == Some(|b'.manifest|)
  {
    var (b', index) := PersistentId(b, name, export_).value;
    assert Indexes(WireReference(index))[1..] == [];
  }

  lemma {:induction false} AllImported(w: Wire, manifest: seq<Transfer>, firstUse: nat, s: Session, imports: Importer)
    requires Load(w, manifest, firstUse, s, imports).0.Ok? && firstUse <= |manifest|
    requires forall i :: 0 <= i < firstUse ==> manifest[i] in s.acquired
    ensures var (_, k, s') := Load(w, manifest, firstUse, s, imports);
      k <= |manifest| && forall i :: 0 <= i < k ==> manifest[i] in s'.acquired
    decreases w
  {
    if !w.WireJoin? {
    } else {
      var (l, k, s1) := Load(w.left, manifest, firstUse, s, imports);
      AllImported(w.left, manifest, firstUse, s, imports);
      AllImported(w.right, manifest, k, s1, imports);
    }
  }

  /** Main result: decoding an encoded value gives back the same tree and
      imports each distinct reference exactly once. */
  lemma RoundTrip(v: Value, export_: Exporter, imports: Importer)
    requires Encode(v, NO_REFERENCES, export_).Ok?
    requires forall t :: t in Encode(v, NO_REFERENCES, export_).value.0.manifest ==> imports(t)
    ensures var (b, w) := Encode(v, NO_REFERENCES, export_).value;
      var (decoded, s) := Decode(w, b.manifest, OPENED, imports);
      && decoded == Ok(v) && Distinct(s.acquired) && s.released == []
      && (forall t :: t in s.acquired <==> t in b.manifest)
      && Distinct(b.manifest)
  {
    EncodeDenotes(v, NO_REFERENCES, export_);
    var (b, w) := Encode(v, NO_REFERENCES, export_).value;
    LoadScans(w, b.manifest, 0, OPENED, imports);
    LoadImports(w, b.manifest, 0, OPENED, imports);
    AllImported(w, b.manifest, 0, OPENED, imports);
    var s := Decode(w, b.manifest, OPENED, imports).1;
    forall t | t in b.manifest ensures t in s.acquired {
      var i :| 0 <= i < |b.manifest| && b.manifest[i] == t;
    }
    forall i, j | 0 <= i < j < |b.manifest| ensures b.manifest[i] != b.manifest[j] {
      assert b.indexes[b.manifest[i].name] == i && b.indexes[b.manifest[j].name] == j;
    }
  }

  function NamesIn(v: Value): set<Name> {
    match v
    case Leaf(_) => {}
    case Reference(name) => {name}
    case Join(_, left, right) => NamesIn(left) + NamesIn(right)
  }

  // Each object is named with one owner, counting the names met before.
  ghost predicate OneOwnerEach(names: set<Name>, owners: map<ObjectID, WorkerID>) {
    && (forall a, b :: a in names && b in names && a.id == b.id ==> a.owner == b.owner)
    && forall a :: a in names && a.id in owners ==> owners[a.id] == a.owner
  }

  // An encoder that succeeded has recorded exactly the owners it met.
  lemma {:induction false} EncodeOwners(v: Value, b: Builder, export_: Exporter)
    requires forall n :: n in NamesIn(v) ==> export_(n).Some? && export_(n).value.name == n
    ensures Encode(v, b, export_).Ok? <==> OneOwnerEach(NamesIn(v), b.owners)
    ensures Encode(v, b, export_).Ok? ==>
      var owners := Encode(v, b, export_).value.0.owners;
      && (forall n :: n in NamesIn(v) ==> n.id in owners && owners[n.id] == n.owner)
      && (forall o :: o in b.owners ==> o in owners && owners[o] == b.owners[o])
      && (forall o :: o in owners ==> o in b.owners || exists n :: n in NamesIn(v) && n.id == o)
    decreases v
  {
    if !v.Join? {
    } else {
      EncodeOwners(v.left, b, export_);
      var l := Encode(v.left, b, export_);
      if l.Ok? {
        EncodeOwners(v.right, l.value.0, export_);
        JoinOwners(NamesIn(v.left), NamesIn(v.right), b.owners, l.value.0.owners);
      }
    }
  }

  lemma JoinOwners(left: set<Name>, right: set<Name>, before: map<ObjectID, WorkerID>, between: map<ObjectID, WorkerID>)
    requires OneOwnerEach(left, before)
    requires forall n :: n in left ==> n.id in between && between[n.id] == n.owner
    requires forall o :: o in before ==> o in between && between[o] == before[o]
    requires forall o :: o in between ==> o in before || exists n :: n in left && n.id == o
    ensures OneOwnerEach(left + right, before) <==> OneOwnerEach(right, between)
  {
  }

  /** With a working exporter, a value can be encoded exactly when no object in
      it is named with two owners. */
  lemma EncodableIffOneOwner(v: Value, export_: Exporter)
    requires forall n :: n in NamesIn(v) ==> export_(n).Some? && export_(n).value.name == n
    ensures Encode(v, NO_REFERENCES, export_).Ok? <==>
              forall a, b :: a in NamesIn(v) && b in NamesIn(v) && a.id == b.id ==> a.owner == b.owner
  {
    EncodeOwners(v, NO_REFERENCES, export_);
  }

  // ------------------------------------------------------------------------
  // Sessions release exactly once

  lemma {:induction false} ReversedIs(ts: seq<Transfer>)
    ensures |Reversed(ts)| == |ts| && forall i :: 0 <= i < |ts| ==> Reversed(ts)[i] == ts[|ts| - 1 - i]
  {
    if ts == [] {
    } else {
      ReversedIs(ts[..|ts| - 1]);
    }
  }

  lemma RollbackGivesBack(s: Session)
    requires IsOpen(s)
    ensures var s' := Rollback(s);
      && s'.acquired == [] && s'.released == s.released + Reversed(s.acquired)
      && Close(s').released == s'.released && Rollback(s') == s'
  {
    assert Reversed([]) == [];
  }

  /** Main result: a failed decode gives back everything the session had
      acquired, each handle once and in reverse order, and a later close gives
      back nothing more. */
  lemma FailedDecodeReleases(w: Wire, manifest: seq<Transfer>, s: Session, imports: Importer)
    requires IsOpen(s) && Distinct(s.acquired) && Decode(w, manifest, s, imports).0.Err?
    ensures var loaded, s' := Load(w, manifest, 0, s, imports).2, Decode(w, manifest, s, imports).1;
      && s.acquired <= loaded.acquired && Distinct(loaded.acquired)
      && s'.acquired == [] && s'.released == s.released + Reversed(loaded.acquired)
      && Close(s').released == s'.released && Rollback(s') == s'
  {
    LoadImports(w, manifest, 0, s, imports);
    RollbackGivesBack(Load(w, manifest, 0, s, imports).2);
  }

  class ImportSession {
    var state: Session

    constructor ()
      ensures state == OPENED
    {
      state := OPENED;
    }

    method ResolveTransfer(t: Transfer, imports: Importer) returns (error: Option<ArgumentError>)
      modifies this
      ensures (state, error) == Resolve(old(state), t, imports)
    {
      if !IsOpen(state) { return Some(SessionClosed); }
      if t in state.acquired { return None; }
      if !imports(t) { return Some(ImportFailed); }
      state := state.(acquired := state.acquired + [t]);
      error := None;
    }

    // Pop and release until nothing is held.
    method ReleaseEverything()
      modifies this
      ensures state == ReleaseAll(old(state))
    {
      while state.acquired != []
        invariant state == old(state).(acquired := state.acquired, released := state.released)
        invariant state.released + Reversed(state.acquired) == old(state).released + Reversed(old(state).acquired)
        decreases |state.acquired|
      {
        var n := |state.acquired| - 1;
        state := state.(released := state.released + [state.acquired[n]], acquired := state.acquired[..n]);
      }
    }

    method RollbackSession()
      modifies this
      ensures state == Rollback(old(state))
    {
      if !IsOpen(state) { return; }
      state := state.(rolledBack := true);
      ReleaseEverything();
    }

    // Rebuild one tree, importing each reference when it is first met.
    method LoadTree(w: Wire, manifest: seq<Transfer>, firstUse: nat, imports: Importer)
      returns (v: Result<Value>, next: nat)
      modifies this
      ensures (v, next, state) == Load(w, manifest, firstUse, old(state), imports)
      decreases w
    {
      match w
      case WireLeaf(content) => return Ok(Leaf(content)), firstUse;
      case WireReference(index) =>
        if index < 0 || index >= |manifest| { return Err(BadIndex), firstUse; }
        if index > firstUse { return Err(OutOfOrder), firstUse; }
        next := if index == firstUse then firstUse + 1 else firstUse;
        var error := ResolveTransfer(manifest[index], imports);
        v := if error.Some? then Err(error.value) else Ok(Reference(manifest[index].name));
      case WireJoin(tag, left, right) =>
        v, next := LoadTree(left, manifest, firstUse, imports);
        if v.Err? { return; }
        var l := v.value;
        v, next := LoadTree(right, manifest, next, imports);
        if v.Ok? { v := Ok(Join(tag, l, v.value)); }
    }

    /** Decode one argument within this session, rolling it back on any failure. */
    method DecodeTree(w: Wire, manifest: seq<Transfer>, imports: Importer) returns (v: Result<Value>)
      modifies this
      ensures (v, state) == Decode(w, manifest, old(state), imports)
    {
      var next: nat;
      v, next := LoadTree(w, manifest, 0, imports);
      if v.Ok? && next != |manifest| { v := Err(Incomplete); }
      if v.Err? { RollbackSession(); }
    }
  }

  class ManifestBuilder {
    var state: Builder

    constructor ()
      ensures state == NO_REFERENCES
    {
      state := NO_REFERENCES;
    }

    // The index of a reference, assigned on its first use.
    method IndexOf(name: Name, export_: Exporter) returns (index: Result<nat>)
      modifies this
      ensures var done := PersistentId(old(state), name, export_);
        if done.Ok? then state == done.value.0 && index == Ok(done.value.1) else index == Err(done.error)
    {
      if name.id in state.owners && state.owners[name.id] != name.owner { return Err(ConflictingOwners); }
      state := state.(owners := state.owners[name.id := name.owner]);
      if name in state.indexes { return Ok(state.indexes[name]); }
      if export_(name).None? { return Err(NoExporter); }
      if export_(name).value.name != name { return Err(ChangedIdentity); }
      index := Ok(|state.manifest|);
      state := state.(indexes := state.indexes[name := |state.manifest|],
                      manifest := state.manifest + [export_(name).value]);
    }

    /** Encode one argument, exporting each reference when it is first met. */
    method EncodeTree(v: Value, export_: Exporter) returns (wire: Result<Wire>)
      modifies this
      ensures var done := Encode(v, old(state), export_);
        if done.Ok? then state == done.value.0 && wire == Ok(done.value.1) else wire == Err(done.error)
      decreases v
    {
      match v
      case Leaf(content) => return Ok(WireLeaf(content));
      case Reference(name) =>
        var index := IndexOf(name, export_);
        wire := if index.Ok? then Ok(WireReference(index.value)) else Err(index.error);
      case Join(tag, left, right) =>
        wire := EncodeTree(left, export_);
        if wire.Err? { return; }
        var l := wire.value;
        wire := EncodeTree(right, export_);
        if wire.Ok? { wire := Ok(WireJoin(tag, l, wire.value)); }
    }
  }
}
