/** The mailbox of one serial actor: FIFO per caller with gap buffering,
    deduplication by (generation, caller, sequence), and generation fencing. */
module ActorMailboxes {
  import opened Ids

  datatype Key = Key(caller: WorkerID, sequence: nat)
  datatype Call = Call(actor: ActorID, generation: nat, caller: WorkerID, sequence: int, payload: nat,
                       fingerprint: Option<nat>)

  datatype CallState = Buffered | Queued | Running | Completed
  datatype Record = Record(call: Call, state: CallState, result: Option<nat>)

  datatype Mailbox = Mailbox(actor: ActorID, generation: nat, next: map<WorkerID, nat>, records: map<Key, Record>,
                             buffered: map<WorkerID, set<nat>>, ready: seq<Key>, running: Option<Key>)

  datatype Submission = Accepted(admitted: seq<Call>) | BufferedCall | Duplicate(cached: Option<nat>) | FencedCall
  datatype MailboxError = Negative | Reused | NothingRunning | NotNewer
  datatype Result<+T> = Ok(value: T) | Err(error: MailboxError)

  function KeyOf(call: Call): Key
    requires call.sequence >= 0
  {
    Key(call.caller, call.sequence)
  }

  function Expected(m: Mailbox, c: WorkerID): nat { if c in m.next then m.next[c] else 0 }
  function WaitingOf(m: Mailbox, c: WorkerID): set<nat> { if c in m.buffered then m.buffered[c] else {} }

  predicate SameLogicalCall(a: Call, b: Call) {
    && a.actor == b.actor && a.generation == b.generation && a.caller == b.caller && a.sequence == b.sequence
    && if a.fingerprint.Some? || b.fingerprint.Some? then a.fingerprint == b.fingerprint else a.payload == b.payload
  }

  // ------------------------------------------------------------------------
  // Operations

  // Queue one call; it is the next one of its caller.
  function Enqueue(m: Mailbox, call: Call): Mailbox
    requires call.sequence >= 0
  {
    var waiting := WaitingOf(m, call.caller) - {call.sequence + 1};
    m.(records := m.records[KeyOf(call) := Record(call, Queued, None)], ready := m.ready + [KeyOf(call)],
       next := m.next[call.caller := call.sequence + 1],
       buffered := if waiting == {} then m.buffered - {call.caller} else m.buffered[call.caller := waiting])
  }

  // The buffered call that has just become contiguous.
  function Follower(m: Mailbox, call: Call): Option<Call>
    requires call.sequence >= 0
  {
    var key := Key(call.caller, call.sequence + 1);
    if call.sequence + 1 in WaitingOf(m, call.caller) && key in m.records then Some(m.records[key].call) else None
  }

  // Admit a call and everything buffered right behind it.
  ghost function Admit(m: Mailbox, call: Call): (Mailbox, seq<Call>)
    requires call.sequence >= 0
    decreases |WaitingOf(m, call.caller)|
  {
    var follower := Follower(m, call);
    if follower.None? || follower.value.sequence != call.sequence + 1 || follower.value.caller != call.caller then
      (Enqueue(m, call), [call])
    else
      SmallerWaiting(m, call);
      var (rest, admitted) := Admit(Enqueue(m, call), follower.value);
      (rest, [call] + admitted)
  }

  lemma SmallerWaiting(m: Mailbox, call: Call)
    requires call.sequence >= 0 && call.sequence + 1 in WaitingOf(m, call.caller)
    ensures WaitingOf(Enqueue(m, call), call.caller) == WaitingOf(m, call.caller) - {call.sequence + 1}
    ensures |WaitingOf(Enqueue(m, call), call.caller)| < |WaitingOf(m, call.caller)|
  {
  }

  ghost function Submit(m: Mailbox, call: Call): (Mailbox, Result<Submission>) {
    if call.actor != m.actor || call.generation != m.generation then (m, Ok(FencedCall))
    else if call.sequence < 0 then (m, Err(Negative))
    else if KeyOf(call) in m.records then
      if !SameLogicalCall(m.records[KeyOf(call)].call, call) then (m, Err(Reused))
      else (m, Ok(Duplicate(m.records[KeyOf(call)].result)))
    else if call.sequence < Expected(m, call.caller) then (m, Ok(Duplicate(None)))
    else if call.sequence > Expected(m, call.caller) then
      (Buffer(m, call), Ok(BufferedCall))
    else
      var (m', admitted) := Admit(m, call);
      (m', Ok(Accepted(admitted)))
  }

  function TakeNext(m: Mailbox): (Mailbox, Option<Call>) {
    if m.running.Some? || m.ready == [] || m.ready[0] !in m.records then (m, None)
    else
      var key := m.ready[0];
      (m.(ready := m.ready[1..], running := Some(key), records := m.records[key := m.records[key].(state := Running)]),
       Some(m.records[key].call))
  }

  function Complete(m: Mailbox, result: nat): Result<Mailbox> {
    if m.running.None? || m.running.value !in m.records then Err(NothingRunning)
    else Ok(m.(running := None, records :=
                 m.records[m.running.value := m.records[m.running.value].(state := Completed, result := Some(result))]))
  }

  function Advance(m: Mailbox, generation: nat): Result<Mailbox> {
    if generation <= m.generation then Err(NotNewer)
    else Ok(Mailbox(m.actor, generation, map[], map[], map[], [], None))
  }

  // The calls a restart gives up: all that have not completed.
  function Abandoned(m: Mailbox): set<Call> {
    set k | k in m.records && !m.records[k].state.Completed? :: m.records[k].call
  }

  // ------------------------------------------------------------------------
  // What every mailbox satisfies

  // The sequences of one caller, in queue order.
  function Of(keys: seq<Key>, c: WorkerID): seq<nat> {
    if keys == [] then []
    else Of(keys[..|keys| - 1], c) + if keys[|keys| - 1].caller == c then [keys[|keys| - 1].sequence] else []
  }

  function Upto(a: nat, b: nat): seq<nat>
    requires a <= b
  {
    seq(b - a, i requires 0 <= i < b - a => a + i)
  }

  function StateAt(m: Mailbox, c: WorkerID, n: nat): Option<CallState> {
    if Key(c, n) in m.records then Some(m.records[Key(c, n)].state) else None
  }

  // How many calls of c were started: all that were admitted and are not ready.
  function Started(m: Mailbox, c: WorkerID): int { Expected(m, c) - |Of(m.ready, c)| }

  // The state every sequence number of a caller must have.
  function Placed(m: Mailbox, c: WorkerID, n: nat): Option<CallState> {
    if n < Started(m, c) then Some(if m.running == Some(Key(c, n)) then Running else Completed)
    else if n < Expected(m, c) then Some(Queued)
    else if n in WaitingOf(m, c) then Some(Buffered)
    else None
  }

  // `admitting` says the caller's next call is just being taken from the buffer.
  ghost predicate CallerOk(m: Mailbox, c: WorkerID, admitting: bool) {
    && 0 <= Started(m, c) && Of(m.ready, c) == Upto(Started(m, c), Expected(m, c))
    && (forall n :: n in WaitingOf(m, c) ==> n > Expected(m, c))
    && (forall n: nat :: (admitting && n == Expected(m, c)) || StateAt(m, c, n) == Placed(m, c, n))
    && (m.running.Some? && m.running.value.caller == c ==> m.running.value.sequence < Started(m, c))
  }

  ghost predicate RecordOk(m: Mailbox, k: Key, r: Record) {
    && r.call.sequence >= 0 && KeyOf(r.call) == k && r.call.actor == m.actor && r.call.generation == m.generation
    && (r.state.Completed? <==> r.result.Some?)
  }

  ghost predicate RecordsOk(m: Mailbox) { forall k :: k in m.records ==> RecordOk(m, k, m.records[k]) }

  /** Per caller, the started calls come first, then the queued ones in order,
      then a gap, then the buffered ones. */
  ghost predicate MailboxInv(m: Mailbox) { RecordsOk(m) && forall c: WorkerID :: CallerOk(m, c, false) }

  // One caller, while `call` is being admitted.
  ghost predicate CallerReady(m: Mailbox, call: Call, c: WorkerID) { CallerOk(m, c, c == call.caller) }

  ghost predicate Admissible(m: Mailbox, call: Call) {
    && call.sequence == Expected(m, call.caller) && call.actor == m.actor && call.generation == m.generation
    && RecordsOk(m) && forall c: WorkerID :: CallerReady(m, call, c)
  }

  lemma NextIsAdmissible(m: Mailbox, call: Call)
    requires MailboxInv(m) && call.sequence == Expected(m, call.caller)
    requires call.actor == m.actor && call.generation == m.generation
    ensures Admissible(m, call)
  {
    forall c: WorkerID ensures CallerReady(m, call, c) {
      assert CallerOk(m, c, false);
    }
  }

  function Fresh(actor: ActorID, generation: nat): Mailbox { Mailbox(actor, generation, map[], map[], map[], [], None) }

  lemma FreshIsInv(actor: ActorID, generation: nat)
    ensures MailboxInv(Fresh(actor, generation))
  {
    forall c: WorkerID ensures CallerOk(Fresh(actor, generation), c, false) {
      assert Upto(0, 0) == [];
    }
  }

  // ------------------------------------------------------------------------
  // Every operation keeps it

  lemma OfAppend(keys: seq<Key>, k: Key, c: WorkerID)
    ensures Of(keys + [k], c) == Of(keys, c) + if k.caller == c then [k.sequence] else []
  {
    assert (keys + [k])[..|keys|] == keys;
  }

  lemma {:induction false} OfFront(keys: seq<Key>, c: WorkerID)
    requires keys != []
    ensures Of(keys, c) == (if keys[0].caller == c then [keys[0].sequence] else []) + Of(keys[1..], c)
  {
    var n := |keys| - 1;
    if n == 0 {
    } else {
      OfFront(keys[..n], c);
      assert keys[..n][1..] == keys[1..][..n - 1];
    }
  }

  lemma UptoSplit(a: nat, b: nat)
    ensures a <= b ==> Upto(a, b + 1) == Upto(a, b) + [b]
    ensures a < b ==> Upto(a, b) == [a] + Upto(a + 1, b)
  {
  }

  lemma EnqueueCaller(m: Mailbox, call: Call, c: WorkerID)
    requires call.sequence >= 0 && call.sequence == Expected(m, call.caller) && CallerOk(m, c, c == call.caller)
    ensures CallerOk(Enqueue(m, call), c, c == call.caller && call.sequence + 1 in WaitingOf(m, c))
    ensures Started(Enqueue(m, call), c) == Started(m, c)
  {
    var m' := Enqueue(m, call);
    OfAppend(m.ready, KeyOf(call), c);
    assert WaitingOf(m', c) == WaitingOf(m, c) - if c == call.caller then {call.sequence + 1} else {};
    if c == call.caller {
      UptoSplit(Started(m, c), Expected(m, c));
    }
    forall n: nat | !(c == call.caller && call.sequence + 1 in WaitingOf(m, c) && n == Expected(m', c))
      ensures StateAt(m', c, n) == Placed(m', c, n)
    {
      assert StateAt(m', c, n) == if Key(c, n) == KeyOf(call) then Some(Queued) else StateAt(m, c, n);
    }
  }

  // The buffered follower is the caller's next call.
  lemma FollowerIsNext(m: Mailbox, call: Call)
    requires call.sequence >= 0 && Admissible(m, call)
    ensures Follower(m, call).Some? <==> call.sequence + 1 in WaitingOf(m, call.caller)
    ensures Follower(m, call).Some? ==>
      var f := Follower(m, call).value;
      f.sequence == call.sequence + 1 && f.caller == call.caller && f.actor == m.actor && f.generation == m.generation
  {
    assert CallerReady(m, call, call.caller);
    if call.sequence + 1 in WaitingOf(m, call.caller) {
      assert StateAt(m, call.caller, call.sequence + 1) == Placed(m, call.caller, call.sequence + 1);
      assert RecordOk(m, Key(call.caller, call.sequence + 1), m.records[Key(call.caller, call.sequence + 1)]);
    }
  }

  lemma EnqueueKeeps(m: Mailbox, call: Call)
    requires call.sequence >= 0 && Admissible(m, call)
    ensures Follower(m, call).None? ==> MailboxInv(Enqueue(m, call))
    ensures Follower(m, call).Some? ==> Admissible(Enqueue(m, call), Follower(m, call).value)
    ensures forall c :: Started(Enqueue(m, call), c) == Started(m, c)
  {
    FollowerIsNext(m, call);
    forall c: WorkerID
      ensures CallerOk(Enqueue(m, call), c, c == call.caller && call.sequence + 1 in WaitingOf(m, c))
      ensures Started(Enqueue(m, call), c) == Started(m, c)
    {
      assert CallerReady(m, call, c);
      EnqueueCaller(m, call, c);
    }
    if Follower(m, call).Some? {
      forall c: WorkerID ensures CallerReady(Enqueue(m, call), Follower(m, call).value, c) {
      }
    }
  }

  lemma AdmitUnfolds(m: Mailbox, call: Call)
    requires call.sequence >= 0 && Admissible(m, call)
    ensures Follower(m, call).None? ==> Admit(m, call).0 == Enqueue(m, call) && Admit(m, call).1 == [call]
    ensures Follower(m, call).Some? ==> Follower(m, call).value.sequence >= 0
    ensures Follower(m, call).Some? ==>
      && Admit(m, call).0 == Admit(Enqueue(m, call), Follower(m, call).value).0
      && Admit(m, call).1 == [call] + Admit(Enqueue(m, call), Follower(m, call).value).1
  {
    FollowerIsNext(m, call);
  }

  // An admission adds consecutive calls and starts none.
  ghost predicate Admits(m: Mailbox, call: Call, m': Mailbox, admitted: seq<Call>) {
    && MailboxInv(m') && m'.actor == m.actor && m'.generation == m.generation
    && admitted != [] && admitted[0] == call
    && (forall i :: 0 <= i < |admitted| ==>
          admitted[i].sequence == call.sequence + i && admitted[i].caller == call.caller)
    && Expected(m', call.caller) == call.sequence + |admitted|
    && call.sequence + |admitted| !in WaitingOf(m, call.caller)
    && forall c :: Started(m', c) == Started(m, c)
  }

  /** Admitting a call queues the longest contiguous run it completes. */
  lemma {:induction false} AdmitKeeps(m: Mailbox, call: Call)
    requires call.sequence >= 0 && Admissible(m, call)
    ensures Admits(m, call, Admit(m, call).0, Admit(m, call).1)
    decreases |WaitingOf(m, call.caller)|
  {
    EnqueueKeeps(m, call);
    FollowerIsNext(m, call);
    AdmitUnfolds(m, call);
    var follower := Follower(m, call);
    if follower.None? {
    } else {
      SmallerWaiting(m, call);
      AdmitKeeps(Enqueue(m, call), follower.value);
      AdmitsThenMore(m, call, Admit(Enqueue(m, call), follower.value).0, Admit(Enqueue(m, call), follower.value).1);
    }
  }

  lemma AdmitsThenMore(m: Mailbox, call: Call, m': Mailbox, rest: seq<Call>)
    requires call.sequence >= 0 && call.sequence + 1 in WaitingOf(m, call.caller) && Follower(m, call).Some?
    requires Follower(m, call).value.sequence == call.sequence + 1 && Follower(m, call).value.caller == call.caller
    requires Admits(Enqueue(m, call), Follower(m, call).value, m', rest)
    requires forall c :: Started(Enqueue(m, call), c) == Started(m, c)
    ensures Admits(m, call, m', [call] + rest)
  {
    SmallerWaiting(m, call);
    var admitted := [call] + rest;
    forall i | 0 <= i < |admitted|
      ensures admitted[i].sequence == call.sequence + i && admitted[i].caller == call.caller
    {
      if i > 0 { assert admitted[i] == rest[i - 1]; }
    }
  }

  // A call that keeps a gap in front of it.
  function Buffer(m: Mailbox, call: Call): Mailbox
    requires call.sequence >= 0
  {
    m.(records := m.records[KeyOf(call) := Record(call, Buffered, None)],
       buffered := m.buffered[call.caller := WaitingOf(m, call.caller) + {call.sequence}])
  }

  lemma BufferKeeps(m: Mailbox, call: Call)
    requires MailboxInv(m) && call.actor == m.actor && call.generation == m.generation
    requires call.sequence > Expected(m, call.caller)
    ensures MailboxInv(Buffer(m, call)) && forall c :: Started(Buffer(m, call), c) == Started(m, c)
  {
    var m' := Buffer(m, call);
    forall c: WorkerID ensures CallerOk(m', c, false) {
      assert CallerOk(m, c, false);
      assert WaitingOf(m', c) == WaitingOf(m, c) + if c == call.caller then {call.sequence as nat} else {};
      forall n: nat ensures StateAt(m', c, n) == Placed(m', c, n) {
        assert StateAt(m', c, n) == if Key(c, n) == KeyOf(call) then Some(Buffered) else StateAt(m, c, n);
      }
    }
  }

  /** A submission keeps the mailbox and starts nothing; the branch for pruned
      records is never taken. */
  lemma SubmitKeeps(m: Mailbox, call: Call)
    requires MailboxInv(m)
    ensures MailboxInv(Submit(m, call).0) && Submit(m, call).0.generation == m.generation
    ensures forall c :: Started(Submit(m, call).0, c) == Started(m, c)
    ensures 0 <= call.sequence < Expected(m, call.caller) ==> KeyOf(call) in m.records
  {
    assert CallerOk(m, call.caller, false);
    if call.sequence >= 0 {
      assert StateAt(m, call.caller, call.sequence) == Placed(m, call.caller, call.sequence);
      if call.sequence > Expected(m, call.caller) && call.actor == m.actor && call.generation == m.generation {
        BufferKeeps(m, call);
      } else if call.sequence == Expected(m, call.caller) && call.actor == m.actor && call.generation == m.generation {
        NextIsAdmissible(m, call);
        AdmitKeeps(m, call);
      }
    }
  }

  lemma TakeCaller(m: Mailbox, c: WorkerID)
    requires m.running.None? && m.ready != [] && m.ready[0] in m.records && CallerOk(m, c, false)
    requires CallerOk(m, m.ready[0].caller, false)
    ensures CallerOk(TakeNext(m).0, c, false)
    ensures Started(TakeNext(m).0, c) == Started(m, c) + if c == m.ready[0].caller then 1 else 0
    ensures c == m.ready[0].caller ==> m.ready[0].sequence == Started(m, c)
  {
    var key, m' := m.ready[0], TakeNext(m).0;
    OfFront(m.ready, c);
    assert WaitingOf(m', c) == WaitingOf(m, c);
    if c == key.caller {
      UptoSplit(Started(m, c), Expected(m, c));
      assert Of(m.ready, c)[0] == key.sequence;
      assert Of(m'.ready, c) == Of(m.ready, c)[1..];
    }
    forall n: nat ensures StateAt(m', c, n) == Placed(m', c, n) {
      assert StateAt(m', c, n) == if Key(c, n) == key then Some(Running) else StateAt(m, c, n);
    }
  }

  /** Starting a call takes its caller's next one, and only when none is running. */
  lemma TakeKeeps(m: Mailbox)
    requires MailboxInv(m)
    ensures MailboxInv(TakeNext(m).0)
    ensures TakeNext(m).1.Some? <==> m.running.None? && m.ready != []
    ensures TakeNext(m).1.Some? ==>
      && m.ready[0].sequence == Started(m, m.ready[0].caller)
      && forall c :: Started(TakeNext(m).0, c) == Started(m, c) + if c == m.ready[0].caller then 1 else 0
  {
    if m.running.None? && m.ready != [] {
      HeadIsQueued(m);
      forall c: WorkerID
        ensures CallerOk(TakeNext(m).0, c, false)
        ensures Started(TakeNext(m).0, c) == Started(m, c) + if c == m.ready[0].caller then 1 else 0
        ensures c == m.ready[0].caller ==> m.ready[0].sequence == Started(m, c)
      {
        TakeCaller(m, c);
      }
    }
  }

  lemma HeadIsQueued(m: Mailbox)
    requires m.ready != [] && CallerOk(m, m.ready[0].caller, false)
    ensures m.ready[0] in m.records && m.records[m.ready[0]].state.Queued?
  {
    var key := m.ready[0];
    OfFront(m.ready, key.caller);
    assert Of(m.ready, key.caller)[0] == key.sequence;
    assert StateAt(m, key.caller, key.sequence) == Placed(m, key.caller, key.sequence);
  }

  lemma CompleteKeeps(m: Mailbox, result: nat)
    requires MailboxInv(m)
    ensures Complete(m, result).Ok? <==> m.running.Some?
    ensures Complete(m, result).Ok? ==>
      MailboxInv(Complete(m, result).value) && forall c :: Started(Complete(m, result).value, c) == Started(m, c)
  {
    if m.running.Some? {
      var key := m.running.value;
      assert CallerOk(m, key.caller, false);
      assert StateAt(m, key.caller, key.sequence) == Placed(m, key.caller, key.sequence);
      var m' := Complete(m, result).value;
      forall c: WorkerID ensures CallerOk(m', c, false) {
        assert CallerOk(m, c, false) && WaitingOf(m', c) == WaitingOf(m, c);
        forall n: nat ensures StateAt(m', c, n) == Placed(m', c, n) {
          assert StateAt(m', c, n) == if Key(c, n) == key then Some(Completed) else StateAt(m, c, n);
        }
      }
    }
  }

  // ------------------------------------------------------------------------
  // Calls start exactly once, in order

  datatype Op = Submits(call: Call) | Takes | Completes(result: nat) | Advances(generation: nat)

  ghost function Perform(m: Mailbox, op: Op): Mailbox {
    match op
    case Submits(call) => Submit(m, call).0
    case Takes => TakeNext(m).0
    case Completes(result) => if Complete(m, result).Ok? then Complete(m, result).value else m
    case Advances(g) => if Advance(m, g).Ok? then Advance(m, g).value else m
  }

  // The calls started in the current generation, oldest first.
  ghost function Log(m: Mailbox, log: seq<Key>, op: Op): seq<Key> {
    if op.Takes? && TakeNext(m).1.Some? then log + [m.ready[0]]
    else if op.Advances? && Advance(m, op.generation).Ok? then []
    else log
  }

  // Each caller's started calls are numbered 0, 1, 2, ... up to the last one started.
  ghost predicate InOrder(m: Mailbox, log: seq<Key>) {
    forall c: WorkerID :: 0 <= Started(m, c) && Of(log, c) == Upto(0, Started(m, c))
  }

  lemma TakeInOrder(m: Mailbox, log: seq<Key>)
    requires MailboxInv(m) && InOrder(m, log) && TakeNext(m).1.Some?
    ensures InOrder(TakeNext(m).0, log + [m.ready[0]])
  {
    hide MailboxInv, TakeNext, Started, Of;
    TakeKeeps(m);
    forall c: WorkerID
      ensures 0 <= Started(TakeNext(m).0, c) && Of(log + [m.ready[0]], c) == Upto(0, Started(TakeNext(m).0, c))
    {
      assert 0 <= Started(m, c) && Of(log, c) == Upto(0, Started(m, c));
      OfAppend(log, m.ready[0], c);
      UptoSplit(0, Started(m, c));
    }
  }

  lemma PerformKeeps(m: Mailbox, log: seq<Key>, op: Op)
    requires MailboxInv(m) && InOrder(m, log)
    ensures MailboxInv(Perform(m, op)) && InOrder(Perform(m, op), Log(m, log, op))
  {
    match op
    case Submits(call) => SubmitKeeps(m, call);
    case Takes =>
      TakeKeeps(m);
      if TakeNext(m).1.Some? { TakeInOrder(m, log); }
    case Completes(result) => CompleteKeeps(m, result);
    case Advances(g) =>
      FreshIsInv(m.actor, g);
      assert Upto(0, 0) == [];
  }

  ghost function Run(m: Mailbox, log: seq<Key>, ops: seq<Op>): (Mailbox, seq<Key>)
    decreases |ops|
  {
    if ops == [] then (m, log) else Run(Perform(m, ops[0]), Log(m, log, ops[0]), ops[1..])
  }

  /** Main result: for any arrival order, with duplicates and gaps, each
      generation starts every caller's calls exactly in order 0, 1, 2, ... with
      no gap and no repeat, one at a time. */
  lemma {:induction false} StartsInOrder(m: Mailbox, log: seq<Key>, ops: seq<Op>)
    requires MailboxInv(m) && InOrder(m, log)
    ensures var (m', log') := Run(m, log, ops); MailboxInv(m') && InOrder(m', log')
    decreases |ops|
  {
    if ops == [] {
    } else {
      PerformKeeps(m, log, ops[0]);
      StartsInOrder(Perform(m, ops[0]), Log(m, log, ops[0]), ops[1..]);
    }
  }

  // ------------------------------------------------------------------------
  // The mailbox object

  class ActorMailbox {
    var box: Mailbox

    ghost predicate Valid()
      reads this
    {
      MailboxInv(box)
    }

    constructor (actor: ActorID, generation: nat)
      ensures Valid() && box == Fresh(actor, generation)
    {
      FreshIsInv(actor, generation);
      box := Fresh(actor, generation);
    }

    // Queue the call and every follower the buffer already has.
    method AdmitContiguous(first: Call) returns (admitted: seq<Call>)
      requires first.sequence >= 0 && Admissible(box, first)
      modifies this
      ensures box == Admit(old(box), first).0 && admitted == Admit(old(box), first).1
    {
      admitted := [];
      var call, more := first, true;
      while more
        invariant more ==> call.sequence >= 0 && Admissible(box, call)
        invariant more ==> Admit(old(box), first).0 == Admit(box, call).0
        invariant more ==> Admit(old(box), first).1 == admitted + Admit(box, call).1
        invariant !more ==> box == Admit(old(box), first).0 && admitted == Admit(old(box), first).1
        decreases more, |WaitingOf(box, call.caller)|
      {
        var follower := Follower(box, call);
        EnqueueKeeps(box, call);
        AdmitUnfolds(box, call);
        FollowerIsNext(box, call);
        if follower.Some? { SmallerWaiting(box, call); }
        admitted := admitted + [call];
        box := Enqueue(box, call);
        more := follower.Some?;
        if more { call := follower.value; }
      }
    }

    method SubmitCall(call: Call) returns (submission: Result<Submission>)
      requires Valid()
      modifies this
      ensures Valid() && box == Submit(old(box), call).0 && submission == Submit(old(box), call).1
    {
      SubmitKeeps(box, call);
      if call.actor != box.actor || call.generation != box.generation { return Ok(FencedCall); }
      if call.sequence < 0 { return Err(Negative); }
      if KeyOf(call) in box.records {
        var existing := box.records[KeyOf(call)];
        return if SameLogicalCall(existing.call, call) then Ok(Duplicate(existing.result)) else Err(Reused);
      }
      if call.sequence > Expected(box, call.caller) {
        box := Buffer(box, call);
        return Ok(BufferedCall);
      }
      assert StateAt(box, call.caller, call.sequence) == Placed(box, call.caller, call.sequence) by {
        assert CallerOk(box, call.caller, false);
      }
      NextIsAdmissible(box, call);
      var admitted := AdmitContiguous(call);
      submission := Ok(Accepted(admitted));
    }

    method TakeCall() returns (call: Option<Call>)
      requires Valid()
      modifies this
      ensures Valid() && (box, call) == TakeNext(old(box))
    {
      TakeKeeps(box);
      if box.running.Some? || box.ready == [] { return None; }
      var key := box.ready[0];
      HeadIsQueued(box);
      call := Some(box.records[key].call);
      box := box.(ready := box.ready[1..], running := Some(key),
                  records := box.records[key := box.records[key].(state := Running)]);
    }

    method CompleteCurrent(result: nat) returns (call: Result<Call>)
      requires Valid()
      modifies this
      ensures Valid()
      ensures old(box).running.Some? ==>
        && Complete(old(box), result).Ok? && box == Complete(old(box), result).value
        && old(box).running.value in old(box).records && call == Ok(old(box).records[old(box).running.value].call)
      ensures old(box).running.None? ==> call == Err(NothingRunning) && box == old(box)
    {
      CompleteKeeps(box, result);
      if box.running.None? { return Err(NothingRunning); }
      var record := box.records[box.running.value];
      box := box.(running := None,
                  records := box.records[box.running.value := record.(state := Completed, result := Some(result))]);
      call := Ok(record.call);
    }

    method AdvanceGeneration(generation: nat) returns (abandoned: Result<set<Call>>)
      requires Valid()
      modifies this
      ensures Valid()
      ensures generation > old(box).generation ==>
                abandoned == Ok(Abandoned(old(box))) && box == Fresh(old(box).actor, generation)
      ensures generation <= old(box).generation ==> abandoned == Err(NotNewer) && box == old(box)
    {
      if generation <= box.generation { return Err(NotNewer); }
      FreshIsInv(box.actor, generation);
      abandoned := Ok(Abandoned(box));
      box := Mailbox(box.actor, generation, map[], map[], map[], [], None);
    }
  }
}
