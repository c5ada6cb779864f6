/** What a mailbox answers to a submission, what it remembers, and that every
    call without a gap before it gets to run. */
module MailboxOutcomes {
  import opened Ids
  import opened ActorMailboxes

  // The calls this generation knows, and the results it can repeat.
  function CallsOf(m: Mailbox): map<Key, Call> { map k | k in m.records :: m.records[k].call }
  function ResultsOf(m: Mailbox): map<Key, nat> {
    map k | k in m.records && m.records[k].result.Some? :: m.records[k].result.value
  }

  // A retry carries the fingerprint of the first attempt, or its payload when neither has one.
  predicate SameWork(a: Call, b: Call) {
    if a.fingerprint.None? && b.fingerprint.None? then a.payload == b.payload else a.fingerprint == b.fingerprint
  }

  // The call is for this incarnation and numbered.
  predicate Ours(m: Mailbox, call: Call) {
    call.actor == m.actor && call.generation == m.generation && call.sequence >= 0
  }

  predicate New(m: Mailbox, call: Call) { Ours(m, call) && KeyOf(call) !in CallsOf(m) }

  // No earlier call of the caller is missing.
  ghost predicate NoGap(m: Mailbox, c: WorkerID, n: nat) { forall k: nat :: k < n ==> Key(c, k) in CallsOf(m) }

  // ------------------------------------------------------------------------
  // Submissions

  /** The caller's next number is the first one the mailbox does not know. */
  lemma ExpectedIsFirstGap(m: Mailbox, c: WorkerID, n: nat)
    requires MailboxInv(m)
    ensures NoGap(m, c, n) <==> n <= Expected(m, c)
    ensures Key(c, Expected(m, c)) !in CallsOf(m)
  {
    assert CallerOk(m, c, false);
    assert StateAt(m, c, Expected(m, c)) == Placed(m, c, Expected(m, c));
    forall k: nat | k < Expected(m, c) ensures Key(c, k) in CallsOf(m) {
      assert StateAt(m, c, k) == Placed(m, c, k);
    }
  }

  lemma EnqueueMemory(m: Mailbox, call: Call)
    requires call.sequence >= 0
    ensures CallsOf(Enqueue(m, call)) == CallsOf(m)[KeyOf(call) := call]
    ensures ResultsOf(Enqueue(m, call)) == ResultsOf(m) - {KeyOf(call)}
  {
  }

  predicate Filed(calls: map<Key, Call>, k: Key, call: Call) { k in calls && calls[k] == call }

  // The admitted calls are the known ones with consecutive numbers.
  ghost predicate Consecutive(calls: map<Key, Call>, c: WorkerID, start: nat, admitted: seq<Call>) {
    forall i: nat :: i < |admitted| ==> Filed(calls, Key(c, start + i), admitted[i])
  }

  // An admission takes in one new call; the rest of the run was known before.
  lemma {:induction false} AdmitMemory(m: Mailbox, call: Call)
    requires call.sequence >= 0 && Admissible(m, call) && KeyOf(call) !in ResultsOf(m)
    ensures CallsOf(Admit(m, call).0) == CallsOf(m)[KeyOf(call) := call]
    ensures ResultsOf(Admit(m, call).0) == ResultsOf(m)
    ensures Consecutive(CallsOf(Admit(m, call).0), call.caller, call.sequence, Admit(m, call).1)
    decreases |WaitingOf(m, call.caller)|
  {
    hide CallsOf, ResultsOf, Consecutive, Admissible, Enqueue, Admit, Follower, WaitingOf;
    EnqueueMemory(m, call);
    EnqueueKeeps(m, call);
    FollowerIsNext(m, call);
    AdmitUnfolds(m, call);
    assert ResultsOf(m) - {KeyOf(call)} == ResultsOf(m);
    if Follower(m, call).None? {
      EmptyIsConsecutive(CallsOf(Enqueue(m, call)), call);
      ConsecutiveStarts(CallsOf(Enqueue(m, call)), call, []);
      assert [call] + [] == [call];
    } else {
      var next := Follower(m, call).value;
      SmallerWaiting(m, call);
      FollowerIsKnown(m, call);
      AdmitMemory(Enqueue(m, call), next);
      assert CallsOf(m)[KeyOf(call) := call][KeyOf(next) := next] == CallsOf(m)[KeyOf(call) := call];
      ConsecutiveStarts(CallsOf(Admit(m, call).0), call, Admit(Enqueue(m, call), next).1);
    }
  }

  lemma FollowerIsKnown(m: Mailbox, call: Call)
    requires call.sequence >= 0 && Admissible(m, call) && Follower(m, call).Some?
    ensures var next := Follower(m, call).value;
      && next.sequence >= 0 && KeyOf(next) == Key(call.caller, call.sequence + 1) != KeyOf(call)
      && KeyOf(next) in CallsOf(m) && CallsOf(m)[KeyOf(next)] == next && KeyOf(next) !in ResultsOf(Enqueue(m, call))
  {
    FollowerIsNext(m, call);
    assert CallerReady(m, call, call.caller);
    assert StateAt(m, call.caller, call.sequence + 1) == Placed(m, call.caller, call.sequence + 1);
    assert RecordOk(m, Key(call.caller, call.sequence + 1), m.records[Key(call.caller, call.sequence + 1)]);
  }

  lemma EmptyIsConsecutive(calls: map<Key, Call>, call: Call)
    requires call.sequence >= 0
    ensures Consecutive(calls, call.caller, call.sequence + 1, [])
  {
  }

  lemma ConsecutiveStarts(calls: map<Key, Call>, call: Call, rest: seq<Call>)
    requires call.sequence >= 0 && KeyOf(call) in calls && calls[KeyOf(call)] == call
    requires Consecutive(calls, call.caller, call.sequence + 1, rest)
    ensures Consecutive(calls, call.caller, call.sequence, [call] + rest)
  {
    var admitted := [call] + rest;
    var c, start: nat := call.caller, call.sequence;
    forall i: nat | i < |admitted|
      ensures Filed(calls, Key(c, start + i), admitted[i])
    {
      if i == 0 {
        assert Key(c, start + i) == KeyOf(call);
      } else {
        var j: nat := i - 1;
        assert admitted[i] == rest[j] && Filed(calls, Key(c, start + 1 + j), rest[j]);
      }
    }
  }

  // The run of known calls that a new next call completes.
  ghost predicate CompletesRun(m: Mailbox, call: Call, m': Mailbox, admitted: seq<Call>)
    requires call.sequence >= 0
  {
    && admitted != [] && Key(call.caller, call.sequence + |admitted|) !in CallsOf(m)
    && Consecutive(CallsOf(m'), call.caller, call.sequence, admitted)
  }

  /** Main result: the answer to every submission. A retry of a known call is a
      duplicate carrying the result if there is one; a new call is buffered exactly
      when an earlier number is missing, and otherwise admits itself and the known
      calls right behind it. Only a new call is remembered. */
  lemma SubmissionIs(m: Mailbox, call: Call)
    requires MailboxInv(m)
    ensures var (m', answer) := Submit(m, call);
      && (answer == Ok(FencedCall) <==> !(call.actor == m.actor && call.generation == m.generation))
      && (answer == Err(Negative) <==> call.actor == m.actor && call.generation == m.generation && call.sequence < 0)
      && (Ours(m, call) && !New(m, call) ==>
            answer == if !SameWork(CallsOf(m)[KeyOf(call)], call) then Err(Reused)
                      else Ok(Duplicate(if KeyOf(call) in ResultsOf(m) then Some(ResultsOf(m)[KeyOf(call)]) else None)))
      && (New(m, call) ==>
            && answer.Ok? && (answer.value.BufferedCall? <==> !NoGap(m, call.caller, call.sequence))
            && (answer.value.Accepted? <==> NoGap(m, call.caller, call.sequence))
            && (answer.value.Accepted? ==> CompletesRun(m, call, m', answer.value.admitted)))
      && CallsOf(m') == (if New(m, call) then CallsOf(m)[KeyOf(call) := call] else CallsOf(m))
      && ResultsOf(m') == ResultsOf(m)
  {
    if Ours(m, call) {
      if New(m, call) {
        NewSubmission(m, call);
      } else {
        KnownSubmission(m, call);
      }
    }
  }

  lemma KnownSubmission(m: Mailbox, call: Call)
    requires MailboxInv(m) && Ours(m, call) && !New(m, call)
    ensures Submit(m, call).0 == m
    ensures Submit(m, call).1 ==
      if !SameWork(CallsOf(m)[KeyOf(call)], call) then Err(Reused)
      else Ok(Duplicate(if KeyOf(call) in ResultsOf(m) then Some(ResultsOf(m)[KeyOf(call)]) else None))
  {
    hide Buffer, Admit, CallerOk;
    assert RecordOk(m, KeyOf(call), m.records[KeyOf(call)]);
  }

  lemma NewSubmission(m: Mailbox, call: Call)
    requires MailboxInv(m) && New(m, call)
    ensures var (m', answer) := Submit(m, call);
      && answer.Ok? && (answer.value.BufferedCall? <==> !NoGap(m, call.caller, call.sequence))
      && (answer.value.Accepted? <==> NoGap(m, call.caller, call.sequence))
      && (answer.value.Accepted? ==> CompletesRun(m, call, m', answer.value.admitted))
      && CallsOf(m') == CallsOf(m)[KeyOf(call) := call] && ResultsOf(m') == ResultsOf(m)
  {
    hide MailboxInv, NoGap, Consecutive, Admissible, CallerOk;
    ExpectedIsFirstGap(m, call.caller, call.sequence);
    NewIsAhead(m, call);
    if call.sequence > Expected(m, call.caller) {
      assert CallsOf(Buffer(m, call)) == CallsOf(m)[KeyOf(call) := call];
    } else {
      hide CallsOf, ResultsOf, Admissible, Admit, Consecutive, CallerOk;
      NextIsAdmissible(m, call);
      NoResult(m, KeyOf(call));
      AdmitKeeps(m, call);
      AdmitMemory(m, call);
      StopsAtGap(m, call, |Admit(m, call).1|);
    }
  }

  lemma NewIsAhead(m: Mailbox, call: Call)
    requires MailboxInv(m) && New(m, call)
    ensures call.sequence >= Expected(m, call.caller) && KeyOf(call) !in m.records
  {
    assert CallerOk(m, call.caller, false);
    assert StateAt(m, call.caller, call.sequence) == Placed(m, call.caller, call.sequence);
  }

  lemma NoResult(m: Mailbox, k: Key)
    requires k !in CallsOf(m)
    ensures k !in ResultsOf(m)
  {
  }

  lemma StopsAtGap(m: Mailbox, call: Call, n: nat)
    requires MailboxInv(m) && call.sequence >= 0 && call.sequence == Expected(m, call.caller) && n > 0
    requires call.sequence + n !in WaitingOf(m, call.caller)
    ensures Key(call.caller, call.sequence + n) !in CallsOf(m)
  {
    assert CallerOk(m, call.caller, false);
    assert StateAt(m, call.caller, call.sequence + n) == Placed(m, call.caller, call.sequence + n);
  }

  // ------------------------------------------------------------------------
  // Execution

  /** A call starts exactly when one is ready and none runs, and it is the one
      that was submitted under the first ready number. */
  lemma TakenIsQueued(m: Mailbox)
    requires MailboxInv(m)
    ensures var (m', taken) := TakeNext(m);
      && (taken.Some? <==> m.running.None? && m.ready != [])
      && (taken.Some? ==>
            && m.ready[0] in CallsOf(m) && taken.value == CallsOf(m)[m.ready[0]]
            && m'.running == Some(m.ready[0]) && m'.ready == m.ready[1..])
      && (taken.None? ==> m' == m) && CallsOf(m') == CallsOf(m) && ResultsOf(m') == ResultsOf(m)
  {
    if m.running.None? && m.ready != [] {
      assert CallerOk(m, m.ready[0].caller, false);
      HeadIsQueued(m);
    }
  }

  /** Completion records exactly the given result for the running call, and frees
      the mailbox for the next one. */
  lemma CompletionIs(m: Mailbox, result: nat)
    requires MailboxInv(m)
    ensures Complete(m, result).Ok? <==> m.running.Some?
    ensures Complete(m, result).Ok? ==>
      var m' := Complete(m, result).value;
      && ResultsOf(m') == ResultsOf(m)[m.running.value := result] && CallsOf(m') == CallsOf(m)
      && m.running.value !in ResultsOf(m) && m'.running.None? && m'.ready == m.ready
  {
    if m.running.Some? {
      var key := m.running.value;
      assert CallerOk(m, key.caller, false);
      assert StateAt(m, key.caller, key.sequence) == Placed(m, key.caller, key.sequence);
      assert RecordOk(m, key, m.records[key]);
    }
  }

  // ------------------------------------------------------------------------
  // Over runs of one generation

  predicate SameGeneration(ops: seq<Op>) { forall op :: op in ops ==> !op.Advances? }

  ghost function After(m: Mailbox, ops: seq<Op>): Mailbox
    decreases |ops|
  {
    if ops == [] then m else After(Perform(m, ops[0]), ops[1..])
  }

  lemma {:induction false} AfterConcat(m: Mailbox, first: seq<Op>, rest: seq<Op>)
    ensures After(m, first + rest) == After(After(m, first), rest)
    decreases |first|
  {
    if first == [] {
      assert first + rest == rest;
    } else {
      assert (first + rest)[1..] == first[1..] + rest;
      AfterConcat(Perform(m, first[0]), first[1..], rest);
    }
  }

  // What one operation adds to the memory of a generation.
  lemma StepMemory(m: Mailbox, op: Op)
    requires MailboxInv(m) && !op.Advances?
    ensures var t := Perform(m, op);
      && MailboxInv(t) && t.actor == m.actor && t.generation == m.generation
      && CallsOf(t) == (if op.Submits? && New(m, op.call) then CallsOf(m)[KeyOf(op.call) := op.call] else CallsOf(m))
      && (forall k :: k in ResultsOf(m) ==> k in ResultsOf(t) && ResultsOf(t)[k] == ResultsOf(m)[k])
  {
    hide MailboxInv, CallsOf, ResultsOf, New, Submit, TakeNext;
    match op
    case Submits(call) =>
      SubmitKeeps(m, call);
      SubmissionIs(m, call);
      SubmitHeader(m, call);
    case Takes =>
      TakeKeeps(m);
      TakenIsQueued(m);
      TakeHeader(m);
    case Completes(result) =>
      CompleteKeeps(m, result);
      CompletionIs(m, result);
  }

  lemma TakeHeader(m: Mailbox)
    ensures TakeNext(m).0.actor == m.actor && TakeNext(m).0.generation == m.generation
  {
  }

  lemma SubmitHeader(m: Mailbox, call: Call)
    requires MailboxInv(m)
    ensures Submit(m, call).0.actor == m.actor && Submit(m, call).0.generation == m.generation
  {
    if call.actor == m.actor && call.generation == m.generation && call.sequence == Expected(m, call.caller) {
      NextIsAdmissible(m, call);
      AdmitKeeps(m, call);
    }
  }

  // The first call with this number that was submitted to the incarnation.
  function Heard(ops: seq<Op>, actor: ActorID, generation: nat, k: Key): Option<Call>
    decreases |ops|
  {
    if ops == [] then None
    else if ops[0].Submits? && ops[0].call.actor == actor && ops[0].call.generation == generation &&
            ops[0].call.sequence >= 0 && KeyOf(ops[0].call) == k
    then Some(ops[0].call)
    else Heard(ops[1..], actor, generation, k)
  }

  /** Over every run of one generation the mailbox knows exactly the calls that
      were submitted to it, each as it was submitted first, and no result changes. */
  lemma {:induction false} RemembersSubmitted(m: Mailbox, ops: seq<Op>, k: Key)
    requires MailboxInv(m) && SameGeneration(ops)
    ensures var t, heard := After(m, ops), Heard(ops, m.actor, m.generation, k);
      && MailboxInv(t) && t.actor == m.actor && t.generation == m.generation
      && (k in CallsOf(t) <==> k in CallsOf(m) || heard.Some?)
      && (k in CallsOf(m) ==> CallsOf(t)[k] == CallsOf(m)[k])
      && (k !in CallsOf(m) && heard.Some? ==> CallsOf(t)[k] == heard.value)
      && (k in ResultsOf(m) ==> k in ResultsOf(t) && ResultsOf(t)[k] == ResultsOf(m)[k])
    decreases |ops|
  {
    hide MailboxInv, CallsOf, ResultsOf, Perform;
    if ops == [] {
    } else {
      StepMemory(m, ops[0]);
      RemembersSubmitted(Perform(m, ops[0]), ops[1..], k);
    }
  }

  /** Main result: the result a call completed with is the answer to every later
      retry of it, for as long as the generation lasts; the retry starts nothing. */
  lemma DuplicatesGetTheResult(m: Mailbox, result: nat, ops: seq<Op>, retry: Call)
    requires MailboxInv(m) && m.running.Some? && SameGeneration(ops)
    requires Ours(m, retry) && KeyOf(retry) == m.running.value
    ensures m.running.value in CallsOf(m)
    ensures SameWork(CallsOf(m)[m.running.value], retry) ==>
              var t := After(m, [Completes(result)] + ops);
              Submit(t, retry) == (t, Ok(Duplicate(Some(result))))
  {
    hide MailboxInv, CallsOf, ResultsOf, TakeNext, Submit;
    CompletionIs(m, result);
    CompleteKeeps(m, result);
    StepMemory(m, Completes(result));
    var m', key := Complete(m, result).value, m.running.value;
    assert ([Completes(result)] + ops)[1..] == ops;
    RemembersSubmitted(m', ops, key);
    RunningIsKnown(m);
    if SameWork(CallsOf(m)[key], retry) { KnownSubmission(After(m', ops), retry); }
  }

  lemma RunningIsKnown(m: Mailbox)
    requires MailboxInv(m) && m.running.Some?
    ensures m.running.value in CallsOf(m)
  {
    var key := m.running.value;
    assert CallerOk(m, key.caller, false);
    assert StateAt(m, key.caller, key.sequence) == Placed(m, key.caller, key.sequence);
  }

  // ------------------------------------------------------------------------
  // Every admitted call runs

  // Nothing is queued or running, so every admitted call has its result.
  lemma IdleHasRun(m: Mailbox, c: WorkerID, n: nat)
    requires MailboxInv(m) && m.ready == [] && m.running.None? && n < Expected(m, c)
    ensures Key(c, n) in ResultsOf(m)
  {
    assert CallerOk(m, c, false);
    assert StateAt(m, c, n) == Placed(m, c, n);
    assert RecordOk(m, Key(c, n), m.records[Key(c, n)]);
  }

  lemma ExpectedStays(m: Mailbox, result: nat, c: WorkerID)
    ensures Expected(TakeNext(m).0, c) == Expected(m, c)
    ensures Complete(m, result).Ok? ==> Expected(Complete(m, result).value, c) == Expected(m, c)
  {
  }

  /** Completing and starting calls in turn empties the queue. */
  lemma {:induction false} Drains(m: Mailbox) returns (ops: seq<Op>)
    requires MailboxInv(m)
    ensures forall op :: op in ops ==> op.Takes? || op.Completes?
    ensures var t := After(m, ops);
      && MailboxInv(t) && t.ready == [] && t.running.None? && forall c :: Expected(t, c) == Expected(m, c)
    decreases |m.ready|, if m.running.Some? then 1 else 0
  {
    hide MailboxInv, TakeNext, Complete, Expected;
    if m.running.Some? {
      CompletionIs(m, 0);
      CompleteKeeps(m, 0);
      var m' := Complete(m, 0).value;
      var rest := Drains(m');
      ops := [Completes(0)] + rest;
      assert ops[1..] == rest && Perform(m, ops[0]) == m';
      forall c ensures Expected(m', c) == Expected(m, c) { ExpectedStays(m, 0, c); }
    } else if m.ready != [] {
      TakenIsQueued(m);
      TakeKeeps(m);
      var m' := TakeNext(m).0;
      var rest := Drains(m');
      ops := [Takes] + rest;
      assert ops[1..] == rest && Perform(m, ops[0]) == m';
      forall c ensures Expected(m', c) == Expected(m, c) { ExpectedStays(m, 0, c); }
    } else {
      ops := [];
    }
  }

  /** Main result: whatever the order of arrival, with duplicates and retries in
      between, once numbers 0 to n of a caller were submitted there is a way for call
      n to complete without another submission. */
  lemma EverySubmittedCallRuns(actor: ActorID, generation: nat, ops: seq<Op>, c: WorkerID, n: nat)
      returns (rest: seq<Op>)
    requires SameGeneration(ops) && forall k: nat :: k <= n ==> Heard(ops, actor, generation, Key(c, k)).Some?
    ensures forall op :: op in rest ==> op.Takes? || op.Completes?
    ensures Key(c, n) in ResultsOf(After(Fresh(actor, generation), ops + rest))
  {
    hide MailboxInv, CallsOf, ResultsOf, Heard, Expected, Perform;
    var m := Fresh(actor, generation);
    FreshIsInv(actor, generation);
    RemembersSubmitted(m, ops, Key(c, n));
    var t := After(m, ops);
    forall k: nat | k < n + 1 ensures Key(c, k) in CallsOf(t) { RemembersSubmitted(m, ops, Key(c, k)); }
    ExpectedIsFirstGap(t, c, n + 1);
    rest := Drains(t);
    IdleHasRun(After(t, rest), c, n);
    AfterConcat(m, ops, rest);
  }

  // ------------------------------------------------------------------------
  // Generations

  /** A newer generation forgets every call, and gives back exactly those of the
      old one that have no result. */
  lemma AdvanceIs(m: Mailbox, generation: nat)
    requires MailboxInv(m)
    ensures Advance(m, generation).Ok? <==> generation > m.generation
    ensures Advance(m, generation).Ok? ==>
      var t := Advance(m, generation).value;
      && t.actor == m.actor && t.generation == generation && CallsOf(t) == map[] && t.ready == [] && t.running.None?
    ensures forall call ::
      call in Abandoned(m) <==> exists k :: k in CallsOf(m) && k !in ResultsOf(m) && CallsOf(m)[k] == call
  {
    forall call ensures
      call in Abandoned(m) <==> exists k :: k in CallsOf(m) && k !in ResultsOf(m) && CallsOf(m)[k] == call
    {
      if call in Abandoned(m) {
        var k :| k in m.records && !m.records[k].state.Completed? && m.records[k].call == call;
        assert RecordOk(m, k, m.records[k]);
        assert k in CallsOf(m) && k !in ResultsOf(m);
      }
      if k :| k in CallsOf(m) && k !in ResultsOf(m) && CallsOf(m)[k] == call {
        assert RecordOk(m, k, m.records[k]);
      }
    }
  }

  lemma GenerationGrows(m: Mailbox, op: Op)
    requires MailboxInv(m)
    ensures var t := Perform(m, op); MailboxInv(t) && t.actor == m.actor && t.generation >= m.generation
  {
    hide MailboxInv, CallsOf, ResultsOf, Submit, TakeNext, Complete;
    if op.Advances? {
      FreshIsInv(m.actor, op.generation);
    } else {
      StepMemory(m, op);
    }
  }

  /** A call of an older incarnation is fenced, and changes nothing, for ever. */
  lemma {:induction false} OldCallsStayFenced(m: Mailbox, ops: seq<Op>, call: Call)
    requires MailboxInv(m) && call.generation < m.generation
    ensures var t := After(m, ops); Submit(t, call) == (t, Ok(FencedCall))
    decreases |ops|
  {
    hide MailboxInv, Perform;
    if ops == [] {
    } else {
      GenerationGrows(m, ops[0]);
      OldCallsStayFenced(Perform(m, ops[0]), ops[1..], call);
    }
  }
}
