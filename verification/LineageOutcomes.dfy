/** When each registry operation succeeds, and what a run of them keeps: the
    credentials only move forward, a claim freezes its task, and a claimed task
    stays until its claim is completed. */
module LineageOutcomes {
  import opened Ids
  import opened ForeignLineage

  // ------------------------------------------------------------------------
  // Acceptance

  /** A lineage is filed exactly for an unclaimed task that has no other lineage, and
      for an unknown one only while admission is open. */
  lemma RegisterIff(g: Registry, task: TaskID, lineage: Lineage)
    ensures var done := Register(g, task, lineage);
      && (done.Ok? <==>
            task !in g.claimed && (task in g.tasks ==> g.tasks[task] == lineage) && (task !in g.tasks ==> g.open))
      && (done == Err(Closed) <==> task !in g.claimed && task !in g.tasks && !g.open)
      && (done.Ok? ==> done.value == g.(tasks := g.tasks[task := lineage]))
      && (done.Ok? && task in g.tasks ==> done.value == g)
  {
    if task in g.tasks && g.tasks[task] == lineage { assert g.tasks[task := lineage] == g.tasks; }
  }

  // Only the hold changes, to a later origin attempt.
  predicate MovesHold(expected: Edge, replacement: Edge) {
    && replacement.task == expected.task && replacement.dependency == expected.dependency
    && replacement.owner == expected.owner && replacement.address == expected.address
    && replacement.borrower == expected.borrower && replacement.roles == expected.roles
    && replacement.attempt > expected.attempt
  }

  // The credential the registry holds for this dependency at this owner.
  predicate Holds(g: Registry, e: Edge) {
    e.task in g.tasks && e.Key() in g.tasks[e.task].edges && g.tasks[e.task].edges[e.Key()] == e
  }

  // Only this credential differs.
  ghost predicate OnlyEdge(g: Registry, h: Registry, e: Edge) {
    && h.claimed == g.claimed && h.dead == g.dead && h.open == g.open && h.tasks.Keys == g.tasks.Keys
    && (forall t :: t in g.tasks && t != e.task ==> h.tasks[t] == g.tasks[t])
    && e.task in g.tasks && h.tasks[e.task].outputs == g.tasks[e.task].outputs
    && h.tasks[e.task].edges == g.tasks[e.task].edges[e.Key() := e]
  }

  /** A replacement is committed exactly when it moves the hold of the credential
      that is held, or was already committed; then the successor is held, and nothing
      else changed. */
  lemma ReplacementIff(g: Registry, expected: Edge, replacement: Edge)
    ensures var done := CommitReplacement(g, expected, replacement);
      && (done.Ok? <==>
            MovesHold(expected, replacement) && expected.task !in g.claimed
            && (Holds(g, expected) || Holds(g, replacement)))
      && (done == Err(Unknown) <==>
            MovesHold(expected, replacement) && expected.task !in g.claimed && expected.task !in g.tasks)
      && (done.Ok? ==> Holds(done.value, replacement) && OnlyEdge(g, done.value, replacement))
  {
    assert MovesHold(expected, replacement) ==> replacement.Key() == expected.Key();
    if CommitReplacement(g, expected, replacement).Ok? && Holds(g, replacement) {
      var edges := g.tasks[replacement.task].edges;
      assert edges[replacement.Key() := replacement] == edges;
    }
  }

  // Exactly one receipt removes the task.
  ghost predicate OneFinal(receipts: seq<Receipt>) {
    exists i :: 0 <= i < |receipts| && receipts[i].removesTask && NoOtherFinal(receipts, i)
  }

  ghost predicate NoOtherFinal(receipts: seq<Receipt>, i: int) {
    forall j :: 0 <= j < |receipts| && j != i ==> !receipts[j].removesTask
  }

  lemma {:induction false} NoFinals(receipts: seq<Receipt>)
    ensures Finals(receipts) == 0 <==> forall j :: 0 <= j < |receipts| ==> !receipts[j].removesTask
  {
    if receipts == [] {
    } else {
      NoFinals(receipts[1..]);
      assert forall j :: 1 <= j < |receipts| ==> receipts[j] == receipts[1..][j - 1];
      assert forall j :: 0 <= j < |receipts[1..]| ==> receipts[1..][j] == receipts[j + 1];
    }
  }

  lemma {:induction false} FinalsAreCounted(receipts: seq<Receipt>)
    ensures Finals(receipts) == 1 <==> OneFinal(receipts)
  {
    if receipts == [] {
    } else {
      var rest := receipts[1..];
      NoFinals(rest);
      FinalsAreCounted(rest);
      assert forall j :: 0 <= j < |rest| ==> rest[j] == receipts[j + 1];
      if OneFinal(rest) && !receipts[0].removesTask {
        var i :| 0 <= i < |rest| && rest[i].removesTask && NoOtherFinal(rest, i);
        forall j | 0 <= j < |receipts| && j != i + 1 ensures !receipts[j].removesTask {
          assert j > 0 ==> receipts[j] == rest[j - 1];
        }
        assert NoOtherFinal(receipts, i + 1);
      }
      if OneFinal(receipts) {
        var i :| 0 <= i < |receipts| && receipts[i].removesTask && NoOtherFinal(receipts, i);
        if i == 0 {
          assert forall j :: 0 <= j < |rest| ==> !rest[j].removesTask;
        } else {
          assert rest[i - 1].removesTask && NoOtherFinal(rest, i - 1);
        }
      }
      if Finals(rest) == 0 && receipts[0].removesTask {
        forall j | 0 <= j < |receipts| && j != 0 ensures !receipts[j].removesTask {
          assert receipts[j] == rest[j - 1];
        }
        assert NoOtherFinal(receipts, 0);
      }
    }
  }

  // One receipt for each output of the registered task, and for nothing else.
  ghost predicate Covers(g: Registry, task: TaskID, receipts: seq<Receipt>) {
    && task in g.tasks
    && (forall r :: r in receipts ==> r.output in g.tasks[task].outputs)
    && forall o :: o in g.tasks[task].outputs ==> exists r :: r in receipts && r.output == o
  }

  /** An unclaimed task is claimed exactly with one receipt per output, one of which
      removes the task; while a sibling is missing nothing happens. A claimed task
      answers with its first plan. */
  lemma ClaimIff(g: Registry, task: TaskID, receipts: seq<Receipt>)
    requires ReceiptsOk(task, receipts)
    ensures var done := Claim(g, task, receipts);
      && (task in g.claimed ==> done == Ok((g, Some(g.claimed[task]))))
      && (task !in g.claimed ==>
            && (done.Err? <==> Covers(g, task, receipts) && !OneFinal(receipts))
            && (done == Ok((g, None)) <==> !Covers(g, task, receipts))
            && (Covers(g, task, receipts) && OneFinal(receipts) ==>
                  var plan := Plan(g.tasks[task], set r | r in receipts);
                  done == Ok((g.(claimed := g.claimed[task := plan]), Some(plan)))))
  {
    FinalsAreCounted(receipts);
    if task in g.tasks {
      var have, want := set r | r in receipts :: r.output, set o | o in g.tasks[task].outputs :: o;
      if have == want {
        forall o | o in g.tasks[task].outputs ensures exists r :: r in receipts && r.output == o {
          assert o in want;
        }
        forall r | r in receipts ensures r.output in g.tasks[task].outputs {
          assert r.output in have;
        }
      }
      if Covers(g, task, receipts) { assert have == want; }
    }
  }

  /** A claim is completed exactly under its own plan, and takes its task with it;
      a death is installed unless another proof of it was. */
  lemma ClosingIff(g: Registry, task: TaskID, plan: Plan, owner: WorkerID, proof: nat)
    ensures var done := CompleteClaim(g, task, plan);
      && (done.Ok? <==> task in g.claimed && g.claimed[task] == plan)
      && (done.Ok? ==> done.value == g.(claimed := g.claimed - {task}, tasks := g.tasks - {task}))
    ensures var marked := MarkDead(g, owner, proof);
      && (marked.Ok? <==> owner in g.dead ==> g.dead[owner] == proof)
      && (marked.Ok? ==> marked.value == g.(dead := g.dead[owner := proof]))
    ensures forall t :: t in Touched(g, owner) <==>
      t in g.tasks && exists k :: k in g.tasks[t].edges && g.tasks[t].edges[k].owner == owner
  {
  }

  // ------------------------------------------------------------------------
  // Runs

  datatype Op =
    | Registers(task: TaskID, lineage: Lineage)
    | Replaces(expected: Edge, replacement: Edge)
    | Claims(claimant: TaskID, receipts: seq<Receipt>)
    | Completes(finished: TaskID, plan: Plan)
    | MarksDead(owner: WorkerID, proof: nat)
    | Aborts(undone: TaskID, exact: Lineage)
    | Closes
  {
    // What registering builds: merged edges under their own keys.
    ghost predicate Valid() {
      Registers? ==> forall k :: k in lineage.edges ==> lineage.edges[k].Key() == k && lineage.edges[k].task == task
    }
  }

  function Perform(g: Registry, op: Op): Registry {
    match op
    case Registers(task, lineage) => if Register(g, task, lineage).Ok? then Register(g, task, lineage).value else g
    case Replaces(e, r) => if CommitReplacement(g, e, r).Ok? then CommitReplacement(g, e, r).value else g
    case Claims(task, receipts) => if Claim(g, task, receipts).Ok? then Claim(g, task, receipts).value.0 else g
    case Completes(task, plan) => if CompleteClaim(g, task, plan).Ok? then CompleteClaim(g, task, plan).value else g
    case MarksDead(owner, proof) => if MarkDead(g, owner, proof).Ok? then MarkDead(g, owner, proof).value else g
    case Aborts(task, exact) => if Abort(g, task, exact).Ok? then Abort(g, task, exact).value.0 else g
    case Closes => g.(open := false)
  }

  lemma PerformKeepsSound(g: Registry, op: Op)
    requires Sound(g) && op.Valid()
    ensures Sound(Perform(g, op))
  {
  }

  ghost function Run(g: Registry, ops: seq<Op>): Registry
    decreases |ops|
  {
    if ops == [] then g else Run(Perform(g, ops[0]), ops[1..])
  }

  // The operation removes the task, claimed or not.
  ghost predicate Removes(g: Registry, op: Op, task: TaskID) {
    || (op.Completes? && op.finished == task && task in g.claimed && g.claimed[task] == op.plan)
    || (op.Aborts? && op.undone == task && task in g.tasks && g.tasks[task] == op.exact)
  }

  // Nothing of a task goes back: its outputs stay, its credentials only move forward.
  ghost predicate Forward(g: Registry, h: Registry, task: TaskID)
    requires task in g.tasks
  {
    && task in h.tasks && h.tasks[task].outputs == g.tasks[task].outputs
    && h.tasks[task].edges.Keys == g.tasks[task].edges.Keys
    && forall k :: k in g.tasks[task].edges ==>
         var before, after := g.tasks[task].edges[k], h.tasks[task].edges[k];
         after == before.(attempt := after.attempt) && after.attempt >= before.attempt
  }

  lemma ReplacesForward(g: Registry, op: Op, task: TaskID)
    requires Sound(g) && task in g.tasks && op.Replaces?
    ensures Forward(g, Perform(g, op), task)
  {
  }

  lemma OthersStay(g: Registry, op: Op, task: TaskID)
    requires task in g.tasks && !op.Replaces?
    ensures if Removes(g, op, task) then task !in Perform(g, op).tasks
            else task in Perform(g, op).tasks && Perform(g, op).tasks[task] == g.tasks[task]
  {
  }

  lemma StaysForward(g: Registry, h: Registry, task: TaskID)
    requires task in g.tasks
    ensures task in h.tasks && h.tasks[task] == g.tasks[task] ==> Forward(g, h, task)
  {
  }

  /** A registered task stays until it is removed, with the same outputs and
      dependencies and with credentials that only move to later attempts; and
      exactly the two removing operations remove it. */
  lemma StepForward(g: Registry, op: Op, task: TaskID)
    requires Sound(g) && task in g.tasks
    ensures task in Perform(g, op).tasks <==> !Removes(g, op, task)
    ensures !Removes(g, op, task) ==> Forward(g, Perform(g, op), task)
  {
    hide Perform, Sound, Forward;
    if op.Replaces? {
      ReplacesForward(g, op, task);
    } else {
      OthersStay(g, op, task);
      StaysForward(g, Perform(g, op), task);
    }
  }

  ghost predicate NeverRemoved(g: Registry, ops: seq<Op>, task: TaskID)
    decreases |ops|
  {
    ops == [] || (!Removes(g, ops[0], task) && NeverRemoved(Perform(g, ops[0]), ops[1..], task))
  }

  lemma ForwardTransitive(a: Registry, b: Registry, c: Registry, task: TaskID)
    requires task in a.tasks && Forward(a, b, task) && Forward(b, c, task)
    ensures Forward(a, c, task)
  {
  }

  /** Main result: over every run, a task that is not removed keeps its outputs and
      dependencies, and each credential only moves to later attempts. */
  lemma {:induction false} CredentialsMoveForward(g: Registry, ops: seq<Op>, task: TaskID)
    requires Sound(g) && (forall op :: op in ops ==> op.Valid())
    requires task in g.tasks && NeverRemoved(g, ops, task)
    ensures Sound(Run(g, ops)) && Forward(g, Run(g, ops), task)
    decreases |ops|
  {
    hide Sound, Perform, Removes;
    if ops == [] {
    } else {
      PerformKeepsSound(g, ops[0]);
      StepForward(g, ops[0], task);
      CredentialsMoveForward(Perform(g, ops[0]), ops[1..], task);
      ForwardTransitive(g, Perform(g, ops[0]), Run(g, ops), task);
    }
  }

  /** Exactly its completion, or an abort that names its lineage, unsettles a claimed
      task; anything else leaves its lineage and its plan as they are. */
  lemma ClaimStaysIff(g: Registry, op: Op, task: TaskID)
    requires Sound(g) && task in g.claimed && task in g.tasks
    ensures var h := Perform(g, op);
      Removes(g, op, task) <==>
        !(task in h.claimed && h.claimed[task] == g.claimed[task] && task in h.tasks && h.tasks[task] == g.tasks[task])
  {
  }

  /** Main result: over every run, a claimed task keeps its lineage and its plan
      until it is removed. */
  lemma {:induction false} ClaimedStaysFrozen(g: Registry, ops: seq<Op>, task: TaskID)
    requires Sound(g) && (forall op :: op in ops ==> op.Valid())
    requires task in g.claimed && task in g.tasks && NeverRemoved(g, ops, task)
    ensures var h := Run(g, ops);
      task in h.claimed && h.claimed[task] == g.claimed[task] && task in h.tasks && h.tasks[task] == g.tasks[task]
    decreases |ops|
  {
    hide Sound, Perform, Removes;
    if ops == [] {
    } else {
      PerformKeepsSound(g, ops[0]);
      ClaimStaysIff(g, ops[0], task);
      ClaimedStaysFrozen(Perform(g, ops[0]), ops[1..], task);
    }
  }

  /** An abort removes the task even when it was claimed: it tests the lineage, not
      the claim. The claim stays behind, and its completion is still accepted. */
  lemma AbortLeavesTheClaim(g: Registry, task: TaskID)
    requires Sound(g) && task in g.claimed && task in g.tasks
    ensures var h := Perform(g, Aborts(task, g.tasks[task]));
      && task !in h.tasks && task in h.claimed && h.claimed[task] == g.claimed[task]
      && CompleteClaim(h, task, g.claimed[task]).Ok?
  {
  }

  lemma ClosedStep(g: Registry, op: Op)
    requires !g.open
    ensures var h := Perform(g, op);
      && !h.open && h.tasks.Keys <= g.tasks.Keys
      && forall owner :: owner in g.dead ==> owner in h.dead && h.dead[owner] == g.dead[owner]
  {
  }

  /** Once admission is closed no task is ever added, and a death is never rebound. */
  lemma {:induction false} ClosedStaysClosed(g: Registry, ops: seq<Op>)
    requires !g.open
    ensures var h := Run(g, ops);
      && !h.open && h.tasks.Keys <= g.tasks.Keys
      && forall owner :: owner in g.dead ==> owner in h.dead && h.dead[owner] == g.dead[owner]
    decreases |ops|
  {
    hide Perform;
    if ops == [] {
    } else {
      ClosedStep(g, ops[0]);
      ClosedStaysClosed(Perform(g, ops[0]), ops[1..]);
    }
  }
}
