/** The TaskID-scoped registry of the credentials a borrower holds at foreign
    owners: registered once, moved forward edge by edge, claimed at final
    sibling collection. */
module ForeignLineage {
  import opened Ids

  datatype Role = TopLevel | Nested
  datatype EdgeKey = EdgeKey(dependency: ObjectID, owner: WorkerID)

  // `attempt` is the origin attempt of the RETAINED hold; with the task and the
  // borrower it is the hold's whole identity.
  datatype Edge = Edge(task: TaskID, dependency: ObjectID, owner: WorkerID, address: Address, borrower: WorkerID,
                       attempt: nat, roles: set<Role>)
  {
    function Key(): EdgeKey { EdgeKey(dependency, owner) }
  }

  datatype Receipt = Receipt(task: TaskID, output: ObjectID, removesTask: bool, identity: nat)
  datatype Lineage = Lineage(outputs: seq<ObjectID>, edges: map<EdgeKey, Edge>)
  // The receipts are kept sorted by output, hence a set here.
  datatype Plan = Plan(lineage: Lineage, receipts: set<Receipt>)

  datatype Registry = Registry(tasks: map<TaskID, Lineage>, claimed: map<TaskID, Plan>, dead: map<WorkerID, nat>,
                               open: bool)

  datatype LineageError = Invalid | Closed | Unknown
  datatype Result<+T> = Ok(value: T) | Err(error: LineageError)

  // ------------------------------------------------------------------------
  // Merging duplicate edges

  // Two mentions of one dependency agree on everything but their roles.
  predicate Agree(a: Edge, b: Edge) { a == b.(roles := a.roles) }

  predicate Mergeable(task: TaskID, edges: seq<Edge>) {
    && (forall e :: e in edges ==> e.task == task)
    && forall i, j :: 0 <= i < j < |edges| && edges[i].Key() == edges[j].Key() ==> Agree(edges[i], edges[j])
  }

  function RolesAt(edges: seq<Edge>, key: EdgeKey): set<Role> {
    set e, r | e in edges && e.Key() == key && r in e.roles :: r
  }

  ghost predicate Mentioned(edges: seq<Edge>, key: EdgeKey) { exists e :: e in edges && e.Key() == key }

  // The merged edges: one per dependency and owner, carrying all of its roles.
  ghost predicate Merges(edges: seq<Edge>, merged: map<EdgeKey, Edge>) {
    && (forall e :: e in edges ==> e.Key() in merged && Agree(merged[e.Key()], e))
    && forall k | k in merged :: merged[k].Key() == k && merged[k].roles == RolesAt(edges, k) && Mentioned(edges, k)
  }

  // There is only one merge.
  lemma MergesOnce(edges: seq<Edge>, a: map<EdgeKey, Edge>, b: map<EdgeKey, Edge>)
    requires Merges(edges, a) && Merges(edges, b)
    ensures a == b
  {
    assert a.Keys == b.Keys;
    forall k | k in a ensures a[k] == b[k] {
      assert Mentioned(edges, k);
      var e :| e in edges && e.Key() == k;
      assert Agree(a[k], e) && Agree(b[k], e);
    }
  }

  /** One pass over the edges; it fails exactly when some edge belongs to
      another task or two mentions of one dependency disagree. */
  method NormalizeEdges(task: TaskID, edges: seq<Edge>) returns (merged: Result<map<EdgeKey, Edge>>)
    ensures merged.Ok? <==> Mergeable(task, edges)
    ensures merged.Ok? ==> Merges(edges, merged.value)
  {
    hide Mergeable, Merges, Agree;
    var m: map<EdgeKey, Edge> := map[];
    var i := 0;
    NothingMerges(task);
    while i < |edges|
      invariant 0 <= i <= |edges|
      invariant Mergeable(task, edges[..i]) && Merges(edges[..i], m)
    {
      var edge := edges[i];
      if edge.task != task || (edge.Key() in m && !Agree(m[edge.Key()], edge)) {
        NotMergeable(task, edges, i, m);
        return Err(Invalid);
      }
      MergeNext(task, edges[..i], edge, m);
      assert edges[..i + 1] == edges[..i] + [edge];
      m := Extended(m, edge);
      i := i + 1;
    }
    assert edges[..i] == edges;
    merged := Ok(m);
  }

  lemma NothingMerges(task: TaskID)
    ensures Mergeable(task, []) && Merges([], map[])
  {
  }

  // A foreign or disagreeing edge spoils the whole batch.
  lemma NotMergeable(task: TaskID, edges: seq<Edge>, i: nat, m: map<EdgeKey, Edge>)
    requires i < |edges| && Merges(edges[..i], m)
    requires edges[i].task != task || (edges[i].Key() in m && !Agree(m[edges[i].Key()], edges[i]))
    ensures !Mergeable(task, edges)
  {
    if edges[i].task == task {
      assert Mentioned(edges[..i], edges[i].Key());
      var j :| 0 <= j < i && edges[..i][j].Key() == edges[i].Key();
      assert Agree(m[edges[..i][j].Key()], edges[..i][j]) && !Agree(edges[j], edges[i]);
    }
  }

  lemma RolesAppend(edges: seq<Edge>, edge: Edge, k: EdgeKey)
    ensures RolesAt(edges + [edge], k) == RolesAt(edges, k) + if k == edge.Key() then edge.roles else {}
    ensures Mentioned(edges + [edge], k) <==> Mentioned(edges, k) || k == edge.Key()
    ensures !Mentioned(edges, k) ==> RolesAt(edges, k) == {}
  {
    var all := edges + [edge];
    assert forall e :: e in all <==> e in edges || e == edge;
  }

  lemma MergeableNext(task: TaskID, edges: seq<Edge>, edge: Edge, m: map<EdgeKey, Edge>)
    requires Mergeable(task, edges) && Merges(edges, m) && edge.task == task
    requires edge.Key() in m ==> Agree(m[edge.Key()], edge)
    ensures Mergeable(task, edges + [edge])
  {
    var all := edges + [edge];
    forall i, j | 0 <= i < j < |all| && all[i].Key() == all[j].Key() ensures Agree(all[i], all[j]) {
      if j == |edges| {
        assert all[i] in edges && Agree(m[edge.Key()], all[i]);
      }
    }
  }

  function Extended(m: map<EdgeKey, Edge>, edge: Edge): map<EdgeKey, Edge> {
    m[edge.Key() := edge.(roles := if edge.Key() in m then m[edge.Key()].roles + edge.roles else edge.roles)]
  }

  lemma MergeNext(task: TaskID, edges: seq<Edge>, edge: Edge, m: map<EdgeKey, Edge>)
    requires Mergeable(task, edges) && Merges(edges, m) && edge.task == task
    requires edge.Key() in m ==> Agree(m[edge.Key()], edge)
    ensures Mergeable(task, edges + [edge]) && Merges(edges + [edge], Extended(m, edge))
  {
    MergeableNext(task, edges, edge, m);
    var all, m' := edges + [edge], Extended(m, edge);
    forall k | k in m' ensures m'[k].Key() == k && m'[k].roles == RolesAt(all, k) && Mentioned(all, k) {
      RolesAppend(edges, edge, k);
      if k == edge.Key() && k !in m {
        assert !Mentioned(edges, k);
      }
    }
    forall e | e in all ensures e.Key() in m' && Agree(m'[e.Key()], e) {
      assert e in edges || e == edge;
    }
  }

  // ------------------------------------------------------------------------
  // Registry transitions

  predicate ManifestOk(task: TaskID, outputs: seq<ObjectID>) {
    && outputs != [] && (forall o :: o in outputs ==> o.task == task)
    && forall i, j :: 0 <= i < j < |outputs| ==> outputs[i] != outputs[j]
  }

  function Register(g: Registry, task: TaskID, lineage: Lineage): Result<Registry> {
    if task in g.claimed then Err(Invalid)
    else if task in g.tasks && g.tasks[task] != lineage then Err(Invalid)
    else if task !in g.tasks && !g.open then Err(Closed)
    else Ok(g.(tasks := g.tasks[task := lineage]))
  }

  function CommitReplacement(g: Registry, expected: Edge, replacement: Edge): Result<Registry> {
    var task, key := expected.task, expected.Key();
    if expected.(attempt := replacement.attempt) != replacement then Err(Invalid)
    else if replacement.attempt <= expected.attempt then Err(Invalid)
    else if task in g.claimed then Err(Invalid)
    else if task !in g.tasks then Err(Unknown)
    else
      var edges := g.tasks[task].edges;
      if key in edges && edges[key] == replacement then Ok(g)
      else if key !in edges || edges[key] != expected then Err(Invalid)
      else Ok(g.(tasks := g.tasks[task := g.tasks[task].(edges := edges[key := replacement])]))
  }

  function Finals(receipts: seq<Receipt>): nat {
    if receipts == [] then 0 else (if receipts[0].removesTask then 1 else 0) + Finals(receipts[1..])
  }

  predicate ReceiptsOk(task: TaskID, receipts: seq<Receipt>) {
    && (forall r :: r in receipts ==> r.task == task)
    && forall i, j :: 0 <= i < j < |receipts| ==> receipts[i].output != receipts[j].output
  }

  // Claim once every output has its receipt; None while some sibling is missing.
  function Claim(g: Registry, task: TaskID, receipts: seq<Receipt>): Result<(Registry, Option<Plan>)> {
    if !ReceiptsOk(task, receipts) then Err(Invalid)
    else if task in g.claimed then Ok((g, Some(g.claimed[task])))
    else if task !in g.tasks then Ok((g, None))
    else if (set r | r in receipts :: r.output) != (set o | o in g.tasks[task].outputs :: o) then Ok((g, None))
    else if Finals(receipts) != 1 then Err(Invalid)
    else
      var plan := Plan(g.tasks[task], set r | r in receipts);
      Ok((g.(claimed := g.claimed[task := plan]), Some(plan)))
  }

  function CompleteClaim(g: Registry, task: TaskID, plan: Plan): Result<Registry> {
    if task !in g.claimed || g.claimed[task] != plan then Err(Invalid)
    else Ok(g.(claimed := g.claimed - {task}, tasks := g.tasks - {task}))
  }

  function MarkDead(g: Registry, owner: WorkerID, proof: nat): Result<Registry> {
    if owner in g.dead && g.dead[owner] != proof then Err(Invalid)
    else Ok(g.(dead := g.dead[owner := proof]))
  }

  // The registered tasks that hold a credential at this owner.
  function Touched(g: Registry, owner: WorkerID): set<TaskID> {
    set t, k | t in g.tasks && k in g.tasks[t].edges && g.tasks[t].edges[k].owner == owner :: t
  }

  // Undo a registration that still is exactly the one made.
  function Abort(g: Registry, task: TaskID, expected: Lineage): Result<(Registry, bool)> {
    if task !in g.tasks then Ok((g, false))
    else if g.tasks[task] != expected then Err(Invalid)
    else Ok((g.(tasks := g.tasks - {task}), true))
  }

  // ------------------------------------------------------------------------
  // What every registry satisfies

  // Edges are filed under their own key and task; a claim froze its task's lineage.
  ghost predicate Sound(g: Registry) {
    && (forall t, k :: t in g.tasks && k in g.tasks[t].edges ==>
          g.tasks[t].edges[k].Key() == k && g.tasks[t].edges[k].task == t)
    && forall t :: t in g.claimed && t in g.tasks ==> g.claimed[t].lineage == g.tasks[t]
  }

  // The attempt of each live credential of one task.
  function Attempts(g: Registry, task: TaskID): map<EdgeKey, nat> {
    if task in g.tasks then map k | k in g.tasks[task].edges :: g.tasks[task].edges[k].attempt else map[]
  }

  lemma ReplacementKeepsSound(g: Registry, expected: Edge, replacement: Edge)
    requires Sound(g) && CommitReplacement(g, expected, replacement).Ok?
    ensures Sound(CommitReplacement(g, expected, replacement).value) && expected.task !in g.claimed
  {
  }

  lemma ReplacementAttempts(g: Registry, expected: Edge, replacement: Edge)
    requires CommitReplacement(g, expected, replacement).Ok?
    ensures var g' := CommitReplacement(g, expected, replacement).value;
      && Attempts(g', expected.task) == Attempts(g, expected.task)[expected.Key() := replacement.attempt]
      && forall t :: t != expected.task ==> Attempts(g', t) == Attempts(g, t)
  {
  }

  lemma ReplacementReplays(g: Registry, expected: Edge, replacement: Edge)
    requires CommitReplacement(g, expected, replacement).Ok?
    ensures var g' := CommitReplacement(g, expected, replacement).value;
      CommitReplacement(g', expected, replacement) == Ok(g')
  {
  }

  /** A replacement moves exactly one credential of one task forward, never a
      claimed one, and replaying it changes nothing. */
  lemma ReplacementMovesOne(g: Registry, expected: Edge, replacement: Edge)
    requires Sound(g) && CommitReplacement(g, expected, replacement).Ok?
    ensures var g' := CommitReplacement(g, expected, replacement).value;
      && Sound(g') && expected.task !in g.claimed
      && Attempts(g', expected.task) == Attempts(g, expected.task)[expected.Key() := replacement.attempt]
      && (forall t :: t != expected.task ==> Attempts(g', t) == Attempts(g, t))
      && CommitReplacement(g', expected, replacement) == Ok(g')
  {
    hide CommitReplacement, Sound, Attempts;
    ReplacementKeepsSound(g, expected, replacement);
    ReplacementAttempts(g, expected, replacement);
    ReplacementReplays(g, expected, replacement);
  }

  /** A claim freezes the lineage: nothing but its completion changes the task. */
  lemma ClaimFreezes(g: Registry, task: TaskID, receipts: seq<Receipt>)
    requires Sound(g) && Claim(g, task, receipts).Ok? && Claim(g, task, receipts).value.1.Some?
    ensures var (g', plan) := Claim(g, task, receipts).value;
      && Sound(g') && (task in g.tasks ==> plan.value.lineage == g.tasks[task])
      && (forall e: Edge, r: Edge :: e.task == task ==> CommitReplacement(g', e, r).Err?)
      && (forall l: Lineage :: Register(g', task, l).Err?)
      && Claim(g', task, receipts) == Ok((g', plan))
      && CompleteClaim(g', task, plan.value).Ok? && task !in CompleteClaim(g', task, plan.value).value.tasks
  {
  }

  // The manifest is well-formed, its edges merge, and the merge may be filed.
  ghost predicate Registrable(g: Registry, task: TaskID, outputs: seq<ObjectID>, edges: seq<Edge>) {
    && ManifestOk(task, outputs) && Mergeable(task, edges)
    && exists merged :: Merges(edges, merged) && Register(g, task, Lineage(outputs, merged)).Ok?
  }

  /** A registration admitted once is admitted again, with the same lineage and
      no effect; any other registration of the task is refused from then on. */
  lemma RegistrationReplays(g: Registry, task: TaskID, outputs: seq<ObjectID>, edges: seq<Edge>,
                            merged: map<EdgeKey, Edge>)
    requires ManifestOk(task, outputs) && Mergeable(task, edges) && Merges(edges, merged)
    requires Register(g, task, Lineage(outputs, merged)).Ok?
    ensures var g' := Register(g, task, Lineage(outputs, merged)).value;
      && Registrable(g', task, outputs, edges)
      && (forall m | Merges(edges, m) :: Register(g', task, Lineage(outputs, m)) == Ok(g'))
      && forall l :: l != Lineage(outputs, merged) ==> Register(g', task, l).Err?
  {
    var g' := Register(g, task, Lineage(outputs, merged)).value;
    assert g'.tasks[task := Lineage(outputs, merged)] == g'.tasks;
    forall m | Merges(edges, m) ensures Register(g', task, Lineage(outputs, m)) == Ok(g') {
      MergesOnce(edges, m, merged);
    }
  }

  class ForeignLineageRegistry {
    var state: Registry

    ghost predicate Valid()
      reads this
    {
      Sound(state)
    }

    constructor ()
      ensures Valid() && state == Registry(map[], map[], map[], true)
    {
      state := Registry(map[], map[], map[], true);
    }

    /** Register a task's outputs and merged edges, exactly when they may be. */
    method RegisterTask(task: TaskID, outputs: seq<ObjectID>, edges: seq<Edge>) returns (lineage: Result<Lineage>)
      requires Valid()
      modifies this
      ensures Valid()
      ensures lineage.Ok? <==> Registrable(old(state), task, outputs, edges)
      ensures lineage.Err? ==> state == old(state)
      ensures lineage.Ok? ==> ManifestOk(task, outputs) && Mergeable(task, edges) && Merges(edges, lineage.value.edges)
                              && lineage.value.outputs == outputs
                              && Register(old(state), task, lineage.value) == Ok(state)
    {
      if !ManifestOk(task, outputs) { return Err(Invalid); }
      var merged := NormalizeEdges(task, edges);
      if merged.Err? { return Err(Invalid); }
      lineage := Ok(Lineage(outputs, merged.value));
      var next := Register(state, task, lineage.value);
      forall m | Merges(edges, m) ensures m == merged.value {
        MergesOnce(edges, m, merged.value);
      }
      if next.Err? { return Err(next.error); }
      forall k | k in merged.value ensures merged.value[k].task == task {
        assert Mentioned(edges, k);
        var e :| e in edges && e.Key() == k;
      }
      state := next.value;
    }

    method CommitEdgeReplacement(expected: Edge, replacement: Edge) returns (error: Option<LineageError>)
      requires Valid()
      modifies this
      ensures Valid()
      ensures var done := CommitReplacement(old(state), expected, replacement);
        if done.Ok? then error.None? && state == done.value else error == Some(done.error) && state == old(state)
    {
      if expected.(attempt := replacement.attempt) != replacement { return Some(Invalid); }
      if replacement.attempt <= expected.attempt { return Some(Invalid); }
      var task, key := expected.task, expected.Key();
      if task in state.claimed { return Some(Invalid); }
      if task !in state.tasks { return Some(Unknown); }
      var edges := state.tasks[task].edges;
      if key in edges && edges[key] == replacement { return None; }
      if key !in edges || edges[key] != expected { return Some(Invalid); }
      state := state.(tasks := state.tasks[task := state.tasks[task].(edges := edges[key := replacement])]);
      error := None;
    }

    method ClaimWithReceipts(task: TaskID, receipts: seq<Receipt>) returns (plan: Result<Option<Plan>>)
      requires Valid()
      modifies this
      ensures Valid()
      ensures var done := Claim(old(state), task, receipts);
        if done.Ok? then plan == Ok(done.value.1) && state == done.value.0
        else plan == Err(done.error) && state == old(state)
    {
      if !ReceiptsOk(task, receipts) { return Err(Invalid); }
      if task in state.claimed { return Ok(Some(state.claimed[task])); }
      if task !in state.tasks { return Ok(None); }
      if (set r | r in receipts :: r.output) != (set o | o in state.tasks[task].outputs :: o) { return Ok(None); }
      if Finals(receipts) != 1 { return Err(Invalid); }
      var claim := Plan(state.tasks[task], set r | r in receipts);
      state := state.(claimed := state.claimed[task := claim]);
      plan := Ok(Some(claim));
    }

    method FinishClaim(task: TaskID, plan: Plan) returns (error: Option<LineageError>)
      requires Valid()
      modifies this
      ensures Valid()
      ensures var done := CompleteClaim(old(state), task, plan);
        if done.Ok? then error.None? && state == done.value else error == Some(done.error) && state == old(state)
    {
      if task !in state.claimed || state.claimed[task] != plan { return Some(Invalid); }
      state := state.(claimed := state.claimed - {task}, tasks := state.tasks - {task});
      error := None;
    }

    method MarkOwnerDead(owner: WorkerID, proof: nat) returns (touched: Result<set<TaskID>>)
      requires Valid()
      modifies this
      ensures Valid()
      ensures var done := MarkDead(old(state), owner, proof);
        if done.Ok? then touched == Ok(Touched(old(state), owner)) && state == done.value
        else touched == Err(done.error) && state == old(state)
    {
      if owner in state.dead && state.dead[owner] != proof { return Err(Invalid); }
      touched := Ok(Touched(state, owner));
      state := state.(dead := state.dead[owner := proof]);
    }

    method AbortRegistration(task: TaskID, expected: Lineage) returns (removed: Result<bool>)
      requires Valid()
      modifies this
      ensures Valid()
      ensures var done := Abort(old(state), task, expected);
        if done.Ok? then removed == Ok(done.value.1) && state == done.value.0
        else removed == Err(done.error) && state == old(state)
    {
      if task !in state.tasks { return Ok(false); }
      if state.tasks[task] != expected { return Err(Invalid); }
      state := state.(tasks := state.tasks - {task});
      removed := Ok(true);
    }

    method CloseAdmission() returns (changed: bool)
      requires Valid()
      modifies this
      ensures Valid() && changed == old(state).open && state == old(state).(open := false)
    {
      changed := state.open;
      state := state.(open := false);
    }
  }
}
