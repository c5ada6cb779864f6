/** Directed graphs over ObjectIDs and the cycle search run by the publication
    authority before it reserves new contained-reference edges. */
module ReferenceGraph {
  import opened Ids

  type Edges = set<(ObjectID, ObjectID)>
  type Adjacency = map<ObjectID, set<ObjectID>>

  ghost predicate IsPath(edges: Edges, p: seq<ObjectID>) {
    && |p| > 0
    && forall i :: 0 <= i < |p| - 1 ==> (p[i], p[i + 1]) in edges
  }

  // A closed walk with at least one edge; a self-loop is the walk [v, v].
  ghost predicate IsCycle(edges: Edges, p: seq<ObjectID>) {
    |p| >= 2 && p[0] == p[|p| - 1] && IsPath(edges, p)
  }

  ghost predicate Acyclic(edges: Edges) {
    forall p :: !IsCycle(edges, p)
  }

  function EdgesOf(adjacency: Adjacency): Edges {
    set u, v | u in adjacency && v in adjacency[u] :: (u, v)
  }

  lemma SubsetKeepsAcyclic(small: Edges, big: Edges)
    requires small <= big && Acyclic(big)
    ensures Acyclic(small)
  {
    forall p | IsCycle(small, p) ensures false {
      assert IsCycle(big, p);
    }
  }

  // ------------------------------------------------------------------------
  // Finishing orders

  // Every successor of an element stands strictly before it.
  ghost predicate FinishOrder(edges: Edges, order: seq<ObjectID>) {
    && (forall i, j :: 0 <= i < j < |order| ==> order[i] != order[j])
    && forall i, v :: 0 <= i < |order| && (order[i], v) in edges ==> v in order[..i]
  }

  lemma {:induction false} PathDescends(edges: Edges, order: seq<ObjectID>, p: seq<ObjectID>, start: nat)
    requires FinishOrder(edges, order) && IsPath(edges, p)
    requires start < |order| && p[0] == order[start]
    ensures |p| >= 2 ==> p[|p| - 1] in order[..start]
  {
    if |p| < 2 {
    } else {
      assert (p[0], p[1]) in edges;
      var next :| 0 <= next < start && order[next] == p[1];
      var rest := p[1..];
      forall i | 0 <= i < |rest| - 1 ensures (rest[i], rest[i + 1]) in edges {
        assert (p[i + 1], p[i + 2]) in edges;
      }
      PathDescends(edges, order, rest, next);
    }
  }

  lemma FinishOrderIsAcyclic(edges: Edges, order: seq<ObjectID>)
    requires FinishOrder(edges, order)
    requires forall e :: e in edges ==> e.0 in order
    ensures Acyclic(edges)
  {
    forall p | IsCycle(edges, p) ensures false {
      assert (p[0], p[1]) in edges;
      var start :| 0 <= start < |order| && order[start] == p[0];
      PathDescends(edges, order, p, start);
    }
  }

  // ------------------------------------------------------------------------
  // The leave-marker search

  datatype Frame = Frame(vertex: ObjectID, leaving: bool)

  function Entering(vs: seq<ObjectID>): seq<Frame> {
    seq(|vs|, i requires 0 <= i < |vs| => Frame(vs[i], false))
  }

  /** The part of the stack up to the innermost leave marker: below[i] waits
      just under the leave marker of trail[i], outermost vertex first. */
  function Markers(trail: seq<ObjectID>, below: seq<seq<ObjectID>>): seq<Frame>
    requires |below| == |trail|
  {
    var k := |trail|;
    if k == 0 then []
    else Markers(trail[..k - 1], below[..k - 1]) + Entering(below[k - 1]) + [Frame(trail[k - 1], true)]
  }

  lemma MarkersPush(trail: seq<ObjectID>, below: seq<seq<ObjectID>>, v: ObjectID, waiting: seq<ObjectID>)
    requires |below| == |trail|
    ensures Markers(trail + [v], below + [waiting]) == Markers(trail, below) + Entering(waiting) + [Frame(v, true)]
  {
    assert (trail + [v])[..|trail|] == trail && (below + [waiting])[..|below|] == below;
  }

  // The entries waiting just above the leave marker of trail[i].
  function Above(below: seq<seq<ObjectID>>, top: seq<ObjectID>, i: nat): seq<ObjectID>
    requires i < |below|
  {
    if i + 1 < |below| then below[i + 1] else top
  }

  // One search between two pops; `order` lists the finished vertices.
  ghost predicate Searching(edges: Edges, trail: seq<ObjectID>, below: seq<seq<ObjectID>>, top: seq<ObjectID>,
                            order: seq<ObjectID>)
  {
    && |below| == |trail|
    && FinishOrder(edges, order)
    && (forall i, j :: 0 <= i < j < |trail| ==> trail[i] != trail[j])
    && (forall i :: 0 <= i < |trail| ==> trail[i] !in order)
    && (forall i :: 0 <= i < |trail| - 1 ==> (trail[i], trail[i + 1]) in edges)
    && (forall i, v :: 0 <= i < |trail| && v in Above(below, top, i) ==> (trail[i], v) in edges)
    && forall i, v :: 0 <= i < |trail| && (trail[i], v) in edges ==> Scheduled(trail, below, top, order, i, v)
  }

  // v is finished, waits above the leave marker of trail[i], or was entered from there.
  ghost predicate Scheduled(trail: seq<ObjectID>, below: seq<seq<ObjectID>>, top: seq<ObjectID>, order: seq<ObjectID>,
                            i: nat, v: ObjectID)
    requires |below| == |trail| && i < |trail|
  {
    v in order || v in Above(below, top, i) || (i + 1 < |trail| && v == trail[i + 1])
  }

  lemma PopEntry(rest: seq<Frame>, popped: seq<ObjectID>, v: ObjectID)
    ensures rest + Entering(popped + [v]) == rest + Entering(popped) + [Frame(v, false)]
  {
    assert Entering(popped + [v]) == Entering(popped) + [Frame(v, false)];
  }

  lemma LeaveStep(edges: Edges, trail: seq<ObjectID>, below: seq<seq<ObjectID>>, order: seq<ObjectID>)
    requires Searching(edges, trail, below, [], order) && trail != []
    ensures var k := |trail| - 1; Searching(edges, trail[..k], below[..k], below[k], order + [trail[k]])
  {
    var k := |trail| - 1;
    var order' := order + [trail[k]];
    assert forall w :: (trail[k], w) in edges ==> Scheduled(trail, below, [], order, k, w);
    forall i, w | 0 <= i < |order'| && (order'[i], w) in edges ensures w in order'[..i] {
      assert order'[..i] == order[..i];
      assert order[..|order|] == order;
    }
    assert forall i :: 0 <= i < k ==> Above(below[..k], below[k], i) == Above(below, [], i);
    forall i, w | 0 <= i < k && (trail[i], w) in edges
      ensures Scheduled(trail[..k], below[..k], below[k], order', i, w)
    {
      assert Scheduled(trail, below, [], order, i, w);
    }
  }

  lemma PopStep(edges: Edges, trail: seq<ObjectID>, below: seq<seq<ObjectID>>, popped: seq<ObjectID>, v: ObjectID,
                order: seq<ObjectID>)
    requires Searching(edges, trail, below, popped + [v], order) && v in order
    ensures Searching(edges, trail, below, popped, order)
  {
    forall i, w | 0 <= i < |trail| && (trail[i], w) in edges ensures Scheduled(trail, below, popped, order, i, w) {
      assert Scheduled(trail, below, popped + [v], order, i, w);
    }
  }

  lemma EnterStep(edges: Edges, trail: seq<ObjectID>, below: seq<seq<ObjectID>>, popped: seq<ObjectID>, v: ObjectID,
                  order: seq<ObjectID>, children: seq<ObjectID>)
    requires Searching(edges, trail, below, popped + [v], order) && v !in order && v !in trail
    requires forall w :: w in children <==> (v, w) in edges
    ensures Searching(edges, trail + [v], below + [popped], children, order)
  {
    var k := |trail|;
    var trail', below' := trail + [v], below + [popped];
    if k > 0 {
      assert v in Above(below, popped + [v], k - 1);
    }
    forall i, w | 0 <= i < |trail'| && (trail'[i], w) in edges
      ensures Scheduled(trail', below', children, order, i, w)
    {
      if i < k {
        assert Scheduled(trail, below, popped + [v], order, i, w);
      }
    }
  }

  lemma ClosingStep(edges: Edges, trail: seq<ObjectID>, below: seq<seq<ObjectID>>, top: seq<ObjectID>,
                    order: seq<ObjectID>, v: ObjectID)
    requires Searching(edges, trail, below, top, order) && v in top && v in trail
    ensures !Acyclic(edges)
  {
    var j :| 0 <= j < |trail| && trail[j] == v;
    var walk := trail[j..] + [v];
    assert v in Above(below, top, |trail| - 1);
    forall i | 0 <= i < |walk| - 1 ensures (walk[i], walk[i + 1]) in edges {
      if i < |walk| - 2 {
        assert (trail[j + i], trail[j + i + 1]) in edges;
      }
    }
    assert IsCycle(edges, walk);
  }

  method InSomeOrder(children: set<ObjectID>) returns (listed: seq<ObjectID>)
    ensures forall v :: v in listed <==> v in children
  {
    listed := [];
    var left := children;
    while left != {}
      invariant left <= children
      invariant forall v :: v in listed <==> v in children - left
    {
      var v :| v in left;
      listed := listed + [v];
      left := left - {v};
    }
  }

  // The search that explains a stack: its active vertices, what waits around
  // their leave markers, and the finishing order so far.
  datatype Search = Search(trail: seq<ObjectID>, below: seq<seq<ObjectID>>, top: seq<ObjectID>, order: seq<ObjectID>)

  ghost predicate Explains(edges: Edges, s: Search, stack: seq<Frame>, done: set<ObjectID>, active: set<ObjectID>) {
    && Searching(edges, s.trail, s.below, s.top, s.order)
    && stack == Markers(s.trail, s.below) + Entering(s.top)
    && (forall v :: v in done <==> v in s.order)
    && forall v :: v in active <==> v in s.trail
  }

  lemma Popped(edges: Edges, s: Search, stack: seq<Frame>, done: set<ObjectID>, active: set<ObjectID>)
    requires Explains(edges, s, stack, done, active) && stack != []
    ensures var f, k := stack[|stack| - 1], |s.trail|;
            if f.leaving then
              s.top == [] && k > 0 && f.vertex == s.trail[k - 1] && stack[..|stack| - 1]
                == Markers(s.trail[..k - 1], s.below[..k - 1]) + Entering(s.below[k - 1])
            else
              s.top != [] && f.vertex == s.top[|s.top| - 1] && stack[..|stack| - 1]
                == Markers(s.trail, s.below) + Entering(s.top[..|s.top| - 1])
  {
    if s.top == [] {
      assert Entering(s.top) == [] && stack == Markers(s.trail, s.below);
    } else {
      var n := |s.top| - 1;
      assert s.top == s.top[..n] + [s.top[n]];
      PopEntry(Markers(s.trail, s.below), s.top[..n], s.top[n]);
    }
  }

  lemma Leave(edges: Edges, s: Search, stack: seq<Frame>, done: set<ObjectID>, active: set<ObjectID>)
    returns (s': Search)
    requires Explains(edges, s, stack, done, active) && stack != [] && stack[|stack| - 1].leaving
    ensures var v := stack[|stack| - 1].vertex;
            v in active && Explains(edges, s', stack[..|stack| - 1], done + {v}, active - {v})
  {
    Popped(edges, s, stack, done, active);
    var k := |s.trail| - 1;
    LeaveStep(edges, s.trail, s.below, s.order);
    s' := Search(s.trail[..k], s.below[..k], s.below[k], s.order + [s.trail[k]]);
    assert s.trail == s.trail[..k] + [s.trail[k]];
  }

  lemma Pop(edges: Edges, s: Search, stack: seq<Frame>, done: set<ObjectID>, active: set<ObjectID>) returns (s': Search)
    requires Explains(edges, s, stack, done, active) && stack != []
    requires !stack[|stack| - 1].leaving && stack[|stack| - 1].vertex in done
    ensures Explains(edges, s', stack[..|stack| - 1], done, active)
  {
    Popped(edges, s, stack, done, active);
    var n := |s.top| - 1;
    assert s.top == s.top[..n] + [s.top[n]];
    PopStep(edges, s.trail, s.below, s.top[..n], s.top[n], s.order);
    s' := s.(top := s.top[..n]);
  }

  lemma Enter(edges: Edges, s: Search, stack: seq<Frame>, done: set<ObjectID>, active: set<ObjectID>,
              children: seq<ObjectID>) returns (s': Search)
    requires Explains(edges, s, stack, done, active) && stack != []
    requires !stack[|stack| - 1].leaving && stack[|stack| - 1].vertex !in done + active
    requires forall w :: w in children <==> (stack[|stack| - 1].vertex, w) in edges
    ensures var v := stack[|stack| - 1].vertex;
            Explains(edges, s', stack[..|stack| - 1] + [Frame(v, true)] + Entering(children), done, active + {v})
  {
    Popped(edges, s, stack, done, active);
    var n, v := |s.top| - 1, stack[|stack| - 1].vertex;
    assert s.top == s.top[..n] + [v];
    EnterStep(edges, s.trail, s.below, s.top[..n], v, s.order, children);
    MarkersPush(s.trail, s.below, v, s.top[..n]);
    s' := Search(s.trail + [v], s.below + [s.top[..n]], children, s.order);
  }

  lemma Closing(edges: Edges, s: Search, stack: seq<Frame>, done: set<ObjectID>, active: set<ObjectID>)
    requires Explains(edges, s, stack, done, active) && stack != []
    requires !stack[|stack| - 1].leaving && stack[|stack| - 1].vertex in active
    ensures !Acyclic(edges)
  {
    Popped(edges, s, stack, done, active);
    ClosingStep(edges, s.trail, s.below, s.top, s.order, stack[|stack| - 1].vertex);
  }

  function Successors(adjacency: Adjacency, v: ObjectID): set<ObjectID> {
    if v in adjacency then adjacency[v] else {}
  }

  // One iteration of the inner loop: pop the top entry and act on it.
  method SearchStep(adjacency: Adjacency, stack: seq<Frame>, done: set<ObjectID>, active: set<ObjectID>,
                    ghost s: Search)
    returns (stack': seq<Frame>, done': set<ObjectID>, active': set<ObjectID>, ghost s': Search, cyclic: bool)
    requires stack != [] && Explains(EdgesOf(adjacency), s, stack, done, active)
    ensures cyclic ==> !Acyclic(EdgesOf(adjacency))
    ensures !cyclic ==> Explains(EdgesOf(adjacency), s', stack', done', active')
    ensures !cyclic ==> done + active <= done' + active' <= done + active + {stack[|stack| - 1].vertex}
    ensures !cyclic ==> stack[|stack| - 1].vertex in done' + active'
    ensures !cyclic && done' + active' == done + active ==> |stack'| < |stack|
    ensures !cyclic ==> forall f :: f in stack' ==>
      f in stack || f.vertex == stack[|stack| - 1].vertex || (stack[|stack| - 1].vertex, f.vertex) in EdgesOf(adjacency)
  {
    ghost var edges := EdgesOf(adjacency);
    var node, leaving := stack[|stack| - 1].vertex, stack[|stack| - 1].leaving;
    stack', done', active', s', cyclic := stack[..|stack| - 1], done, active, s, false;
    if leaving {
      s' := Leave(edges, s, stack, done, active);
      active', done' := active - {node}, done + {node};
    } else if node in active {
      Closing(edges, s, stack, done, active);
      cyclic := true;
    } else if node !in done {
      var children := InSomeOrder(Successors(adjacency, node));
      s' := Enter(edges, s, stack, done, active, children);
      active' := active + {node};
      forall f | f in Entering(children) ensures (node, f.vertex) in edges {
        assert f.vertex in children;
      }
      stack' := stack' + [Frame(node, true)] + Entering(children);
    } else {
      s' := Pop(edges, s, stack, done, active);
    }
  }

  // The inner loop: everything reachable from one unfinished root is finished.
  method SearchFrom(adjacency: Adjacency, root: ObjectID, done: set<ObjectID>, ghost s: Search)
    returns (done': set<ObjectID>, ghost s': Search, cyclic: bool)
    requires Explains(EdgesOf(adjacency), s, [], done, {}) && root in adjacency
    ensures cyclic ==> !Acyclic(EdgesOf(adjacency))
    ensures !cyclic ==> Explains(EdgesOf(adjacency), s', [], done', {}) && done + {root} <= done'
  {
    ghost var edges := EdgesOf(adjacency);
    ghost var universe := adjacency.Keys + set e | e in edges :: e.1;
    var stack, active: set<ObjectID> := [Frame(root, false)], {};
    done', cyclic := done, false;
    Idle(edges, s, done);
    s' := s.(top := [root]);
    while stack != [] && !cyclic
      invariant cyclic ==> !Acyclic(edges)
      invariant !cyclic ==> Explains(edges, s', stack, done', active)
      invariant !cyclic ==> done <= done' + active && (root in done' + active || stack == [Frame(root, false)])
      invariant !cyclic ==> forall f :: f in stack ==> f.vertex in universe
      decreases !cyclic, universe - (done' + active), |stack|
    {
      stack, done', active, s', cyclic := SearchStep(adjacency, stack, done', active, s');
    }
    if !cyclic { NoneActive(edges, s', done', active); }
  }

  /** The iterative depth-first search over every vertex with outgoing edges. */
  method FindsCycle(adjacency: Adjacency) returns (cyclic: bool)
    ensures cyclic <==> !Acyclic(EdgesOf(adjacency))
  {
    var done: set<ObjectID>, roots := {}, adjacency.Keys;
    ghost var s := Search([], [], [], []);
    cyclic := false;
    while roots != {}
      invariant roots <= adjacency.Keys <= roots + done
      invariant Explains(EdgesOf(adjacency), s, [], done, {})
      decreases roots
    {
      var root :| root in roots;
      roots := roots - {root};
      if root !in done {
        done, s, cyclic := SearchFrom(adjacency, root, done, s);
        if cyclic { return; }
      }
    }
    FinishOrderIsAcyclic(EdgesOf(adjacency), s.order);
  }

  // An empty stack has no active vertex, so any vertex may start the next search.
  lemma NoneActive(edges: Edges, s: Search, done: set<ObjectID>, active: set<ObjectID>)
    requires Explains(edges, s, [], done, active)
    ensures active == {} && s.trail == [] && s.top == []
  {
    assert |Entering(s.top)| == |s.top|;
    assert |Markers(s.trail, s.below)| == 0;
  }

  lemma Idle(edges: Edges, s: Search, done: set<ObjectID>)
    requires Explains(edges, s, [], done, {})
    ensures forall root :: Explains(edges, s.(top := [root]), [Frame(root, false)], done, {})
  {
    NoneActive(edges, s, done, {});
    forall root ensures Explains(edges, s.(top := [root]), [Frame(root, false)], done, {}) {
      assert Entering([root]) == [Frame(root, false)];
    }
  }
}
