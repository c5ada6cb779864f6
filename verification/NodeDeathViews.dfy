/** Certificates that a set of Node deaths is installed at every survivor, and
    the order in which a Node accepts them. */
module NodeDeathViews {
  import opened Ids

  datatype NodeInfo = NodeInfo(node: NodeID, pid: nat, registration: nat, address: Address, total: nat, available: nat)
  datatype Snapshot = Snapshot(epoch: nat, id: string, nodes: seq<NodeInfo>)
  datatype Ack = Ack(node: NodeID, epoch: nat, snapshot: string, installed: bool)
  datatype NodeDeath = NodeDeath(detection: string, node: NodeID, pid: nat, registration: nat, epoch: nat,
                                 exitCode: int)

  datatype View = View(snapshot: Snapshot, acks: seq<Ack>, deaths: seq<NodeDeath>)

  function NodesOf(v: View): set<NodeID> { set n | n in v.snapshot.nodes :: n.node }
  function DeadOf(v: View): set<NodeID> { set d | d in v.deaths :: d.node }

  // What constructing a certificate checks.
  ghost predicate Certified(v: View) {
    // Survivors are listed in identity order, each once.
    && (forall i, j :: 0 <= i < j < |v.snapshot.nodes| ==>
          v.snapshot.nodes[i].node.value < v.snapshot.nodes[j].node.value)
    // One successful acknowledgement per survivor, in the same order.
    && |v.acks| == |v.snapshot.nodes|
    && (forall i :: 0 <= i < |v.acks| ==>
          v.acks[i] == Ack(v.snapshot.nodes[i].node, v.snapshot.epoch, v.snapshot.id, true))
    // Deaths are committed before the snapshot, in epoch order, each fact once.
    && v.deaths != [] && (forall d :: d in v.deaths ==> d.epoch <= v.snapshot.epoch)
    && (forall i, j :: 0 <= i < j < |v.deaths| ==>
          v.deaths[i].epoch < v.deaths[j].epoch && v.deaths[i].node != v.deaths[j].node
          && v.deaths[i].detection != v.deaths[j].detection)
    && NodesOf(v) !! DeadOf(v)
  }

  // Everything about a Node but its free resources.
  predicate SameIncarnation(a: NodeInfo, b: NodeInfo) { a == b.(available := a.available) }

  ghost predicate Succeeds(next: View, previous: View) {
    && next.snapshot.epoch >= previous.snapshot.epoch
    && (next.snapshot.epoch == previous.snapshot.epoch ==> next.snapshot == previous.snapshot)
    && (forall d :: d in previous.deaths ==> d in next.deaths)
    && (forall n :: n in next.snapshot.nodes ==> exists o :: o in previous.snapshot.nodes && SameIncarnation(o, n))
    && forall o :: o in previous.snapshot.nodes && o.node !in NodesOf(next) ==> Buried(next, previous, o)
  }

  // A removed survivor has its own death on record, later than the view it survived.
  ghost predicate Buried(next: View, previous: View, o: NodeInfo) {
    exists d :: d in next.deaths && d.node == o.node && d.pid == o.pid && d.registration == o.registration
      && d.epoch > previous.snapshot.epoch
  }

  lemma SucceedsIsReflexive(v: View)
    ensures Succeeds(v, v)
  {
    forall n | n in v.snapshot.nodes ensures exists o :: o in v.snapshot.nodes && SameIncarnation(o, n) {
      assert SameIncarnation(n, n);
    }
    assert forall o :: o in v.snapshot.nodes ==> o.node in NodesOf(v);
  }

  /** A Node that skipped a certificate still accepts the one after it. */
  lemma SucceedsIsTransitive(a: View, b: View, c: View)
    requires Certified(a) && Certified(b) && Certified(c) && Succeeds(b, a) && Succeeds(c, b)
    ensures Succeeds(c, a)
  {
    forall n | n in c.snapshot.nodes ensures exists o :: o in a.snapshot.nodes && SameIncarnation(o, n) {
      var m :| m in b.snapshot.nodes && SameIncarnation(m, n);
      var o :| o in a.snapshot.nodes && SameIncarnation(o, m);
      assert SameIncarnation(o, n);
    }
    forall o | o in a.snapshot.nodes && o.node !in NodesOf(c) ensures Buried(c, a, o) {
      if o.node in NodesOf(b) {
        var m :| m in b.snapshot.nodes && m.node == o.node;
        SurvivorIsSame(a, b, o, m);
        assert Buried(c, b, m);
      } else {
        assert Buried(b, a, o);
      }
    }
  }

  // A Node listed in both certificates is one incarnation.
  lemma SurvivorIsSame(a: View, b: View, o: NodeInfo, m: NodeInfo)
    requires Certified(a) && Succeeds(b, a) && o in a.snapshot.nodes && m in b.snapshot.nodes && o.node == m.node
    ensures SameIncarnation(o, m)
  {
    var x :| x in a.snapshot.nodes && SameIncarnation(x, m);
    var i :| 0 <= i < |a.snapshot.nodes| && a.snapshot.nodes[i] == x;
    var j :| 0 <= j < |a.snapshot.nodes| && a.snapshot.nodes[j] == o;
    assert i == j;
  }

  // Certificates published one after another, each accepted after the last.
  ghost predicate Chain(views: seq<View>) {
    && (forall v :: v in views ==> Certified(v))
    && forall i :: 0 <= i < |views| - 1 ==> Succeeds(views[i + 1], views[i])
  }

  /** Main result: along a chain every later certificate is accepted after every
      earlier one, however many were skipped in between. */
  lemma {:induction false} ChainAccepts(views: seq<View>, i: nat, j: nat)
    requires Chain(views) && i <= j < |views|
    ensures Succeeds(views[j], views[i])
    decreases j - i
  {
    if i == j {
      SucceedsIsReflexive(views[i]);
    } else {
      ChainAccepts(views, i, j - 1);
      assert Succeeds(views[j - 1 + 1], views[j - 1]);
      SucceedsIsTransitive(views[i], views[j - 1], views[j]);
    }
  }

  // Two facts of one certificate that share a Node or a detection are one fact.
  lemma FactsAreUnique(v: View, d: NodeDeath, e: NodeDeath)
    requires Certified(v) && d in v.deaths && e in v.deaths && (d.node == e.node || d.detection == e.detection)
    ensures d == e
  {
    var x :| 0 <= x < |v.deaths| && v.deaths[x] == d;
    var y :| 0 <= y < |v.deaths| && v.deaths[y] == e;
    assert !(x < y) && !(y < x);
  }

  /** Main result: no death is ever lost or rebound along a chain, and no dead
      Node reappears among later survivors. */
  lemma DeathsArePermanent(views: seq<View>, i: nat, j: nat, d: NodeDeath)
    requires Chain(views) && i <= j < |views| && d in views[i].deaths
    ensures d in views[j].deaths && d.node !in NodesOf(views[j])
    ensures forall e | e in views[j].deaths && (e.node == d.node || e.detection == d.detection) :: e == d
  {
    ChainAccepts(views, i, j);
    var v := views[j];
    assert Certified(v);
    assert d.node in DeadOf(v);
    forall e | e in v.deaths && (e.node == d.node || e.detection == d.detection) ensures e == d {
      FactsAreUnique(v, d, e);
    }
  }

  // The death of exactly this incarnation, after everything the certificate recorded.
  ghost predicate DiedAfter(next: View, previous: View, o: NodeInfo) {
    exists d :: d in next.deaths && d.node == o.node && d.pid == o.pid && d.registration == o.registration
      && d.epoch > previous.snapshot.epoch && forall e :: e in previous.deaths ==> e.epoch < d.epoch
  }

  /** Epochs never fall along a chain, and one epoch has one snapshot. Nobody joins
      through a death certificate, and every leaver has a later death of its own. */
  lemma SurvivorsShrink(views: seq<View>, i: nat, j: nat)
    requires Chain(views) && i <= j < |views|
    ensures views[i].snapshot.epoch <= views[j].snapshot.epoch
    ensures views[i].snapshot.epoch == views[j].snapshot.epoch ==> views[i].snapshot == views[j].snapshot
    ensures NodesOf(views[j]) <= NodesOf(views[i])
    ensures forall o :: o in views[i].snapshot.nodes && o.node !in NodesOf(views[j]) ==>
              o.node in DeadOf(views[j]) && DiedAfter(views[j], views[i], o)
  {
    ChainAccepts(views, i, j);
    assert Certified(views[i]);
    forall n | n in views[j].snapshot.nodes ensures n.node in NodesOf(views[i]) {
      var o :| o in views[i].snapshot.nodes && SameIncarnation(o, n);
    }
    forall o | o in views[i].snapshot.nodes && o.node !in NodesOf(views[j])
      ensures o.node in DeadOf(views[j]) && DiedAfter(views[j], views[i], o)
    {
      assert Buried(views[j], views[i], o);
    }
  }

  // The Node reported that it installed exactly this certificate's snapshot.
  predicate Installed(v: View, n: NodeID) { Ack(n, v.snapshot.epoch, v.snapshot.id, true) in v.acks }

  lemma AckedBySurvivors(v: View, n: NodeID)
    requires Certified(v)
    ensures Installed(v, n) <==> n in NodesOf(v)
    ensures forall a :: a in v.acks ==> a.installed && Installed(v, a.node)
  {
    if n in NodesOf(v) {
      var k :| 0 <= k < |v.snapshot.nodes| && v.snapshot.nodes[k].node == n;
      assert v.acks[k] == Ack(n, v.snapshot.epoch, v.snapshot.id, true);
    }
    if Installed(v, n) {
      var k :| 0 <= k < |v.acks| && v.acks[k] == Ack(n, v.snapshot.epoch, v.snapshot.id, true);
      assert v.snapshot.nodes[k] in v.snapshot.nodes;
    }
  }

  /** Main result: whoever is still a survivor reported the installation of every
      certificate so far; only Nodes buried in between may have missed a later one. */
  lemma SurvivorsInstalled(views: seq<View>, i: nat, j: nat, n: NodeID)
    requires Chain(views) && i <= j < |views|
    ensures n in NodesOf(views[j]) ==> forall k :: i <= k <= j ==> Installed(views[k], n)
    ensures Installed(views[i], n) && !Installed(views[j], n) ==> n in DeadOf(views[j])
  {
    hide Certified, Succeeds, DeadOf, DiedAfter, Installed;
    forall k | i <= k <= j ensures n in NodesOf(views[j]) ==> Installed(views[k], n) {
      SurvivorsShrink(views, k, j);
      AckedBySurvivors(views[k], n);
    }
    SurvivorsShrink(views, i, j);
    AckedBySurvivors(views[i], n);
    AckedBySurvivors(views[j], n);
  }
}
