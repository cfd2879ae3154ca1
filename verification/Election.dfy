/** Which node coordinates a round: each node decides alone, from its own DRBD view. */
module Election {
  import opened BarrierTypes
  import opened Sequences
  import opened VolumeSpec

  /** One node's view: its own role, a peer's, and the ids of the peers it is linked to. */
  datatype View = View(primary: bool, peerPrimary: bool, connected: set<int>)

  /** An entry a node defers to: not yet completed, or linked. */
  predicate Present(r: Replica, view: View) {
    r.address == "" || r.nodeID in view.connected
  }

  ghost predicate Coordinates(self: Node, replicas: seq<Replica>, view: View) {
    view.primary ||
    (!view.peerPrimary &&
     exists i | 0 <= i < |replicas| ::
       && replicas[i].node == self && Diskful(replicas[i])
       && forall j | 0 <= j < i && Diskful(replicas[j]) :: replicas[j].node != self && !Present(replicas[j], view))
  }

  method CoordinatorFor(self: Node, replicas: seq<Replica>, view: View) returns (b: bool)
    ensures b == Coordinates(self, replicas, view)
  {
    if view.primary {
      return true;
    }
    if view.peerPrimary {
      return false;
    }
    for i := 0 to |replicas|
      invariant forall j | 0 <= j < i && Diskful(replicas[j]) :: replicas[j].node != self && !Present(replicas[j], view)
    {
      if !replicas[i].diskless {
        if replicas[i].node == self {
          return true;
        }
        if replicas[i].address == "" || replicas[i].nodeID in view.connected {
          return false;
        }
      }
    }
    return false;
  }

  /** A set of live diskful nodes linked to each other and to no other diskful node, none of
      them seeing a Primary. */
  ghost predicate Island(replicas: seq<Replica>, nodes: set<Node>, views: map<Node, View>) {
    && DistinctBy(replicas, NodeOf) && nodes <= views.Keys && nodes != {}
    && (forall n <- nodes :: exists r <- replicas :: r.node == n && Diskful(r))
    && (forall n <- nodes :: !views[n].primary && !views[n].peerPrimary)
    && (forall n <- nodes, r <- replicas :: r.node != n && Diskful(r) && r.address != "" ==>
          (r.nodeID in views[n].connected <==> r.node in nodes))
  }

  /** The island's first entry in spec order. */
  ghost predicate FirstOf(replicas: seq<Replica>, nodes: set<Node>, k: nat) {
    && k < |replicas| && Diskful(replicas[k]) && replicas[k].node in nodes
    && forall j | 0 <= j < k && Diskful(replicas[j]) :: replicas[j].node !in nodes
  }

  ghost predicate UnaddressedBefore(replicas: seq<Replica>, k: nat)
    requires k < |replicas|
  {
    exists j | 0 <= j < k :: Diskful(replicas[j]) && replicas[j].address == ""
  }

  lemma {:induction false} FirstExists(replicas: seq<Replica>, nodes: set<Node>, upto: nat) returns (k: nat)
    requires upto <= |replicas| && exists j | 0 <= j < upto :: Diskful(replicas[j]) && replicas[j].node in nodes
    ensures FirstOf(replicas, nodes, k)
  {
    if exists j | 0 <= j < upto - 1 :: Diskful(replicas[j]) && replicas[j].node in nodes {
      k := FirstExists(replicas, nodes, upto - 1);
    } else {
      k := upto - 1;
    }
  }

  /** A node other than the first never elects itself: it sees the first one present. */
  lemma OnlyFirst(replicas: seq<Replica>, nodes: set<Node>, views: map<Node, View>, k: nat, n: Node)
    requires Island(replicas, nodes, views) && FirstOf(replicas, nodes, k) && n in nodes
    requires Coordinates(n, replicas, views[n])
    ensures n == replicas[k].node && !UnaddressedBefore(replicas, k)
  {
    var i :| 0 <= i < |replicas| && replicas[i].node == n && Diskful(replicas[i])
      && forall j | 0 <= j < i && Diskful(replicas[j]) :: replicas[j].node != n && !Present(replicas[j], views[n]);
    assert i >= k;
    if n != replicas[k].node {
      assert Present(replicas[k], views[n]);
    }
    assert NodeOf(replicas[i]) == n && NodeOf(replicas[k]) == replicas[k].node;
  }

  lemma FirstElects(replicas: seq<Replica>, nodes: set<Node>, views: map<Node, View>, k: nat)
    requires Island(replicas, nodes, views) && FirstOf(replicas, nodes, k) && !UnaddressedBefore(replicas, k)
    ensures Coordinates(replicas[k].node, replicas, views[replicas[k].node])
  {
  }

  /** At most one member of an island elects itself. */
  lemma AtMostOne(replicas: seq<Replica>, nodes: set<Node>, views: map<Node, View>, a: Node, b: Node)
    requires Island(replicas, nodes, views) && a in nodes && b in nodes
    requires Coordinates(a, replicas, views[a]) && Coordinates(b, replicas, views[b])
    ensures a == b
  {
    var r :| r in replicas && r.node == a && Diskful(r);
    var k := FirstExists(replicas, nodes, |replicas|);
    OnlyFirst(replicas, nodes, views, k, a);
    OnlyFirst(replicas, nodes, views, k, b);
  }

  ghost predicate SomeoneElected(replicas: seq<Replica>, nodes: set<Node>, views: map<Node, View>)
    requires nodes <= views.Keys
  {
    exists n :: n in nodes && Coordinates(n, replicas, views[n])
  }

  /** No unaddressed diskful entry stands before all of the island's. */
  ghost predicate Unobstructed(replicas: seq<Replica>, nodes: set<Node>) {
    exists k: nat :: FirstOf(replicas, nodes, k) && !UnaddressedBefore(replicas, k)
  }

  /** One does, if and only if no unaddressed entry stands in the way. */
  lemma ElectedExactly(replicas: seq<Replica>, nodes: set<Node>, views: map<Node, View>)
    requires Island(replicas, nodes, views)
    ensures SomeoneElected(replicas, nodes, views) <==> Unobstructed(replicas, nodes)
  {
    var k := IslandFirst(replicas, nodes, views);
    if n :| n in nodes && Coordinates(n, replicas, views[n]) {
      OnlyFirst(replicas, nodes, views, k, n);
    }
    if j: nat :| FirstOf(replicas, nodes, j) && !UnaddressedBefore(replicas, j) {
      FirstElects(replicas, nodes, views, j);
    }
  }

  lemma IslandFirst(replicas: seq<Replica>, nodes: set<Node>, views: map<Node, View>) returns (k: nat)
    requires Island(replicas, nodes, views)
    ensures FirstOf(replicas, nodes, k)
  {
    var n :| n in nodes;
    var r :| r in replicas && r.node == n && Diskful(r);
    k := FirstExists(replicas, nodes, |replicas|);
  }

  /** With every diskful entry addressed, exactly one member elects itself. */
  lemma ExactlyOne(replicas: seq<Replica>, nodes: set<Node>, views: map<Node, View>)
    requires Island(replicas, nodes, views) && forall r <- replicas :: Diskful(r) ==> r.address != ""
    ensures exists n :: n in nodes && Coordinates(n, replicas, views[n])
                        && forall m <- nodes :: Coordinates(m, replicas, views[m]) ==> m == n
  {
    var k := IslandFirst(replicas, nodes, views);
    FirstElects(replicas, nodes, views, k);
    var n := replicas[k].node;
    forall m | m in nodes && Coordinates(m, replicas, views[m]) ensures m == n {
      AtMostOne(replicas, nodes, views, m, n);
    }
  }

  /** A Primary every other node sees is the only coordinator, diskful or not. */
  lemma PrimaryCoordinates(replicas: seq<Replica>, views: map<Node, View>, p: Node)
    requires p in views && views[p].primary
    requires forall n <- views :: n != p ==> views[n].peerPrimary && !views[n].primary
    ensures forall n <- views :: Coordinates(n, replicas, views[n]) <==> n == p
  {
  }
}
