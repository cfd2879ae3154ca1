/** The storage topology placement reads: zones, address conflicts, pools. */
module NodeMap {
  import opened BarrierTypes
  import opened Sequences
  import opened VolumeSpec

  datatype NodeEntry = NodeEntry(zone: string, address: string, addressConflict: bool, pools: map<string, string>)

  type Topology = map<Node, NodeEntry>

  datatype NodeObject = NodeObject(name: Node, entry: NodeEntry)

  predicate Placeable(m: Topology, n: Node) {
    n in m && !m[n].addressConflict
  }

  predicate HasPool(m: Topology, n: Node, pool: string) {
    n in m && PoolOrDefault(pool) in m[n].pools
  }

  function ZoneOf(m: Topology, n: Node): string {
    if n in m then m[n].zone else ""
  }

  // ----- folding the node objects -----

  ghost predicate NamedOnce(items: seq<NodeObject>) {
    forall i, j | 0 <= i < j < |items| :: items[i].name != items[j].name
  }

  /** An address that parses groups under its canonical spelling, any other as it stands.
      `canonical` is the parser: the spelling of an IP address, or nothing. */
  function ConflictKey(canonical: string -> Option<string>, address: string): string {
    if canonical(address).Some? then canonical(address).value else address
  }

  ghost predicate SharesAddress(canonical: string -> Option<string>, items: seq<NodeObject>, x: NodeObject) {
    var key := ConflictKey(canonical, x.entry.address);
    key != "" && exists y <- items :: y.name != x.name && ConflictKey(canonical, y.entry.address) == key
  }

  ghost predicate Marked(canonical: string -> Option<string>, items: seq<NodeObject>, m: Topology, x: NodeObject) {
    x.name in m && m[x.name] == x.entry.(addressConflict := SharesAddress(canonical, items, x))
  }

  /** Every object becomes an entry, and exactly those sharing a replication address with
      another, however it is spelled, are marked conflicted. */
  ghost predicate Folds(canonical: string -> Option<string>, items: seq<NodeObject>, m: Topology) {
    m.Keys == (set x | x in items :: x.name) && forall x <- items :: Marked(canonical, items, m, x)
  }

  ghost predicate Owns(canonical: string -> Option<string>, items: seq<NodeObject>, key: string, n: Node) {
    key != "" && exists x <- items :: x.name == n && ConflictKey(canonical, x.entry.address) == key
  }

  ghost predicate OwnersAre(
    canonical: string -> Option<string>, items: seq<NodeObject>, owners: map<string, set<Node>>)
  {
    forall k, n :: Owns(canonical, items, k, n) <==> k in owners && n in owners[k]
  }

  method OwnersOf(canonical: string -> Option<string>, items: seq<NodeObject>) returns (owners: map<string, set<Node>>)
    ensures OwnersAre(canonical, items, owners)
  {
    owners := map[];
    for i := 0 to |items|
      invariant OwnersAre(canonical, items[..i], owners)
    {
      var x := items[i];
      var key := ConflictKey(canonical, x.entry.address);
      ghost var seen, next := items[..i], items[..i + 1];
      assert next == seen + [x];
      if key != "" {
        owners := owners[key := (if key in owners then owners[key] else {}) + {x.name}];
      }
      forall k, n
        ensures Owns(canonical, next, k, n) <==> k in owners && n in owners[k]
      {
        assert Owns(canonical, next, k, n) <==> Owns(canonical, seen, k, n) || (k != "" && x.name == n && k == key);
      }
    }
    assert items[..|items|] == items;
  }

  method FromNodes(canonical: string -> Option<string>, items: seq<NodeObject>) returns (m: Topology)
    requires NamedOnce(items)
    ensures Folds(canonical, items, m)
  {
    var owners := OwnersOf(canonical, items);
    m := map[];
    for i := 0 to |items|
      invariant m.Keys == set x | x in items[..i] :: x.name
      invariant forall x <- items[..i] :: Marked(canonical, items, m, x)
    {
      var x := items[i];
      var key := ConflictKey(canonical, x.entry.address);
      assert items[..i + 1] == items[..i] + [x];
      assert forall y <- items[..i] :: y.name != x.name;
      var shared := key in owners && owners[key] - {x.name} != {};
      assert shared == SharesAddress(canonical, items, x) by { SharedIffOwners(canonical, items, owners, x); }
      m := m[x.name := x.entry.(addressConflict := shared)];
    }
    assert items[..|items|] == items;
  }

  lemma SharedIffOwners(
    canonical: string -> Option<string>, items: seq<NodeObject>, owners: map<string, set<Node>>, x: NodeObject)
    requires x in items && OwnersAre(canonical, items, owners)
    ensures var key := ConflictKey(canonical, x.entry.address);
            SharesAddress(canonical, items, x) <==> key in owners && owners[key] - {x.name} != {}
  {
    var key := ConflictKey(canonical, x.entry.address);
    if key != "" {
      assert Owns(canonical, items, key, x.name);
      if owners[key] - {x.name} != {} {
        var n :| n in owners[key] - {x.name};
        assert Owns(canonical, items, key, n);
      } else {
        forall y | y in items && ConflictKey(canonical, y.entry.address) == key
          ensures y.name == x.name
        {
          assert Owns(canonical, items, key, y.name);
          assert y.name !in owners[key] - {x.name};
        }
      }
    } else {
      assert forall n :: !Owns(canonical, items, key, n);
    }
  }

  /** Two placeable nodes never answer at the same replication address, however spelled. */
  lemma PlaceableAddressesDiffer(
    canonical: string -> Option<string>, items: seq<NodeObject>, m: Topology, a: Node, b: Node)
    requires NamedOnce(items) && Folds(canonical, items, m)
    requires a != b && Placeable(m, a) && Placeable(m, b) && ConflictKey(canonical, m[a].address) != ""
    ensures ConflictKey(canonical, m[a].address) != ConflictKey(canonical, m[b].address)
  {
    var x :| x in items && x.name == a;
    var y :| y in items && y.name == b;
    assert Marked(canonical, items, m, x) && Marked(canonical, items, m, y);
    assert !SharesAddress(canonical, items, x);
  }

  // ----- spare nodes -----

  ghost function Candidates(m: Topology, used: set<Node>, fits: set<Node>): set<Node> {
    set n | n in m && n !in used && n in fits && Placeable(m, n)
  }

  ghost predicate FreeZone(m: Topology, usedZones: set<string>, n: Node) {
    ZoneOf(m, n) == "" || ZoneOf(m, n) !in usedZones
  }

  /** The lowest-named candidate in a zone not used yet, else the lowest-named one. */
  ghost function Spare(m: Topology, used: set<Node>, usedZones: set<string>, fits: set<Node>): Option<Node> {
    var all := Candidates(m, used, fits);
    var spread := set n | n in all && FreeZone(m, usedZones, n);
    if spread != {} then Some(Least(spread)) else if all != {} then Some(Least(all)) else None
  }

  ghost predicate Ascending(s: seq<Node>) {
    forall i, j | 0 <= i < j < |s| :: s[i] < s[j]
  }

  /** Inserts into the sorted list of spares. */
  method Insert(s: seq<Node>, n: Node) returns (r: seq<Node>)
    requires Ascending(s) && n !in s
    ensures Ascending(r) && forall x :: x in r <==> x in s || x == n
  {
    var k := 0;
    while k < |s| && s[k] < n
      invariant k <= |s| && forall i | 0 <= i < k :: s[i] < n
    {
      k := k + 1;
    }
    r := s[..k] + [n] + s[k..];
    InsertMembers(s, n, k);
  }

  lemma InsertMembers(s: seq<Node>, n: Node, k: nat)
    requires k <= |s|
    ensures forall x :: x in s[..k] + [n] + s[k..] <==> x in s || x == n
  {
    assert s == s[..k] + s[k..];
  }

  method PickSpare(m: Topology, used: set<Node>, usedZones: set<string>, fits: set<Node>) returns (r: Option<Node>)
    ensures r == Spare(m, used, usedZones, fits)
  {
    var spare: seq<Node> := [];
    var left := m.Keys;
    while left != {}
      invariant left <= m.Keys && Ascending(spare)
      invariant forall n :: n in spare <==> n in Candidates(m, used, fits) && n !in left
    {
      var n :| n in left;
      left := left - {n};
      if n !in used && n in fits && Placeable(m, n) {
        spare := Insert(spare, n);
      }
    }
    ghost var all := Candidates(m, used, fits);
    ghost var spread := set n | n in all && FreeZone(m, usedZones, n);
    for i := 0 to |spare|
      invariant forall j | 0 <= j < i :: spare[j] !in spread
    {
      var z := ZoneOf(m, spare[i]);
      if z == "" || z !in usedZones {
        FirstIsLeast(spare, i, spread);
        return Some(spare[i]);
      }
    }
    assert spread == {};
    if |spare| > 0 {
      FirstIsLeast(spare, 0, all);
      return Some(spare[0]);
    }
    assert all == {};
    return None;
  }

  lemma FirstIsLeast(s: seq<Node>, i: nat, among: set<Node>)
    requires Ascending(s) && i < |s| && s[i] in among
    requires (forall x <- among :: x in s) && forall j | 0 <= j < i :: s[j] !in among
    ensures Least(among) == s[i]
  {
    var m := Least(among);
    assert m in among;
    var k :| 0 <= k < |s| && s[k] == m;
    assert k >= i;
  }

  // ----- spares for a volume's legs -----

  ghost function ZonesOf(m: Topology, nodes: set<Node>): set<string> {
    set n | n in nodes && ZoneOf(m, n) != "" :: ZoneOf(m, n)
  }

  ghost function ReplicaNodes(s: Spec): set<Node> {
    set r | r in s.replicas :: r.node
  }

  ghost function ClientNodes(s: Spec): set<Node> {
    set c | c in s.clients :: c.node
  }

  /** Where a tie-breaker goes: replica and client nodes both count as used. */
  ghost function TieBreakerNode(m: Topology, s: Spec): Option<Node> {
    var legs := ReplicaNodes(s) + ClientNodes(s);
    Spare(m, legs, ZonesOf(m, legs), m.Keys)
  }

  /** Where a dead diskful leg goes: the dead node is used, but its zone is free again. */
  ghost function ReplacementNode(m: Topology, s: Spec, dead: Node, fits: set<Node>): Option<Node> {
    Spare(m, ReplicaNodes(s) + ClientNodes(s), ZonesOf(m, ReplicaNodes(s) - {dead}), fits)
  }

  lemma SpareHoldsNoLeg(m: Topology, s: Spec, dead: Node, fits: set<Node>)
    ensures TieBreakerNode(m, s).Some? ==>
      !HasLegOn(s, TieBreakerNode(m, s).value) && Placeable(m, TieBreakerNode(m, s).value)
    ensures ReplacementNode(m, s, dead, fits).Some? ==>
      var n := ReplacementNode(m, s, dead, fits).value; !HasLegOn(s, n) && Placeable(m, n) && n in fits
  {
  }

  method UsedByReplicas(m: Topology, s: Spec, dead: Option<Node>) returns (used: set<Node>, zones: set<string>)
    ensures used == ReplicaNodes(s)
    ensures zones == ZonesOf(m, if dead.Some? then ReplicaNodes(s) - {dead.value} else ReplicaNodes(s))
  {
    used, zones := {}, {};
    for i := 0 to |s.replicas|
      invariant used == set r | r in s.replicas[..i] :: r.node
      invariant forall z :: z in zones <==>
        exists r <- s.replicas[..i] :: dead != Some(r.node) && ZoneOf(m, r.node) == z && z != ""
    {
      var r := s.replicas[i];
      assert s.replicas[..i + 1] == s.replicas[..i] + [r];
      used := used + {r.node};
      if dead != Some(r.node) && ZoneOf(m, r.node) != "" {
        zones := zones + {ZoneOf(m, r.node)};
      }
    }
    assert s.replicas[..|s.replicas|] == s.replicas;
    assert forall r <- s.replicas :: r.node in ReplicaNodes(s);
  }

  method UsedByClients(s: Spec) returns (used: set<Node>)
    ensures used == ClientNodes(s)
  {
    used := {};
    for i := 0 to |s.clients|
      invariant used == set c | c in s.clients[..i] :: c.node
    {
      assert s.clients[..i + 1] == s.clients[..i] + [s.clients[i]];
      used := used + {s.clients[i].node};
    }
    assert s.clients[..|s.clients|] == s.clients;
  }

  method PickReplacement(m: Topology, s: Spec, dead: Node, fits: set<Node>) returns (r: Option<Node>)
    ensures r == ReplacementNode(m, s, dead, fits)
  {
    var used, zones := UsedByReplicas(m, s, Some(dead));
    var clients := UsedByClients(s);
    r := PickSpare(m, used + clients, zones, fits);
  }

  /** The client nodes are walked as extra legs, so their zones count as used too. */
  method PickTieBreaker(m: Topology, s: Spec) returns (r: Option<Node>)
    ensures r == TieBreakerNode(m, s)
  {
    var used, zones := UsedByReplicas(m, s, None);
    for i := 0 to |s.clients|
      invariant used == ReplicaNodes(s) + set c | c in s.clients[..i] :: c.node
      invariant zones == ZonesOf(m, used)
    {
      var n := s.clients[i].node;
      assert s.clients[..i + 1] == s.clients[..i] + [s.clients[i]];
      ghost var before := used;
      used := used + {n};
      if ZoneOf(m, n) != "" {
        zones := zones + {ZoneOf(m, n)};
      }
      assert forall x <- before :: x in used;
      assert zones == ZonesOf(m, used);
    }
    assert s.clients[..|s.clients|] == s.clients;
    r := PickSpare(m, used, zones, m.Keys);
  }
}
