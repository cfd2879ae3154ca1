/** Placing a new volume's diskful legs, and the capacity the scheduler is told about.

    A pool's headroom on a node is taken as one number; a node that published no fresh
    stats has none. */
module Placement {
  import opened BarrierTypes
  import opened Sequences
  import opened VolumeSpec
  import opened NodeMap
  import opened ZoneSpread

  datatype PoolView = PoolView(
    topology: Topology,
    pool: string,
    room: map<Node, nat>,
    free: map<Node, nat>,
    provisioned: map<Node, nat>,
    addresses: map<Node, string>)

  predicate Candidate(v: PoolView, n: Node) {
    n in v.topology && HasPool(v.topology, n, v.pool) && Placeable(v.topology, n)
  }

  ghost function Candidates(v: PoolView, excluded: set<Node>): set<Node> {
    set n | n in v.topology && Candidate(v, n) && n !in excluded
  }

  predicate Overcommitted(v: PoolView, n: Node, size: nat) {
    n in v.room && size > v.room[n]
  }

  function ValueAt(s: map<Node, nat>, n: Node): nat {
    if n in s then s[n] else 0
  }

  /** The ranking: headroom, then free space, then least provisioned, then name. */
  predicate Before(v: PoolView, a: Node, b: Node) {
    if ValueAt(v.room, a) != ValueAt(v.room, b) then ValueAt(v.room, a) > ValueAt(v.room, b)
    else if ValueAt(v.free, a) != ValueAt(v.free, b) then ValueAt(v.free, a) > ValueAt(v.free, b)
    else if ValueAt(v.provisioned, a) != ValueAt(v.provisioned, b) then
      ValueAt(v.provisioned, a) < ValueAt(v.provisioned, b)
    else a < b
  }

  ghost predicate Ranked(v: PoolView, s: seq<Node>) {
    forall i, j | 0 <= i < j < |s| :: Before(v, s[i], s[j])
  }

  lemma BeforeOrders(v: PoolView, a: Node, b: Node, c: Node)
    ensures a != b ==> Before(v, a, b) || Before(v, b, a)
    ensures Before(v, a, b) && Before(v, b, c) ==> Before(v, a, c)
  {
  }

  lemma RankedInsert(v: PoolView, s: seq<Node>, n: Node, k: nat)
    requires Ranked(v, s) && n !in s && k <= |s|
    requires (forall i | 0 <= i < k :: Before(v, s[i], n)) && (k < |s| ==> !Before(v, s[k], n))
    ensures Ranked(v, s[..k] + [n] + s[k..])
  {
    forall j | k <= j < |s| ensures Before(v, n, s[j]) {
      BeforeOrders(v, n, s[k], s[j]);
    }
  }

  method RankIn(v: PoolView, s: seq<Node>, n: Node) returns (r: seq<Node>)
    requires Ranked(v, s) && n !in s
    ensures Ranked(v, r) && Elements(r) == Elements(s) + {n}
  {
    var k := 0;
    while k < |s| && Before(v, s[k], n)
      invariant k <= |s| && forall i | 0 <= i < k :: Before(v, s[i], n)
    {
      k := k + 1;
    }
    RankedInsert(v, s, n, k);
    r := s[..k] + [n] + s[k..];
    assert s == s[..k] + s[k..];
    assert forall x :: x in r <==> x in s || x == n;
  }

  lemma RankedDistinct(v: PoolView, s: seq<Node>)
    requires Ranked(v, s)
    ensures NoRepeats(s)
  {
    forall i, j | 0 <= i < j < |s| ensures s[i] != s[j] {
      assert Before(v, s[i], s[j]);
    }
  }

  // ----- topology -----

  /** The scheduler's request: preferred entries, then required ones; some name no node. */
  datatype Request = Request(preferred: seq<Option<Node>>, requisite: seq<Option<Node>>)

  function Wishes(reqs: Request): seq<Option<Node>> {
    reqs.preferred + reqs.requisite
  }

  /** An entry that settles the request: it names a candidate, or a node already taken. */
  predicate Settles(v: PoolView, excluded: set<Node>, w: Option<Node>) {
    w.Some? && (w.value in excluded || Candidate(v, w.value))
  }

  ghost predicate FirstSettling(v: PoolView, excluded: set<Node>, wishes: seq<Option<Node>>, k: int) {
    && 0 <= k < |wishes| && Settles(v, excluded, wishes[k])
    && forall j | 0 <= j < k :: !Settles(v, excluded, wishes[j])
  }

  /** Behind an entry that settles nothing, the rest decides. */
  lemma SettlesLater(v: PoolView, excluded: set<Node>, wishes: seq<Option<Node>>)
    requires wishes != [] && !Settles(v, excluded, wishes[0])
    ensures (exists k :: 0 <= k < |wishes| && Settles(v, excluded, wishes[k])) <==>
            exists k :: 0 <= k < |wishes[1..]| && Settles(v, excluded, wishes[1..][k])
    ensures forall k | FirstSettling(v, excluded, wishes, k) ::
              k > 0 && FirstSettling(v, excluded, wishes[1..], k - 1) && wishes[1..][k - 1] == wishes[k]
  {
    if k :| 0 <= k < |wishes| && Settles(v, excluded, wishes[k]) {
      assert wishes[1..][k - 1] == wishes[k];
    }
    if k :| 0 <= k < |wishes[1..]| && Settles(v, excluded, wishes[1..][k]) {
      assert wishes[k + 1] == wishes[1..][k];
    }
    forall k | FirstSettling(v, excluded, wishes, k)
      ensures k > 0 && FirstSettling(v, excluded, wishes[1..], k - 1) && wishes[1..][k - 1] == wishes[k]
    {
      assert forall j | 0 <= j < k - 1 :: wishes[1..][j] == wishes[j + 1];
    }
  }

  /** The first entry that names a candidate pins it; one that names an excluded node
      satisfies the request without a pin. */
  function TopologyPick(v: PoolView, excluded: set<Node>, wishes: seq<Option<Node>>): (r: (Option<Node>, bool))
    ensures r.0.Some? ==> r.1 && r.0.value in Candidates(v, excluded)
    ensures r.1 && r.0.None? ==> excluded != {}
    ensures r.1 <==> exists k :: 0 <= k < |wishes| && Settles(v, excluded, wishes[k])
    ensures forall k | FirstSettling(v, excluded, wishes, k) ::
              r.0 == if wishes[k].value in excluded then None else wishes[k]
  {
    if wishes == [] then (None, false)
    else if Settles(v, excluded, wishes[0]) then (if wishes[0].value in excluded then None else wishes[0], true)
    else
      SettlesLater(v, excluded, wishes);
      TopologyPick(v, excluded, wishes[1..])
  }

  // ----- admission -----

  ghost function Eligible(v: PoolView, excluded: set<Node>, pin: Option<Node>, size: nat): set<Node> {
    set n | n in Candidates(v, excluded) && Some(n) != pin && !Overcommitted(v, n, size)
  }

  /** Room for `count` legs, one of them on the pin. */
  ghost predicate Fits(v: PoolView, excluded: set<Node>, pin: Option<Node>, count: nat, size: nat) {
    && (pin.Some? ==> !Overcommitted(v, pin.value, size))
    && |Eligible(v, excluded, pin, size)| + (if pin.Some? then 1 else 0) >= count
  }

  ghost predicate Admits(v: PoolView, excluded: set<Node>, reqs: Request, remote: bool, count: nat, size: nat) {
    var (pin, matched) := TopologyPick(v, excluded, Wishes(reqs));
    (reqs.requisite == [] || matched || remote) && Fits(v, excluded, pin, count, size)
  }

  datatype Outcome = Legs(replicas: seq<Replica>) | Refused | Unresolved

  method Rest(v: PoolView, excluded: set<Node>, pin: Option<Node>, size: nat) returns (rest: seq<Node>)
    ensures Ranked(v, rest) && Elements(rest) == Eligible(v, excluded, pin, size)
  {
    rest := [];
    var left := v.topology.Keys;
    while left != {}
      invariant left <= v.topology.Keys && Ranked(v, rest)
      invariant forall n :: n in Elements(rest) <==> n in Eligible(v, excluded, pin, size) && n !in left
    {
      var n :| n in left;
      left := left - {n};
      if n !in excluded && Candidate(v, n) && Some(n) != pin && !Overcommitted(v, n, size) {
        assert n !in Elements(rest);
        rest := RankIn(v, rest, n);
      }
    }
  }

  method CountCandidates(v: PoolView, excluded: set<Node>) returns (k: nat)
    ensures k == |Candidates(v, excluded)|
  {
    var found: set<Node> := {};
    var left := v.topology.Keys;
    while left != {}
      invariant left <= v.topology.Keys
      invariant forall n :: n in found <==> n in Candidates(v, excluded) && n !in left
    {
      var n :| n in left;
      left := left - {n};
      if n !in excluded && Candidate(v, n) {
        found := found + {n};
      }
    }
    assert found == Candidates(v, excluded);
    k := |found|;
  }

  lemma FewCandidates(v: PoolView, excluded: set<Node>, pin: Option<Node>, count: nat, size: nat)
    requires |Candidates(v, excluded)| < count && (pin.Some? ==> pin.value in Candidates(v, excluded))
    ensures !Fits(v, excluded, pin, count, size)
  {
    if pin.Some? {
      SubsetSize(Eligible(v, excluded, pin, size), Candidates(v, excluded) - {pin.value});
    } else {
      SubsetSize(Eligible(v, excluded, pin, size), Candidates(v, excluded));
    }
  }

  ghost function PinSet(pin: Option<Node>): set<Node> {
    if pin.Some? then {pin.value} else {}
  }

  /** A node with room gives way to a worse ranked one only to a better node, or the pin, of
      its own named zone. */
  ghost predicate ZoneServed(v: PoolView, pin: Option<Node>, nodes: seq<Node>, a: Node) {
    && ZoneOf(v.topology, a) != ""
    && exists c <- nodes :: ZoneOf(v.topology, c) == ZoneOf(v.topology, a) && (Some(c) == pin || Before(v, c, a))
  }

  /** The ranking decides: within a zone outright, across zones unless the zone is served. */
  ghost predicate RankHonoured(v: PoolView, excluded: set<Node>, pin: Option<Node>, size: nat, nodes: seq<Node>) {
    forall a <- Eligible(v, excluded, pin, size), b <- nodes :: Some(b) != pin && Before(v, a, b) ==>
      && (a in nodes || ZoneServed(v, pin, nodes, a))
      && (ZoneOf(v.topology, a) == ZoneOf(v.topology, b) ==> a in nodes)
  }

  /** The nodes chosen: count distinct candidates with room, the pin first, no such choice
      spans more failure domains, and none is passed over for a worse ranked one unless its zone
      is served already. */
  ghost predicate WellChosen(
    v: PoolView, excluded: set<Node>, pin: Option<Node>, count: nat, size: nat, nodes: seq<Node>)
  {
    && |nodes| == count && NoRepeats(nodes)
    && (forall n <- nodes :: n in Candidates(v, excluded) && !Overcommitted(v, n, size))
    && (pin.Some? && count > 0 ==> nodes[0] == pin.value)
    && RankHonoured(v, excluded, pin, size, nodes)
    && forall t: set<Node> | PinSet(pin) <= t <= Eligible(v, excluded, pin, size) + PinSet(pin) && |t| == count ::
         Domains(v.topology, t) <= Domains(v.topology, Elements(nodes))
  }

  function PinList(pin: Option<Node>): seq<Node> {
    if pin.Some? then [pin.value] else []
  }

  lemma PinnedDistinct(pin: Option<Node>, rest: seq<Node>)
    requires NoRepeats(rest) && (pin.Some? ==> pin.value !in rest)
    ensures NoRepeats(PinList(pin) + rest)
    ensures Elements(PinList(pin) + rest) == Elements(rest) + PinSet(pin)
  {
    var k, ordered := |PinList(pin)|, PinList(pin) + rest;
    forall i, j | 0 <= i < j < |ordered| ensures ordered[i] != ordered[j] {
      assert ordered[j] == rest[j - k];
      if i >= k {
        assert ordered[i] == rest[i - k];
      }
    }
    assert forall n :: n in ordered <==> n in rest || n in PinList(pin);
  }

  /** The pin, then every other node with room, in rank order. */
  method Order(v: PoolView, excluded: set<Node>, pin: Option<Node>, size: nat) returns (ordered: seq<Node>)
    ensures NoRepeats(ordered) && PinList(pin) <= ordered && Ranked(v, ordered[|PinList(pin)|..])
    ensures Elements(ordered) == Eligible(v, excluded, pin, size) + PinSet(pin)
    ensures |ordered| == |Eligible(v, excluded, pin, size)| + |PinList(pin)|
  {
    var rest := Rest(v, excluded, pin, size);
    RankedDistinct(v, rest);
    DistinctSize(rest);
    assert pin.Some? ==> pin.value !in rest by {
      assert forall n <- rest :: n in Elements(rest);
    }
    PinnedDistinct(pin, rest);
    ordered := PinList(pin) + rest;
    assert ordered[|PinList(pin)|..] == rest;
  }

  lemma RankedFrom(v: PoolView, ordered: seq<Node>, k: nat, i: nat, j: nat)
    requires k <= i < |ordered| && k <= j < |ordered| && Ranked(v, ordered[k..])
    ensures i < j ==> Before(v, ordered[i], ordered[j])
  {
    assert ordered[k..][i - k] == ordered[i] && ordered[k..][j - k] == ordered[j];
  }

  lemma RankDecides(
    v: PoolView, excluded: set<Node>, pin: Option<Node>, size: nat, ordered: seq<Node>, picked: seq<Node>)
    requires PinList(pin) <= ordered && Ranked(v, ordered[|PinList(pin)|..])
    requires Elements(ordered) == Eligible(v, excluded, pin, size) + PinSet(pin)
    requires Elements(picked) <= Elements(ordered)
    requires RankKept(v.topology, ordered, Elements(picked)) && RankHeld(v.topology, ordered, Elements(picked))
    ensures RankHonoured(v, excluded, pin, size, picked)
  {
    var k := |PinList(pin)|;
    forall a, b | a in Eligible(v, excluded, pin, size) && b in picked && Some(b) != pin && Before(v, a, b)
      ensures a in picked || ZoneServed(v, pin, picked, a)
      ensures ZoneOf(v.topology, a) == ZoneOf(v.topology, b) ==> a in picked
    {
      assert a in Elements(ordered) && b in Elements(picked);
      var i := BehindPin(ordered, pin, a);
      var j := BehindPin(ordered, pin, b);
      RankedFrom(v, ordered, k, j, i);
      assert ordered[i] in Elements(picked) || Shaded(v.topology, ordered, Elements(picked), i);
      if ordered[i] !in Elements(picked) {
        ServedBy(v, pin, ordered, picked, i);
      }
    }
  }

  lemma BehindPin(ordered: seq<Node>, pin: Option<Node>, n: Node) returns (i: nat)
    requires PinList(pin) <= ordered && n in Elements(ordered) && Some(n) != pin
    ensures |PinList(pin)| <= i < |ordered| && ordered[i] == n
  {
    i :| 0 <= i < |ordered| && ordered[i] == n;
  }

  lemma ServedBy(v: PoolView, pin: Option<Node>, ordered: seq<Node>, picked: seq<Node>, i: nat)
    requires PinList(pin) <= ordered && Ranked(v, ordered[|PinList(pin)|..]) && |PinList(pin)| <= i < |ordered|
    requires Shaded(v.topology, ordered, Elements(picked), i)
    ensures ZoneServed(v, pin, picked, ordered[i])
  {
    var k :| 0 <= k < i && ordered[k] in Elements(picked)
      && ZoneOf(v.topology, ordered[k]) == ZoneOf(v.topology, ordered[i]);
    assert ordered[k] in picked;
    if k >= |PinList(pin)| {
      RankedFrom(v, ordered, |PinList(pin)|, k, i);
    } else {
      assert ordered[..|PinList(pin)|] == PinList(pin);
    }
  }

  lemma ChosenWell(
    v: PoolView, excluded: set<Node>, pin: Option<Node>, count: nat, size: nat, ordered: seq<Node>, picked: seq<Node>)
    requires PinList(pin) <= ordered && Elements(ordered) == Eligible(v, excluded, pin, size) + PinSet(pin)
    requires pin.Some? ==> pin.value in Candidates(v, excluded) && !Overcommitted(v, pin.value, size)
    requires |picked| == count >= |PinList(pin)| && NoRepeats(picked) && Elements(picked) <= Elements(ordered)
    requires picked[..|PinList(pin)|] == ordered[..|PinList(pin)|]
    requires Optimal(v.topology, ordered, |PinList(pin)|, count, Elements(picked))
    requires RankHonoured(v, excluded, pin, size, picked)
    ensures WellChosen(v, excluded, pin, count, size, picked)
  {
    assert ordered[..|PinList(pin)|] == PinList(pin);
    assert Elements(PinList(pin)) == PinSet(pin);
    assert forall n <- picked :: n in Elements(picked);
    if pin.Some? {
      assert picked[0] == picked[..1][0];
    }
  }

  method AnyOvercommitted(v: PoolView, nodes: seq<Node>, size: nat) returns (b: bool)
    ensures b <==> exists n <- nodes :: Overcommitted(v, n, size)
  {
    for i := 0 to |nodes|
      invariant forall j | 0 <= j < i :: !Overcommitted(v, nodes[j], size)
    {
      if Overcommitted(v, nodes[i], size) {
        return true;
      }
    }
    return false;
  }

  method Choose(
    v: PoolView, excluded: set<Node>, pin: Option<Node>, count: nat, size: nat)
    returns (nodes: Option<seq<Node>>)
    requires count > 0 && (pin.Some? ==> pin.value in Candidates(v, excluded))
    ensures nodes.Some? <==> Fits(v, excluded, pin, count, size)
    ensures nodes.Some? ==> WellChosen(v, excluded, pin, count, size, nodes.value)
  {
    var ordered := Order(v, excluded, pin, size);
    if |ordered| < count {
      return None;
    }
    var picked := SpreadByZone(v.topology, ordered, |PinList(pin)|, count);
    var over := AnyOvercommitted(v, picked, size);
    OnlyPinOver(v, excluded, pin, size, ordered, picked);
    if over {
      return None;
    }
    RankDecides(v, excluded, pin, size, ordered, picked);
    ChosenWell(v, excluded, pin, count, size, ordered, picked);
    nodes := Some(picked);
  }

  /** Of the picks only the pin can lack room, since it was not asked before. */
  lemma OnlyPinOver(
    v: PoolView, excluded: set<Node>, pin: Option<Node>, size: nat, ordered: seq<Node>, picked: seq<Node>)
    requires PinList(pin) <= ordered && Elements(ordered) == Eligible(v, excluded, pin, size) + PinSet(pin)
    requires Elements(picked) <= Elements(ordered) && |picked| >= |PinList(pin)|
    requires picked[..|PinList(pin)|] == ordered[..|PinList(pin)|]
    ensures (exists n <- picked :: Overcommitted(v, n, size)) <==> pin.Some? && Overcommitted(v, pin.value, size)
  {
    forall n | n in picked && Overcommitted(v, n, size) ensures pin == Some(n) {
      assert n in Elements(picked);
    }
    if pin.Some? {
      assert picked[..1][0] == ordered[0] == pin.value;
      assert pin.value in picked;
    }
  }

  ghost predicate LegsOn(v: PoolView, count: nat, nodes: seq<Node>, replicas: seq<Replica>) {
    && |replicas| == |nodes|
    && forall i | 0 <= i < |nodes| ::
         var r := replicas[i];
         && r.node == nodes[i] && Diskful(r) && r.pool == v.pool && !r.fullSync
         && (count > 1 ==> r.nodeID == i && nodes[i] in v.addresses && r.address == v.addresses[nodes[i]])
         && (count <= 1 ==> r.nodeID == 0 && r.address == "")
  }

  /** Places `count` legs or refuses; it refuses exactly when the request is not admitted. */
  method Place(v: PoolView, reqs: Request, count: nat, size: nat, remote: bool, excluded: set<Node>)
    returns (out: Outcome, ghost nodes: seq<Node>)
    requires count > 0
    ensures out.Refused? <==> !Admits(v, excluded, reqs, remote, count, size)
    ensures out.Unresolved? <==> !out.Refused? && count > 1 && exists n <- nodes :: n !in v.addresses
    ensures !out.Refused? ==>
      WellChosen(v, excluded, TopologyPick(v, excluded, Wishes(reqs)).0, count, size, nodes)
    ensures out.Legs? ==> LegsOn(v, count, nodes, out.replicas)
  {
    nodes := [];
    var (pin, matched) := TopologyPick(v, excluded, Wishes(reqs));
    var k := CountCandidates(v, excluded);
    if k < count {
      FewCandidates(v, excluded, pin, count, size);
      return Refused, [];
    }
    if reqs.requisite != [] && !matched && !remote {
      return Refused, [];
    }
    var chosen := Choose(v, excluded, pin, count, size);
    if chosen.None? {
      return Refused, [];
    }
    nodes := chosen.value;
    var replicas: seq<Replica> := [];
    for i := 0 to |chosen.value|
      invariant LegsOn(v, count, nodes[..i], replicas)
    {
      var n := chosen.value[i];
      assert n in Candidates(v, excluded);
      var r := Replica(n, false, v.topology[n].pools[PoolOrDefault(v.pool)], v.pool, 0, "", false);
      if count > 1 {
        if n !in v.addresses {
          return Unresolved, nodes;
        }
        r := r.(nodeID := i, address := v.addresses[n]);
      }
      replicas := replicas + [r];
    }
    assert nodes[..|nodes|] == nodes;
    out := Legs(replicas);
  }

  // ----- capacity -----

  function Available(v: PoolView, n: Node): nat {
    if Candidate(v, n) then ValueAt(v.room, n) else 0
  }

  ghost function WithRoom(v: PoolView, pin: Option<Node>, size: nat): set<Node> {
    set n | n in v.topology && Some(n) != pin && Available(v, n) >= size
  }

  /** `size` is within the capacity of a class with that many replicas. */
  ghost predicate Covers(v: PoolView, replicas: nat, pin: Option<Node>, size: nat) {
    && (pin.Some? ==> size <= Available(v, pin.value))
    && |WithRoom(v, pin, size)| + (if pin.Some? then 1 else 0) >= replicas
  }

  function CountAtLeast(s: seq<nat>, x: nat): (k: nat)
    ensures k <= |s|
  {
    if s == [] then 0 else CountAtLeast(s[..|s| - 1], x) + if s[|s| - 1] >= x then 1 else 0
  }

  ghost predicate Descending(s: seq<nat>) {
    forall i, j | 0 <= i < j < |s| :: s[i] >= s[j]
  }

  lemma {:induction false} CountConcat(a: seq<nat>, b: seq<nat>, x: nat)
    ensures CountAtLeast(a + b, x) == CountAtLeast(a, x) + CountAtLeast(b, x)
    decreases |b|
  {
    if b == [] {
      assert a + b == a;
    } else {
      assert (a + b)[..|a + b| - 1] == a + b[..|b| - 1];
      CountConcat(a, b[..|b| - 1], x);
    }
  }

  method SortIn(s: seq<nat>, y: nat) returns (r: seq<nat>)
    requires Descending(s)
    ensures Descending(r) && |r| == |s| + 1
    ensures forall x :: CountAtLeast(r, x) == CountAtLeast(s, x) + (if y >= x then 1 else 0)
  {
    var k := 0;
    while k < |s| && s[k] >= y
      invariant k <= |s| && forall i | 0 <= i < k :: s[i] >= y
    {
      k := k + 1;
    }
    r := s[..k] + [y] + s[k..];
    forall x ensures CountAtLeast(r, x) == CountAtLeast(s, x) + (if y >= x then 1 else 0) {
      assert s == s[..k] + s[k..];
      CountConcat(s[..k], s[k..], x);
      CountConcat(s[..k] + [y], s[k..], x);
      CountConcat(s[..k], [y], x);
      assert [y][..0] == [];
    }
  }

  /** In a descending list the k-th value is at least x exactly when k values are. */
  lemma {:induction false} KthLargest(s: seq<nat>, k: nat, x: nat)
    requires Descending(s) && 1 <= k <= |s|
    ensures s[k - 1] >= x <==> CountAtLeast(s, x) >= k
  {
    var u := s[..|s| - 1];
    if k == |s| {
      if s[k - 1] >= x {
        AllCounted(s, x);
      }
    } else {
      KthLargest(u, k, x);
      if s[|s| - 1] >= x {
        assert s[k - 1] >= s[|s| - 1];
      }
    }
  }

  lemma {:induction false} AllCounted(s: seq<nat>, x: nat)
    requires forall i | 0 <= i < |s| :: s[i] >= x
    ensures CountAtLeast(s, x) == |s|
  {
    if s != [] {
      AllCounted(s[..|s| - 1], x);
    }
  }

  /** The list counts, for every size, the nodes seen that have it left. */
  ghost predicate Counted(v: PoolView, pin: Option<Node>, peers: seq<nat>, seen: set<Node>) {
    forall x :: CountAtLeast(peers, x) == |WithRoom(v, pin, x) * seen|
  }

  lemma CountedNone(v: PoolView, pin: Option<Node>)
    ensures Counted(v, pin, [], {})
  {
    forall x ensures CountAtLeast([], x) == |WithRoom(v, pin, x) * {}| {
      assert WithRoom(v, pin, x) * {} == {};
    }
  }

  lemma CountedPin(v: PoolView, peers: seq<nat>, seen: set<Node>, n: Node)
    requires Counted(v, Some(n), peers, seen) && n !in seen
    ensures Counted(v, Some(n), peers, seen + {n})
  {
    forall x ensures CountAtLeast(peers, x) == |WithRoom(v, Some(n), x) * (seen + {n})| {
      SeenOne(WithRoom(v, Some(n), x), seen, n);
    }
  }

  lemma CountedOne(v: PoolView, pin: Option<Node>, peers: seq<nat>, after: seq<nat>, seen: set<Node>, n: Node)
    requires Counted(v, pin, peers, seen) && n !in seen && n in v.topology && Some(n) != pin
    requires forall x :: CountAtLeast(after, x) == CountAtLeast(peers, x) + (if Available(v, n) >= x then 1 else 0)
    ensures Counted(v, pin, after, seen + {n})
  {
    forall x ensures CountAtLeast(after, x) == |WithRoom(v, pin, x) * (seen + {n})| {
      SeenOne(WithRoom(v, pin, x), seen, n);
    }
  }

  lemma CountedAll(v: PoolView, pin: Option<Node>, peers: seq<nat>)
    requires Counted(v, pin, peers, v.topology.Keys)
    ensures forall x :: CountAtLeast(peers, x) == |WithRoom(v, pin, x)|
  {
    forall x ensures CountAtLeast(peers, x) == |WithRoom(v, pin, x)| {
      assert WithRoom(v, pin, x) * v.topology.Keys == WithRoom(v, pin, x);
    }
  }

  /** The headrooms of every node but the pin, largest first. */
  method Peers(v: PoolView, pin: Option<Node>) returns (peers: seq<nat>)
    ensures Descending(peers) && forall x :: CountAtLeast(peers, x) == |WithRoom(v, pin, x)|
  {
    peers := [];
    var left := v.topology.Keys;
    ghost var seen: set<Node> := {};
    CountedNone(v, pin);
    while left != {}
      invariant seen == v.topology.Keys - left && left <= v.topology.Keys && Descending(peers)
      invariant Counted(v, pin, peers, seen)
    {
      var n :| n in left;
      if Some(n) != pin {
        var after := SortIn(peers, Available(v, n));
        CountedOne(v, pin, peers, after, seen, n);
        peers := after;
      } else {
        CountedPin(v, peers, seen, n);
      }
      left, seen := left - {n}, seen + {n};
    }
    assert seen == v.topology.Keys;
    CountedAll(v, pin, peers);
  }

  lemma SeenOne(s: set<Node>, seen: set<Node>, n: Node)
    requires n !in seen
    ensures |s * (seen + {n})| == |s * seen| + if n in s then 1 else 0
  {
    if n in s {
      assert s * (seen + {n}) == s * seen + {n};
    } else {
      assert s * (seen + {n}) == s * seen;
    }
  }

  /** The largest size a class can place: exactly the sizes up to it are covered. */
  method CapacityFor(v: PoolView, replicas: nat, pin: Option<Node>) returns (cap: nat)
    requires replicas > 0
    ensures forall size | size >= 1 :: size <= cap <==> Covers(v, replicas, pin, size)
  {
    var need := if pin.Some? then replicas - 1 else replicas;
    if need == 0 {
      return Available(v, pin.value);
    }
    var peers := Peers(v, pin);
    if |peers| < need {
      return 0;
    }
    forall size ensures peers[need - 1] >= size <==> |WithRoom(v, pin, size)| >= need {
      KthLargest(peers, need, size);
    }
    cap := peers[need - 1];
    if pin.Some? && Available(v, pin.value) < cap {
      cap := Available(v, pin.value);
    }
  }

  /** The answer for one topology segment, or for the cluster. */
  method GetCapacity(v: PoolView, replicas: nat, segment: Option<Node>, remote: bool) returns (cap: nat)
    requires replicas > 0
    ensures forall size | size >= 1 :: size <= cap <==>
      if segment.Some? && !Candidate(v, segment.value) then remote && Covers(v, replicas, None, size)
      else Covers(v, replicas, segment, size)
  {
    if segment.Some? && !Candidate(v, segment.value) {
      if !remote {
        return 0;
      }
      cap := CapacityFor(v, replicas, None);
    } else {
      cap := CapacityFor(v, replicas, segment);
    }
  }

  // ----- capacity agrees with admission -----

  ghost predicate AllKnown(v: PoolView) {
    forall n <- v.topology :: Candidate(v, n) ==> n in v.room
  }

  /** A request the scheduler makes for a segment: that node leads, and the rest of the
      cluster may follow in any rotation. */
  ghost predicate LedBy(reqs: Request, segment: Option<Node>) {
    if segment.Some? then Wishes(reqs) != [] && Wishes(reqs)[0] == segment else reqs == Request([], [])
  }

  ghost predicate OffPool(v: PoolView, segment: Option<Node>) {
    segment.Some? && !Candidate(v, segment.value)
  }

  /** Admission of the request and the capacity of the segment give the same answer. */
  ghost predicate Agree(v: PoolView, replicas: nat, segment: Option<Node>, reqs: Request, remote: bool, size: nat) {
    Admits(v, {}, reqs, remote, replicas, size) <==>
      if OffPool(v, segment) then remote && Covers(v, replicas, None, size)
      else Covers(v, replicas, segment, size)
  }

  lemma LedPick(v: PoolView, segment: Option<Node>, reqs: Request)
    requires LedBy(reqs, segment) && !OffPool(v, segment)
    ensures TopologyPick(v, {}, Wishes(reqs)) == (segment, segment.Some?)
  {
  }

  lemma RoomIsEligible(v: PoolView, pin: Option<Node>, size: nat)
    requires size >= 1 && AllKnown(v)
    ensures WithRoom(v, pin, size) == Eligible(v, {}, pin, size)
  {
  }

  lemma FitsIsCovers(v: PoolView, pin: Option<Node>, count: nat, size: nat)
    requires size >= 1 && AllKnown(v) && (pin.Some? ==> Candidate(v, pin.value))
    ensures Fits(v, {}, pin, count, size) <==> Covers(v, count, pin, size)
  {
    RoomIsEligible(v, pin, size);
  }

  /** For every size, replica count and segment that carries the pool, and whatever follows
      the segment in the request, placement succeeds exactly up to the reported capacity, if
      and only if every candidate has published stats: placement admits a node without
      stats, capacity counts it as full. */
  lemma CapacityAgreesExactly(v: PoolView)
    ensures (forall replicas: nat, segment, reqs, remote, size: nat |
               replicas > 0 && size >= 1 && LedBy(reqs, segment) && !OffPool(v, segment) ::
               Agree(v, replicas, segment, reqs, remote, size))
            <==> AllKnown(v)
  {
    if AllKnown(v) {
      forall replicas: nat, segment, reqs, remote, size: nat |
        replicas > 0 && size >= 1 && LedBy(reqs, segment) && !OffPool(v, segment)
        ensures Agree(v, replicas, segment, reqs, remote, size)
      {
        LedPick(v, segment, reqs);
        FitsIsCovers(v, segment, replicas, size);
      }
    } else {
      var n :| n in v.topology && Candidate(v, n) && n !in v.room;
      var reqs := Request([Some(n)], [Some(n)]);
      LedPick(v, Some(n), reqs);
      assert !Agree(v, 1, Some(n), reqs, false, 1);
    }
  }

  // ----- a segment without the pool -----

  /** The nodes with more room than one. */
  ghost function Roomier(v: PoolView, n: Node): set<Node> {
    set m | m in v.topology && Available(v, m) > Available(v, n)
  }

  lemma CoversAntitone(v: PoolView, replicas: nat, pin: Option<Node>, small: nat, size: nat)
    requires small <= size && Covers(v, replicas, pin, size)
    ensures Covers(v, replicas, pin, small)
  {
    SubsetSize(WithRoom(v, pin, size), WithRoom(v, pin, small));
  }

  lemma PinCounted(v: PoolView, n: Node, size: nat)
    requires n in v.topology && Available(v, n) >= size
    ensures |WithRoom(v, None, size)| == |WithRoom(v, Some(n), size)| + 1
  {
    assert WithRoom(v, None, size) == WithRoom(v, Some(n), size) + {n};
  }

  /** What a pin covers, the cluster covers; the converse needs the pin to have the room. */
  lemma PinnedCovers(v: PoolView, replicas: nat, n: Node, size: nat)
    requires n in v.topology
    ensures Covers(v, replicas, Some(n), size) <==> Covers(v, replicas, None, size) && size <= Available(v, n)
  {
    if size <= Available(v, n) {
      PinCounted(v, n, size);
    }
  }

  /** Pinning never narrows what the cluster covers, exactly when too few nodes have more
      room than the pin to hold a volume without it. */
  lemma PinIsFree(v: PoolView, replicas: nat, n: Node)
    requires n in v.topology && replicas > 0
    ensures (forall size: nat | size >= 1 :: Covers(v, replicas, None, size) ==> size <= Available(v, n))
            <==> |Roomier(v, n)| < replicas
  {
    var next := Available(v, n) + 1;
    assert WithRoom(v, None, next) == Roomier(v, n);
    if |Roomier(v, n)| < replicas {
      forall size: nat | size >= 1 && Covers(v, replicas, None, size) ensures size <= Available(v, n) {
        if size >= next {
          CoversAntitone(v, replicas, None, next, size);
        }
      }
    } else {
      assert Covers(v, replicas, None, next);
    }
  }

  /** A request led by a node that is no candidate is settled by whatever follows it.  Its
      outcome is as the capacity of that node says if and only if: with a later entry that
      pins a candidate, and remote access, that pin is free; without remote access, nothing
      fits behind it; with no pin, remote access or a requisite decides, or nothing fits. */
  ghost predicate TailAgrees(v: PoolView, replicas: nat, reqs: Request, remote: bool) {
    var pin := TopologyPick(v, {}, Wishes(reqs)).0;
    if pin.Some? && remote then |Roomier(v, pin.value)| < replicas
    else if pin.Some? then !Covers(v, replicas, pin, 1)
    else remote || reqs.requisite != [] || !Covers(v, replicas, None, 1)
  }

  ghost predicate AlwaysAgree(v: PoolView, replicas: nat, segment: Option<Node>, reqs: Request, remote: bool) {
    forall size: nat | size >= 1 :: Agree(v, replicas, segment, reqs, remote, size)
  }

  lemma UnpinnedAgrees(v: PoolView, replicas: nat, segment: Option<Node>, reqs: Request, remote: bool)
    requires AllKnown(v) && OffPool(v, segment) && TopologyPick(v, {}, Wishes(reqs)) == (None, false)
    ensures AlwaysAgree(v, replicas, segment, reqs, remote) <==>
            remote || reqs.requisite != [] || !Covers(v, replicas, None, 1)
  {
    forall size: nat | size >= 1
      ensures Agree(v, replicas, segment, reqs, remote, size) <==>
              remote || reqs.requisite != [] || !Covers(v, replicas, None, size)
      ensures Covers(v, replicas, None, size) ==> Covers(v, replicas, None, 1)
    {
      FitsIsCovers(v, None, replicas, size);
      if Covers(v, replicas, None, size) {
        CoversAntitone(v, replicas, None, 1, size);
      }
    }
    assert Agree(v, replicas, segment, reqs, remote, 1) <==>
           remote || reqs.requisite != [] || !Covers(v, replicas, None, 1);
  }

  lemma PinnedAgrees(
    v: PoolView, replicas: nat, segment: Option<Node>, reqs: Request, remote: bool, pin: Option<Node>, size: nat)
    requires AllKnown(v) && size >= 1 && OffPool(v, segment)
    requires pin.Some? && TopologyPick(v, {}, Wishes(reqs)) == (pin, true)
    ensures Agree(v, replicas, segment, reqs, remote, size) <==>
            if remote then Covers(v, replicas, None, size) ==> size <= Available(v, pin.value)
            else !Covers(v, replicas, pin, size)
  {
    FitsIsCovers(v, pin, replicas, size);
    PinnedCovers(v, replicas, pin.value, size);
  }

  lemma PinnedRemoteAgrees(v: PoolView, replicas: nat, segment: Option<Node>, reqs: Request, pin: Option<Node>)
    requires AllKnown(v) && replicas > 0 && OffPool(v, segment)
    requires pin.Some? && TopologyPick(v, {}, Wishes(reqs)) == (pin, true)
    ensures AlwaysAgree(v, replicas, segment, reqs, true) <==> |Roomier(v, pin.value)| < replicas
  {
    forall size: nat | size >= 1
      ensures Agree(v, replicas, segment, reqs, true, size) <==>
              (Covers(v, replicas, None, size) ==> size <= Available(v, pin.value))
    {
      PinnedAgrees(v, replicas, segment, reqs, true, pin, size);
    }
    PinIsFree(v, replicas, pin.value);
  }

  lemma PinnedLocalAgrees(v: PoolView, replicas: nat, segment: Option<Node>, reqs: Request, pin: Option<Node>)
    requires AllKnown(v) && replicas > 0 && OffPool(v, segment)
    requires pin.Some? && TopologyPick(v, {}, Wishes(reqs)) == (pin, true)
    ensures AlwaysAgree(v, replicas, segment, reqs, false) <==> !Covers(v, replicas, pin, 1)
  {
    PinnedAgrees(v, replicas, segment, reqs, false, pin, 1);
    forall size: nat | size >= 1 && !Covers(v, replicas, pin, 1)
      ensures Agree(v, replicas, segment, reqs, false, size)
    {
      PinnedAgrees(v, replicas, segment, reqs, false, pin, size);
      if Covers(v, replicas, pin, size) {
        CoversAntitone(v, replicas, pin, 1, size);
      }
    }
  }

  lemma OffPoolAgreesExactly(v: PoolView, replicas: nat, segment: Option<Node>, reqs: Request, remote: bool)
    requires AllKnown(v) && replicas > 0 && OffPool(v, segment) && LedBy(reqs, segment)
    ensures AlwaysAgree(v, replicas, segment, reqs, remote) <==> TailAgrees(v, replicas, reqs, remote)
  {
    var pin := TopologyPick(v, {}, Wishes(reqs)).0;
    if pin.None? {
      UnpinnedAgrees(v, replicas, segment, reqs, remote);
    } else if remote {
      PinnedRemoteAgrees(v, replicas, segment, reqs, pin);
    } else {
      PinnedLocalAgrees(v, replicas, segment, reqs, pin);
    }
  }

  // ----- the rotated request -----

  function Pooled(zone: string): NodeEntry {
    NodeEntry(zone, "", false, map[DEFAULT_POOL := "zfs"])
  }

  /** Node 0 carries no pool, node 1 has as much room as stated, node 2 has ten bytes. */
  function ThreeNodes(room: nat): PoolView {
    PoolView(map[0 := NodeEntry("", "", false, map[]), 1 := Pooled(""), 2 := Pooled("")], DEFAULT_POOL,
             map[1 := room, 2 := 10], map[], map[], map[])
  }

  /** The cluster rotated behind node 0. */
  const ROTATED := Request([Some(0), Some(1), Some(2)], [Some(0), Some(1), Some(2)])

  lemma RotationPins(room: nat)
    ensures AllKnown(ThreeNodes(room)) && OffPool(ThreeNodes(room), Some(0)) && LedBy(ROTATED, Some(0))
    ensures TopologyPick(ThreeNodes(room), {}, Wishes(ROTATED)) == (Some(1), true)
  {
    var v, w := ThreeNodes(room), Wishes(ROTATED);
    assert w[0] == Some(0) && w[1] == Some(1);
    assert !Settles(v, {}, w[0]) && Settles(v, {}, w[1]);
  }

  /** With remote access, a full node behind the selected one is pinned and refuses what the
      cluster was said to hold. */
  lemma RotationRefuses()
    ensures var v := ThreeNodes(0);
            !Admits(v, {}, ROTATED, true, 1, 5) && Covers(v, 1, None, 5) && !AlwaysAgree(v, 1, Some(0), ROTATED, true)
  {
    var v := ThreeNodes(0);
    RotationPins(0);
    assert 2 in WithRoom(v, None, 5);
    PositiveSize(WithRoom(v, None, 5), 2);
    assert !Agree(v, 1, Some(0), ROTATED, true, 5);
  }

  /** Without it, a node the pod cannot use is told to hold nothing, and the volume is
      placed behind it all the same. */
  lemma RotationAdmits()
    ensures var v := ThreeNodes(10);
            Admits(v, {}, ROTATED, false, 1, 5) && !AlwaysAgree(v, 1, Some(0), ROTATED, false)
  {
    RotationPins(10);
    assert !Agree(ThreeNodes(10), 1, Some(0), ROTATED, false, 5);
  }

  lemma PositiveSize(s: set<Node>, n: Node)
    requires n in s
    ensures |s| >= 1
  {
    SubsetSize({n}, s);
  }
}
