/** Adapting a restored volume's legs to a class that asks for another replica count. */
module Reshape {
  import opened BarrierTypes
  import opened Sequences
  import opened VolumeSpec
  import opened NodeMap
  import Placement
  import ZoneSpread

  predicate Complete(r: Replica) {
    !r.fullSync
  }

  /** A leg whose cloned device carries DRBD metadata, keyed by its node id. */
  predicate ClonesMetadata(r: Replica) {
    r.address != "" && Complete(r)
  }

  // ----- which source legs stay -----

  function Others(pin: Option<Node>, fullSync: bool): Replica -> bool {
    (r: Replica) => Some(r.node) != pin && r.fullSync == fullSync
  }

  function OnPin(pin: Option<Node>): Replica -> bool {
    (r: Replica) => Some(r.node) == pin
  }

  /** The legs in the order they are kept: the seed, the pin, complete ones, the rest. */
  function Preference(diskful: seq<Replica>, pin: Option<Node>): seq<Replica>
    requires diskful != []
  {
    [diskful[0]] + Keep(diskful[1..], OnPin(pin)) + Keep(diskful[1..], Others(pin, false))
    + Keep(diskful[1..], Others(pin, true))
  }

  ghost predicate OnLeg(diskful: seq<Replica>, n: Node) {
    exists r <- diskful :: r.node == n && Complete(r)
  }

  ghost predicate GoodSource(diskful: seq<Replica>) {
    diskful != [] && Complete(diskful[0]) && DistinctBy(diskful, NodeOf) && forall r <- diskful :: Diskful(r)
  }

  lemma {:induction false} ThreeWays(s: seq<Replica>, pin: Option<Node>)
    ensures |Keep(s, OnPin(pin))| + |Keep(s, Others(pin, false))| + |Keep(s, Others(pin, true))| == |s|
  {
    if s != [] {
      ThreeWays(s[..|s| - 1], pin);
    }
  }

  lemma PreferenceWhole(diskful: seq<Replica>, pin: Option<Node>)
    requires diskful != []
    ensures |Preference(diskful, pin)| == |diskful| && forall r <- Preference(diskful, pin) :: r in diskful
  {
    ThreeWays(diskful[1..], pin);
  }

  lemma PreferenceDistinct(diskful: seq<Replica>, pin: Option<Node>)
    requires diskful != [] && DistinctBy(diskful, NodeOf)
    ensures DistinctBy(Preference(diskful, pin), NodeOf)
  {
    var rest := diskful[1..];
    var a, b, c := Keep(rest, OnPin(pin)), Keep(rest, Others(pin, false)), Keep(rest, Others(pin, true));
    KeepDistinct(rest, OnPin(pin), NodeOf);
    KeepDistinct(rest, Others(pin, false), NodeOf);
    KeepDistinct(rest, Others(pin, true), NodeOf);
    forall x, y | x in b && y in c ensures NodeOf(x) != NodeOf(y) {
      if NodeOf(x) == NodeOf(y) {
        SameKeySame(rest, NodeOf, x, y);
      }
    }
    forall x | x in rest ensures NodeOf(diskful[0]) != NodeOf(x) {
      var k :| 0 <= k < |rest| && rest[k] == x;
      assert diskful[k + 1] == x;
    }
    DistinctConcat([diskful[0]], a, NodeOf);
    DistinctConcat([diskful[0]] + a, b, NodeOf);
    DistinctConcat([diskful[0]] + a + b, c, NodeOf);
  }

  lemma DistinctPrefix(s: seq<Replica>, n: nat)
    requires DistinctBy(s, NodeOf) && n <= |s|
    ensures DistinctBy(s[..n], NodeOf)
  {
  }

  /** What a choice of kept legs must satisfy. */
  ghost predicate WellKept(diskful: seq<Replica>, target: nat, pin: Option<Node>, kept: seq<Replica>) {
    && |kept| == target && DistinctBy(kept, NodeOf) && (forall r <- kept :: r in diskful)
    && (target > 0 ==> Complete(kept[0]))
    && (pin.Some? && target > 0 ==> exists r <- kept :: r.node == pin.value)
  }

  function Prefix(s: seq<Replica>, n: nat): seq<Replica> {
    if |s| <= n then s else s[..n]
  }

  /** Appends legs until there are enough. */
  method FillTo(kept: seq<Replica>, extra: seq<Replica>, target: nat) returns (out: seq<Replica>)
    requires |kept| <= target
    ensures out == Prefix(kept + extra, target)
  {
    out := kept;
    for i := 0 to |extra|
      invariant out == Prefix(kept + extra[..i], target)
    {
      assert kept + extra[..i + 1] == kept + extra[..i] + [extra[i]];
      if |out| < target {
        out := out + [extra[i]];
      }
    }
    assert extra[..|extra|] == extra;
  }

  lemma PrefixTwice(s: seq<Replica>, t: seq<Replica>, n: nat)
    ensures Prefix(Prefix(s, n) + t, n) == Prefix(s + t, n)
  {
  }

  /** The legs a shrink keeps: an unreplicated target just the pin, if there is one. */
  function Kept(diskful: seq<Replica>, target: nat, pin: Option<Node>): seq<Replica>
    requires diskful != []
  {
    if target == 1 && pin.Some? then Keep(diskful, OnPin(pin)) else Prefix(Preference(diskful, pin), target)
  }

  /** Keeps the seed, then the pin, then complete legs before the others; an unreplicated
      target keeps just the pin. */
  method KeepRestoreLegs(diskful: seq<Replica>, target: nat, pin: Option<Node>) returns (kept: seq<Replica>)
    requires GoodSource(diskful) && 1 <= target <= |diskful| && (pin.Some? ==> OnLeg(diskful, pin.value))
    ensures kept == Kept(diskful, target, pin) && WellKept(diskful, target, pin, kept)
  {
    if pin.Some? && target == 1 {
      kept := JustPin(diskful, pin.value);
      return;
    }
    var onPin := Filter(diskful[1..], OnPin(pin));
    PinOnce(diskful, pin);
    kept := [diskful[0]] + onPin;
    ghost var head := kept;
    var complete := Filter(diskful[1..], Others(pin, false));
    kept := FillTo(kept, complete, target);
    var joiners := Filter(diskful[1..], Others(pin, true));
    PrefixTwice(head + complete, joiners, target);
    kept := FillTo(kept, joiners, target);
    PreferenceKept(diskful, target, pin);
  }

  lemma PreferenceKept(diskful: seq<Replica>, target: nat, pin: Option<Node>)
    requires GoodSource(diskful) && 1 <= target <= |diskful| && (pin.Some? ==> OnLeg(diskful, pin.value))
    requires target > 1 || pin.None?
    ensures WellKept(diskful, target, pin, Prefix(Preference(diskful, pin), target))
  {
    var p := Preference(diskful, pin);
    PreferenceWhole(diskful, pin);
    PreferenceDistinct(diskful, pin);
    DistinctPrefix(p, target);
    assert Prefix(p, target) == p[..target];
    if pin.Some? {
      PinKept(diskful, target, pin);
    }
  }

  method JustPin(diskful: seq<Replica>, n: Node) returns (kept: seq<Replica>)
    requires GoodSource(diskful) && OnLeg(diskful, n)
    ensures kept == Keep(diskful, OnPin(Some(n))) && WellKept(diskful, 1, Some(n), kept)
  {
    var k := 0;
    while diskful[k].node != n
      invariant k < |diskful| && forall j | 0 <= j < k :: diskful[j].node != n
      decreases |diskful| - k
    {
      k := k + 1;
    }
    PinnedLeg(diskful, n, k);
    OnceIn(diskful, Some(n));
    kept := [diskful[k]];
  }

  lemma PinnedLeg(diskful: seq<Replica>, n: Node, k: nat)
    requires GoodSource(diskful) && OnLeg(diskful, n) && k < |diskful| && diskful[k].node == n
    ensures Complete(diskful[k])
  {
    var r :| r in diskful && r.node == n && Complete(r);
    SameKeySame(diskful, NodeOf, r, diskful[k]);
  }

  lemma PinOnce(diskful: seq<Replica>, pin: Option<Node>)
    requires GoodSource(diskful)
    ensures |Keep(diskful[1..], OnPin(pin))| <= One(pin)
  {
    assert DistinctBy(diskful[1..], NodeOf);
    OnceIn(diskful[1..], pin);
  }

  lemma {:induction false} OnceIn(s: seq<Replica>, pin: Option<Node>)
    requires DistinctBy(s, NodeOf)
    ensures |Keep(s, OnPin(pin))| <= One(pin)
  {
    if s != [] {
      var u, x := s[..|s| - 1], s[|s| - 1];
      OnceIn(u, pin);
      if Some(x.node) == pin {
        forall r | r in u ensures r.node != x.node {
          var k :| 0 <= k < |u| && u[k] == r;
          assert NodeOf(s[k]) != NodeOf(s[|u|]);
        }
        KeepNone(u, OnPin(pin));
      }
    }
  }

  function One(pin: Option<Node>): nat {
    if pin.Some? then 1 else 0
  }

  lemma PinKept(diskful: seq<Replica>, target: nat, pin: Option<Node>)
    requires GoodSource(diskful) && 1 < target <= |Preference(diskful, pin)| && pin.Some? && OnLeg(diskful, pin.value)
    ensures exists r <- Preference(diskful, pin)[..target] :: r.node == pin.value
  {
    var p := Preference(diskful, pin);
    if diskful[0].node == pin.value {
      assert p[..target][0] == diskful[0];
    } else {
      var r :| r in diskful && r.node == pin.value;
      assert r in diskful[1..];
      var a := Keep(diskful[1..], OnPin(pin));
      assert a[0] in a;
      assert p[..target][1] == a[0];
    }
  }

  // ----- where a shrink is pinned -----

  datatype Pin = Pinned(node: Option<Node>) | NoLeg

  /** A selected node with a complete leg is honoured; otherwise the seed, if the hard
      topology bound admits it, or the first complete leg the bound admits. */
  method ShrinkPin(requisite: set<Node>, diskful: seq<Replica>, selected: Option<Node>) returns (pin: Pin)
    requires GoodSource(diskful)
    ensures pin.NoLeg? <==>
      && selected.Some? && !OnLeg(diskful, selected.value)
      && requisite != {} && forall n <- requisite :: !OnLeg(diskful, n)
    ensures pin.Pinned? && pin.node.Some? ==> OnLeg(diskful, pin.node.value)
    ensures selected.Some? && OnLeg(diskful, selected.value) ==> pin == Pinned(selected)
    ensures pin.Pinned? && selected.Some? && !OnLeg(diskful, selected.value) && requisite != {} ==>
      (if pin.node.Some? then pin.node.value else diskful[0].node) in requisite
  {
    if selected.None? {
      return Pinned(None);
    }
    for i := 0 to |diskful|
      invariant forall j | 0 <= j < i :: !(diskful[j].node == selected.value && !diskful[j].fullSync)
    {
      if diskful[i].node == selected.value && !diskful[i].fullSync {
        return Pinned(selected);
      }
    }
    if requisite == {} || diskful[0].node in requisite {
      return Pinned(None);
    }
    for i := 0 to |diskful|
      invariant forall j | 0 <= j < i :: !(diskful[j].node in requisite && !diskful[j].fullSync)
    {
      if !diskful[i].fullSync && diskful[i].node in requisite {
        return Pinned(Some(diskful[i].node));
      }
    }
    return NoLeg;
  }

  // ----- node ids -----

  function IdOf(r: Replica): int {
    r.nodeID
  }

  ghost predicate CloneIdsDistinct(s: seq<Replica>) {
    forall i, j | 0 <= i < j < |s| && ClonesMetadata(s[i]) && ClonesMetadata(s[j]) :: s[i].nodeID != s[j].nodeID
  }

  /** The smallest id not in use; the search ends because the ids in use are finitely many. */
  method FreeId(used: set<int>) returns (id: nat)
    ensures id !in used && forall k: int | 0 <= k < id :: k in used
  {
    id := 0;
    ghost var above := used;
    while id in used
      invariant forall k: int | 0 <= k < id :: k in used
      invariant above <= used && forall k <- used :: k >= id ==> k in above
      decreases |above|
    {
      above := above - {id};
      id := id + 1;
    }
  }

  ghost predicate Settled(legs: seq<Replica>, i: nat, j: int)
    requires 0 <= j < |legs|
  {
    j < i || ClonesMetadata(legs[j])
  }

  /** The legs numbered so far differ pairwise and are all in use. */
  ghost predicate Numbered(legs: seq<Replica>, out: seq<Replica>, i: nat, used: set<int>) {
    && |out| == |legs|
    && (forall j | 0 <= j < |legs| && Settled(legs, i, j) :: out[j].nodeID in used)
    && (forall j, k | 0 <= j < k < |legs| && Settled(legs, i, j) && Settled(legs, i, k) ::
          out[j].nodeID != out[k].nodeID)
  }

  /** Only ids and addresses change, and not those of legs that clone metadata. */
  ghost predicate Renumbers(legs: seq<Replica>, out: seq<Replica>) {
    && |out| == |legs|
    && forall j | 0 <= j < |legs| ::
         && out[j] == legs[j].(nodeID := out[j].nodeID, address := out[j].address)
         && (ClonesMetadata(legs[j]) ==> out[j] == legs[j])
  }

  method UsedIds(legs: seq<Replica>) returns (used: set<int>)
    ensures forall j | 0 <= j < |legs| && ClonesMetadata(legs[j]) :: legs[j].nodeID in used
  {
    used := {};
    for i := 0 to |legs|
      invariant forall j | 0 <= j < i && ClonesMetadata(legs[j]) :: legs[j].nodeID in used
    {
      if ClonesMetadata(legs[i]) {
        used := used + {legs[i].nodeID};
      }
    }
  }

  lemma NumberOne(legs: seq<Replica>, out: seq<Replica>, i: nat, used: set<int>, r: Replica)
    requires Numbered(legs, out, i, used) && i < |legs| && r.nodeID !in used && !ClonesMetadata(legs[i])
    ensures Numbered(legs, out[i := r], i + 1, used + {r.nodeID})
  {
    var next := out[i := r];
    forall j | 0 <= j < |legs| && j != i && Settled(legs, i + 1, j) ensures Settled(legs, i, j) && next[j] == out[j] {
    }
  }

  lemma NumberNone(legs: seq<Replica>, out: seq<Replica>, i: nat, used: set<int>)
    requires Numbered(legs, out, i, used) && i < |legs| && ClonesMetadata(legs[i])
    ensures Numbered(legs, out, i + 1, used)
  {
    forall j | 0 <= j < |legs| && Settled(legs, i + 1, j) ensures Settled(legs, i, j) {
    }
  }

  ghost predicate Unaddressed(legs: seq<Replica>, addresses: map<Node, string>) {
    exists r <- legs :: r.address == "" && r.node !in addresses
  }

  /** Numbers and addresses every leg around those that keep their ids. */
  method NumberLegs(legs: seq<Replica>, addresses: map<Node, string>) returns (out: Option<seq<Replica>>)
    requires CloneIdsDistinct(legs) && forall n <- addresses :: addresses[n] != ""
    ensures out.Some? ==>
      Renumbers(legs, out.value) && DistinctBy(out.value, IdOf) && forall r <- out.value :: r.address != ""
    ensures out.None? <==> Unaddressed(legs, addresses)
  {
    var used := UsedIds(legs);
    var next := legs;
    for i := 0 to |legs|
      invariant Numbered(legs, next, i, used) && Renumbers(legs, next)
      invariant forall j | i <= j < |legs| :: next[j] == legs[j]
      invariant forall j | 0 <= j < i :: next[j].address != "" && (legs[j].address != "" || legs[j].node in addresses)
    {
      if ClonesMetadata(legs[i]) {
        NumberNone(legs, next, i, used);
      } else {
        var id := FreeId(used);
        var r := legs[i].(nodeID := id);
        if r.address == "" {
          if r.node !in addresses {
            return None;
          }
          r := r.(address := addresses[r.node]);
        }
        NumberOne(legs, next, i, used, r);
        next, used := next[i := r], used + {id};
      }
    }
    assert forall j, k | 0 <= j < k < |legs| ::
        Settled(legs, |legs|, j) && Settled(legs, |legs|, k) && IdOf(next[j]) != IdOf(next[k]);
    out := Some(next);
  }

  // ----- the tie-breaker -----

  ghost function Nodes(legs: seq<Replica>): set<Node> {
    set r | r in legs :: r.node
  }

  /** Where a tie-breaker for legs on these nodes would go, if it is wanted. */
  ghost function TieBreakerFor(m: Topology, nodes: set<Node>, target: nat, wanted: bool): Option<Node> {
    if wanted && target == 2 then Spare(m, nodes, ZonesOf(m, nodes), m.Keys) else None
  }

  function IdsOf(legs: seq<Replica>): set<int> {
    set r | r in legs :: r.nodeID
  }

  ghost predicate LeastFree(legs: seq<Replica>, id: int) {
    id >= 0 && id !in IdsOf(legs) && forall k: int | 0 <= k < id :: k in IdsOf(legs)
  }

  /** The legs, and after them a tie-breaker exactly when one is to be had. */
  ghost predicate WithTie(legs: seq<Replica>, tb: Option<Node>, addresses: map<Node, string>, out: seq<Replica>) {
    if tb.None? then out == legs
    else
      && tb.value in addresses && |out| == |legs| + 1 && out[..|legs|] == legs
      && var leg := out[|legs|];
         leg.diskless && leg.node == tb.value && leg.address == addresses[tb.value] && LeastFree(legs, leg.nodeID)
  }

  /** Appends a tie-breaker on the spare node, with the smallest unused id, to a two-leg
      freeze volume; leaves any other alone. */
  method WithTieBreaker(m: Topology, legs: seq<Replica>, target: nat, wanted: bool, addresses: map<Node, string>)
    returns (out: Option<seq<Replica>>)
    requires DistinctBy(legs, NodeOf) && DistinctBy(legs, IdOf)
    requires forall n <- addresses :: addresses[n] != ""
    ensures var tb := TieBreakerFor(m, Nodes(legs), target, wanted);
      && (out.None? <==> tb.Some? && tb.value !in addresses)
      && (out.Some? ==> WithTie(legs, tb, addresses, out.value))
    ensures out.Some? ==> DistinctBy(out.value, NodeOf) && DistinctBy(out.value, IdOf)
  {
    if !wanted || target != 2 {
      return Some(legs);
    }
    var spec := Spec(1, legs, Freeze, None, None, false, [], None);
    var tb := PickTieBreaker(m, spec);
    assert ReplicaNodes(spec) + ClientNodes(spec) == Nodes(legs);
    assert tb == TieBreakerFor(m, Nodes(legs), target, wanted);
    if tb.None? {
      return Some(legs);
    }
    if tb.value !in addresses {
      return None;
    }
    SpareHoldsNoLeg(m, spec, 0, {});
    var id := FreeId(IdsOf(legs));
    var leg := Replica(tb.value, true, "", "", id, addresses[tb.value], false);
    DistinctAppend(legs, leg, NodeOf);
    DistinctAppend(legs, leg, IdOf);
    out := Some(legs + [leg]);
  }

  // ----- the whole reshape -----

  function Joining(joiners: seq<Replica>): seq<Replica> {
    seq(|joiners|, i requires 0 <= i < |joiners| => joiners[i].(fullSync := true))
  }

  method MarkFullSync(legs: seq<Replica>) returns (out: seq<Replica>)
    ensures out == Joining(legs)
  {
    out := [];
    for i := 0 to |legs|
      invariant |out| == i && forall j | 0 <= j < i :: out[j] == legs[j].(fullSync := true)
    {
      out := out + [legs[i].(fullSync := true)];
    }
  }

  /** Legs placement found for a grow: as many as are missing, on other nodes. */
  ghost predicate FillsGap(diskful: seq<Replica>, target: nat, joiners: seq<Replica>) {
    && |joiners| == target - |diskful| && DistinctBy(joiners, NodeOf)
    && (forall r <- joiners :: Diskful(r))
    && forall r <- joiners, o <- diskful :: r.node != o.node
  }

  /** Placement, told to leave out the nodes that hold a leg, fills the gap. */
  lemma PlacedFillsGap(v: Placement.PoolView, diskful: seq<Replica>, target: nat, pin: Option<Node>, size: nat,
                       nodes: seq<Node>, joiners: seq<Replica>)
    requires |diskful| < target
    requires Placement.WellChosen(v, set r | r in diskful :: r.node, pin, target - |diskful|, size, nodes)
    requires Placement.LegsOn(v, target - |diskful|, nodes, joiners)
    ensures FillsGap(diskful, target, joiners) && forall r <- joiners :: r.node in v.topology
  {
    var excluded := set r | r in diskful :: r.node;
    forall r | r in joiners ensures Diskful(r) && r.node in v.topology && forall o <- diskful :: r.node != o.node {
      var j :| 0 <= j < |joiners| && joiners[j] == r;
      assert nodes[j] in Placement.Candidates(v, excluded);
      forall o | o in diskful ensures r.node != o.node {
        assert o.node in excluded;
      }
    }
    forall i, j | 0 <= i < j < |joiners| ensures NodeOf(joiners[i]) != NodeOf(joiners[j]) {
      assert nodes[i] != nodes[j];
    }
  }

  /** A leg on a new node, to be synced in full. */
  ghost predicate Joiner(diskful: seq<Replica>, r: Replica) {
    !Complete(r) && forall o <- diskful :: o.node != r.node
  }

  /** The diskful legs of the reshaped volume, before ids. */
  ghost predicate Sized(diskful: seq<Replica>, target: nat, pin: Option<Node>, legs: seq<Replica>) {
    && |legs| == target > 0 && DistinctBy(legs, NodeOf) && Complete(legs[0]) && (forall r <- legs :: Diskful(r))
    && (forall r <- legs :: r in diskful || Joiner(diskful, r))
    && (pin.Some? && |diskful| > target ==> OnLeg(legs, pin.value))
    && (|diskful| <= target ==> diskful <= legs)
  }

  /** The diskful legs of the outcome: those kept, or all of them and the joiners. */
  function Chosen(diskful: seq<Replica>, target: nat, pin: Option<Node>, joiners: seq<Replica>): seq<Replica>
    requires diskful != []
  {
    if |diskful| > target then Kept(diskful, target, pin)
    else if |diskful| < target then diskful + Joining(joiners)
    else diskful
  }

  function Found(joiners: Option<seq<Replica>>): seq<Replica> {
    if joiners.Some? then joiners.value else []
  }

  method Resize(diskful: seq<Replica>, target: nat, pin: Option<Node>, joiners: Option<seq<Replica>>)
    returns (legs: Option<seq<Replica>>)
    requires GoodSource(diskful) && target >= 1 && (pin.Some? ==> OnLeg(diskful, pin.value))
    requires joiners.Some? && |diskful| < target ==> FillsGap(diskful, target, joiners.value)
    ensures legs.None? <==> |diskful| < target && joiners.None?
    ensures legs.Some? ==>
      && legs.value == Chosen(diskful, target, pin, Found(joiners))
      && |legs.value| > 0 && Sized(diskful, target, pin, legs.value)
  {
    if |diskful| > target {
      var kept := KeepRestoreLegs(diskful, target, pin);
      KeptIsSized(diskful, target, pin, kept);
      legs := Some(kept);
    } else if |diskful| < target {
      if joiners.None? {
        return None;
      }
      var extra := MarkFullSync(joiners.value);
      GrownIsSized(diskful, target, pin, joiners.value, extra);
      legs := Some(diskful + extra);
    } else {
      legs := Some(diskful);
    }
  }

  lemma KeptIsSized(diskful: seq<Replica>, target: nat, pin: Option<Node>, kept: seq<Replica>)
    requires GoodSource(diskful) && 1 <= target < |diskful| && WellKept(diskful, target, pin, kept)
    requires pin.Some? ==> OnLeg(diskful, pin.value)
    ensures Sized(diskful, target, pin, kept)
  {
    if pin.Some? {
      var r :| r in kept && r.node == pin.value;
      var o :| o in diskful && o.node == pin.value && Complete(o);
      SameKeySame(diskful, NodeOf, r, o);
    }
  }

  lemma GrownIsSized(diskful: seq<Replica>, target: nat, pin: Option<Node>, joiners: seq<Replica>, extra: seq<Replica>)
    requires GoodSource(diskful) && |diskful| < target && FillsGap(diskful, target, joiners)
    requires |extra| == |joiners| && forall j | 0 <= j < |joiners| :: extra[j] == joiners[j].(fullSync := true)
    ensures Sized(diskful, target, pin, diskful + extra)
  {
    forall r | r in extra ensures Diskful(r) && !Complete(r) && forall o <- diskful :: NodeOf(o) != NodeOf(r) {
      var j :| 0 <= j < |extra| && extra[j] == r;
      assert joiners[j] in joiners;
    }
    forall i, j | 0 <= i < j < |extra| ensures NodeOf(extra[i]) != NodeOf(extra[j]) {
      assert NodeOf(joiners[i]) != NodeOf(joiners[j]);
    }
    DistinctConcat(diskful, extra, NodeOf);
  }

  lemma {:induction false} CloneIdsIn(diskful: seq<Replica>, legs: seq<Replica>)
    requires CloneIdsDistinct(diskful) && DistinctBy(legs, NodeOf)
    requires forall r <- legs :: r in diskful || Joiner(diskful, r)
    ensures CloneIdsDistinct(legs)
  {
    forall i, j | 0 <= i < j < |legs| && ClonesMetadata(legs[i]) && ClonesMetadata(legs[j])
      ensures legs[i].nodeID != legs[j].nodeID
    {
      assert legs[i] in diskful && legs[j] in diskful;
      var a :| 0 <= a < |diskful| && diskful[a] == legs[i];
      var b :| 0 <= b < |diskful| && diskful[b] == legs[j];
      assert NodeOf(legs[i]) != NodeOf(legs[j]);
      assert a != b;
    }
  }

  /** A leg counts as a copy of the snapshot exactly where a source leg is one. */
  ghost predicate TrueCopies(diskful: seq<Replica>, out: seq<Replica>) {
    forall r <- out :: Diskful(r) ==> (Complete(r) <==> OnLeg(diskful, r.node))
  }

  ghost predicate CloneIdsStay(diskful: seq<Replica>, out: seq<Replica>) {
    forall r <- out, o <- diskful :: r.node == o.node && ClonesMetadata(o) && Diskful(r) ==> r.nodeID == o.nodeID
  }

  /** What every reshape promises of a replicated target: the chosen legs, renumbered around
      those that clone metadata, and the tie-breaker. */
  ghost predicate Reshaped(
    diskful: seq<Replica>, target: nat, pin: Option<Node>, legs: seq<Replica>, out: seq<Replica>)
  {
    && 0 < target == |legs| <= |out|
    && Keep(out, Diskful) == out[..target] && Renumbers(legs, out[..target])
    && DistinctBy(out, NodeOf) && DistinctBy(out, IdOf)
    && Diskful(out[0]) && Complete(out[0])
    && TrueCopies(diskful, out) && CloneIdsStay(diskful, out)
    && (pin.Some? && |diskful| > target ==> OnLeg(out[..target], pin.value))
  }

  /** An unreplicated outcome: one leg that holds the snapshot, shorn of id and address. */
  ghost predicate Unreplicated(diskful: seq<Replica>, legs: seq<Replica>, out: seq<Replica>) {
    && |legs| == |out| == 1 && Diskful(out[0]) && OnLeg(diskful, out[0].node)
    && out[0] == legs[0].(nodeID := 0, address := "", fullSync := false)
  }

  /** No place, no address for a leg, or none for the tie-breaker. */
  ghost predicate Stuck(m: Topology, diskful: seq<Replica>, target: nat, pin: Option<Node>,
                        joiners: Option<seq<Replica>>, wanted: bool, addresses: map<Node, string>)
    requires diskful != []
  {
    var legs := Chosen(diskful, target, pin, Found(joiners));
    var tb := TieBreakerFor(m, Nodes(legs), target, wanted);
    || (|diskful| < target && joiners.None?)
    || (target > 1 && (Unaddressed(legs, addresses) || (tb.Some? && tb.value !in addresses)))
  }

  /** Ends with exactly `target` diskful legs, or fails for want of a place or an address. */
  method ReshapeRestore(m: Topology, base: seq<Replica>, target: nat, pin: Option<Node>, joiners: Option<seq<Replica>>,
                        wanted: bool, addresses: map<Node, string>)
    returns (out: Option<seq<Replica>>)
    requires var diskful := Keep(base, Diskful);
      && GoodSource(diskful) && CloneIdsDistinct(diskful) && (pin.Some? ==> OnLeg(diskful, pin.value))
      && (joiners.Some? && |diskful| < target ==> FillsGap(diskful, target, joiners.value))
    requires target >= 1 && forall n <- addresses :: addresses[n] != ""
    ensures out.None? <==> Stuck(m, Keep(base, Diskful), target, pin, joiners, wanted, addresses)
    ensures out.Some? && target > 1 ==>
      var legs := Chosen(Keep(base, Diskful), target, pin, Found(joiners));
      && Reshaped(Keep(base, Diskful), target, pin, legs, out.value)
      && WithTie(out.value[..target], TieBreakerFor(m, Nodes(legs), target, wanted), addresses, out.value)
      && (forall r <- out.value :: r.address != "")
    ensures out.Some? && target == 1 ==>
      var legs := Chosen(Keep(base, Diskful), target, pin, Found(joiners));
      && Unreplicated(Keep(base, Diskful), legs, out.value)
      && (pin.Some? && |Keep(base, Diskful)| > 1 ==> out.value[0].node == pin.value)
  {
    var diskful := Filter(base, Diskful);
    var chosen := Resize(diskful, target, pin, joiners);
    if chosen.None? {
      return None;
    }
    var legs := chosen.value;
    if target == 1 {
      Sheds(diskful, pin, legs);
      return Some([legs[0].(nodeID := 0, address := "", fullSync := false)]);
    }
    out := Finish(m, diskful, legs, target, pin, wanted, addresses);
  }

  lemma Sheds(diskful: seq<Replica>, pin: Option<Node>, legs: seq<Replica>)
    requires Sized(diskful, 1, pin, legs)
    ensures Unreplicated(diskful, legs, [legs[0].(nodeID := 0, address := "", fullSync := false)])
    ensures pin.Some? && |diskful| > 1 ==> legs[0].node == pin.value
  {
    assert legs[0] in legs;
  }

  /** Ids, addresses and the tie-breaker for the chosen legs. */
  method Finish(m: Topology, ghost diskful: seq<Replica>, legs: seq<Replica>, target: nat, ghost pin: Option<Node>,
                wanted: bool, addresses: map<Node, string>)
    returns (out: Option<seq<Replica>>)
    requires GoodSource(diskful) && CloneIdsDistinct(diskful) && target > 1
    requires |legs| > 0 && Sized(diskful, target, pin, legs) && forall n <- addresses :: addresses[n] != ""
    ensures var tb := TieBreakerFor(m, Nodes(legs), target, wanted);
      && (out.None? <==> Unaddressed(legs, addresses) || (tb.Some? && tb.value !in addresses))
      && (out.Some? ==>
           && Reshaped(diskful, target, pin, legs, out.value)
           && WithTie(out.value[..target], tb, addresses, out.value)
           && (forall r <- out.value :: r.address != ""))
  {
    CloneIdsIn(diskful, legs);
    var numbered := NumberLegs(legs, addresses);
    if numbered.None? {
      return None;
    }
    NumberedNodes(legs, numbered.value);
    out := WithTieBreaker(m, numbered.value, target, wanted, addresses);
    if out.Some? {
      AllThere(diskful, target, pin, legs, numbered.value, out.value);
      OutIs(numbered.value, out.value);
    }
  }

  lemma NumberedNodes(legs: seq<Replica>, out: seq<Replica>)
    requires Renumbers(legs, out) && DistinctBy(legs, NodeOf)
    ensures DistinctBy(out, NodeOf) && Nodes(out) == Nodes(legs)
  {
    forall i, j | 0 <= i < j < |out| ensures NodeOf(out[i]) != NodeOf(out[j]) {
      assert NodeOf(legs[i]) != NodeOf(legs[j]);
    }
    forall n ensures n in Nodes(out) <==> n in Nodes(legs) {
      if n in Nodes(out) {
        var j :| 0 <= j < |out| && out[j].node == n;
        assert legs[j] in legs;
      }
      if n in Nodes(legs) {
        var j :| 0 <= j < |legs| && legs[j].node == n;
        assert out[j] in out;
      }
    }
  }

  lemma AllThere(
    diskful: seq<Replica>, target: nat, pin: Option<Node>, legs: seq<Replica>, numbered: seq<Replica>,
    out: seq<Replica>)
    requires GoodSource(diskful) && target > 1 && Sized(diskful, target, pin, legs) && Renumbers(legs, numbered)
    requires numbered <= out && |out| <= target + 1 && DistinctBy(out, NodeOf) && DistinctBy(out, IdOf)
    requires |out| > target ==> out[target].diskless
    ensures out[..target] == numbered && Reshaped(diskful, target, pin, legs, out)
  {
    CopiesStay(diskful, legs, numbered);
    OneMoreDiskless(diskful, numbered, out);
    FirstStays(legs, numbered, out);
    if pin.Some? && |diskful| > target {
      PinStays(legs, numbered, pin.value);
    }
    IdsStay(diskful, legs, numbered, out);
  }

  lemma FirstStays(legs: seq<Replica>, numbered: seq<Replica>, out: seq<Replica>)
    requires Renumbers(legs, numbered) && numbered <= out && legs != [] && Complete(legs[0]) && Diskful(legs[0])
    ensures Complete(out[0]) && Diskful(out[0])
  {
    assert out[0] == numbered[0];
  }

  lemma CopiesStay(diskful: seq<Replica>, legs: seq<Replica>, numbered: seq<Replica>)
    requires DistinctBy(diskful, NodeOf) && Renumbers(legs, numbered)
    requires forall r <- legs :: Diskful(r) && (r in diskful || Joiner(diskful, r))
    ensures TrueCopies(diskful, numbered) && forall r <- numbered :: Diskful(r)
  {
    forall r | r in numbered ensures Diskful(r) && (Complete(r) <==> OnLeg(diskful, r.node)) {
      var j :| 0 <= j < |numbered| && numbered[j] == r;
      assert legs[j] in legs;
      CopyOf(diskful, legs[j]);
    }
  }

  lemma CopyOf(diskful: seq<Replica>, leg: Replica)
    requires DistinctBy(diskful, NodeOf) && (leg in diskful || Joiner(diskful, leg))
    ensures Complete(leg) <==> OnLeg(diskful, leg.node)
  {
    if OnLeg(diskful, leg.node) {
      var o :| o in diskful && o.node == leg.node && Complete(o);
      if leg in diskful {
        SameKeySame(diskful, NodeOf, o, leg);
      }
    }
  }

  lemma OneMoreDiskless(diskful: seq<Replica>, numbered: seq<Replica>, out: seq<Replica>)
    requires TrueCopies(diskful, numbered) && (forall r <- numbered :: Diskful(r))
    requires numbered <= out && |out| <= |numbered| + 1 && (|out| > |numbered| ==> out[|numbered|].diskless)
    ensures Keep(out, Diskful) == numbered == out[..|numbered|] && (forall r <- out :: r in numbered || r.diskless)
    ensures TrueCopies(diskful, out)
  {
    KeepAll(numbered, Diskful);
    OutIs(numbered, out);
    CopiesAmong(diskful, numbered, out);
  }

  lemma CopiesAmong(diskful: seq<Replica>, some: seq<Replica>, out: seq<Replica>)
    requires TrueCopies(diskful, some) && forall r <- out :: r in some || r.diskless
    ensures TrueCopies(diskful, out)
  {
  }

  lemma OutIs(numbered: seq<Replica>, out: seq<Replica>)
    requires numbered <= out && |out| <= |numbered| + 1 && Keep(numbered, Diskful) == numbered
    requires |out| > |numbered| ==> out[|numbered|].diskless
    ensures Keep(out, Diskful) == numbered && forall r <- out :: r in numbered || r.diskless
  {
    if |out| > |numbered| {
      var tb := out[|numbered|];
      assert out == numbered + [tb];
      KeepLast(numbered, tb, Diskful);
    } else {
      assert out == numbered;
    }
  }

  lemma PinStays(legs: seq<Replica>, numbered: seq<Replica>, n: Node)
    requires Renumbers(legs, numbered) && OnLeg(legs, n)
    ensures OnLeg(numbered, n)
  {
    var j :| 0 <= j < |legs| && legs[j].node == n && Complete(legs[j]);
    assert numbered[j] in numbered;
  }

  /** A leg that clones metadata keeps the id that metadata is keyed by. */
  lemma IdsStay(diskful: seq<Replica>, legs: seq<Replica>, numbered: seq<Replica>, out: seq<Replica>)
    requires DistinctBy(diskful, NodeOf) && Renumbers(legs, numbered)
    requires forall r <- out :: r in numbered || r.diskless
    requires forall r <- legs :: r in diskful || Joiner(diskful, r)
    ensures CloneIdsStay(diskful, out)
  {
    forall r, o | r in out && o in diskful && r.node == o.node && ClonesMetadata(o) && Diskful(r)
      ensures r.nodeID == o.nodeID
    {
      var j :| 0 <= j < |numbered| && numbered[j] == r;
      assert legs[j] in legs;
      SameKeySame(diskful, NodeOf, legs[j], o);
    }
  }

  // ----- what a restore starts from -----

  /** A source leg as the clone has it: its id stays, its address is resolved anew, and it
      syncs in full unless its node cut the snapshot. */
  function Cloned(r: Replica, done: set<Node>, addresses: map<Node, string>): Replica {
    r.(fullSync := !r.diskless && r.node !in done,
       address := if r.address != "" && r.node in addresses then addresses[r.node] else r.address)
  }

  ghost predicate ClonedFrom(source: seq<Replica>, done: set<Node>, addresses: map<Node, string>, out: seq<Replica>) {
    |out| == |source| && forall j | 0 <= j < |source| :: out[j] == Cloned(source[j], done, addresses)
  }

  /** An address is gone, or the seed holds no copy. */
  ghost predicate Unrestorable(source: seq<Replica>, done: set<Node>, addresses: map<Node, string>)
    requires Keep(source, Diskful) != []
  {
    || Keep(source, Diskful)[0].node !in done
    || exists r <- source :: r.address != "" && r.node !in addresses
  }

  method RestoreReplicas(source: seq<Replica>, done: set<Node>, addresses: map<Node, string>)
    returns (out: Option<seq<Replica>>)
    requires DistinctBy(source, NodeOf) && Keep(source, Diskful) != []
    ensures out.None? <==> Unrestorable(source, done, addresses)
    ensures out.Some? ==> ClonedFrom(source, done, addresses, out.value) && GoodSource(Keep(out.value, Diskful))
  {
    var reps := source;
    for i := 0 to |source|
      invariant |reps| == |source|
      invariant forall j | i <= j < |source| :: reps[j] == source[j]
      invariant forall j | 0 <= j < i :: reps[j] == Cloned(source[j], done, addresses)
      invariant forall j | 0 <= j < i :: source[j].address == "" || source[j].node in addresses
    {
      var r := reps[i].(fullSync := !reps[i].diskless && reps[i].node !in done);
      if r.address != "" {
        if r.node !in addresses {
          return None;
        }
        r := r.(address := addresses[r.node]);
      }
      reps := reps[i := r];
    }
    CloneKeepsShape(source, done, addresses, reps);
    var diskful := Filter(reps, Diskful);
    assert Keep(source, Diskful)[0] in Keep(source, Diskful) && diskful[0] in diskful;
    if diskful[0].fullSync {
      return None;
    }
    out := Some(reps);
  }

  lemma NodesSame(a: seq<Replica>, b: seq<Replica>)
    requires |a| == |b| && DistinctBy(a, NodeOf) && forall j | 0 <= j < |a| :: a[j].node == b[j].node
    ensures DistinctBy(b, NodeOf)
  {
    forall i, j | 0 <= i < j < |b| ensures NodeOf(b[i]) != NodeOf(b[j]) {
      assert NodeOf(a[i]) != NodeOf(a[j]);
    }
  }

  function CloneOf(done: set<Node>, addresses: map<Node, string>): (Replica, Replica) -> bool {
    (o: Replica, r: Replica) => r == Cloned(o, done, addresses)
  }

  lemma CloneKeepsShape(source: seq<Replica>, done: set<Node>, addresses: map<Node, string>, out: seq<Replica>)
    requires DistinctBy(source, NodeOf) && ClonedFrom(source, done, addresses, out)
    ensures DistinctBy(out, NodeOf) && DistinctBy(Keep(out, Diskful), NodeOf)
    ensures ClonedFrom(Keep(source, Diskful), done, addresses, Keep(out, Diskful))
  {
    NodesSame(source, out);
    KeepDistinct(out, Diskful, NodeOf);
    KeepPairs(source, out, Diskful, CloneOf(done, addresses));
  }

  // ----- a restore from request to layout -----

  ghost predicate ValidSource(source: seq<Replica>) {
    && DistinctBy(source, NodeOf) && Keep(source, Diskful) != []
    && forall i, j | 0 <= i < j < |source| && Completed(source[i]) && Completed(source[j]) ::
         source[i].nodeID != source[j].nodeID
  }

  /** The nodes that hold a copy of the snapshot. */
  ghost function Copies(source: seq<Replica>, done: set<Node>): set<Node> {
    set r | r in source && Diskful(r) && r.node in done :: r.node
  }

  /** The first node a topology request names. */
  function Selected(wishes: seq<Option<Node>>): (n: Option<Node>)
    ensures n.None? <==> forall k | 0 <= k < |wishes| :: wishes[k].None?
    ensures forall k | 0 <= k < |wishes| && wishes[k].Some? && (forall j | 0 <= j < k :: wishes[j].None?) ::
              n == wishes[k]
  {
    if wishes == [] then None
    else if wishes[0].Some? then wishes[0]
    else
      var n := Selected(wishes[1..]);
      assert forall k | 1 <= k < |wishes| :: wishes[k] == wishes[1..][k - 1];
      n
  }

  function Requisite(reqs: Placement.Request): set<Node> {
    set w | w in reqs.requisite && w.Some? :: w.value
  }

  datatype Restored = Restored(replicas: seq<Replica>) | NotRestorable | NoCompleteLeg | NoRoom | NoAddress

  /** A shrink that must stay where the request says, and finds no copy there. */
  ghost predicate ShrinkRefused(
    source: seq<Replica>, done: set<Node>, reqs: Placement.Request, target: nat, remote: bool)
  {
    var selected := Selected(Placement.Wishes(reqs));
    && |Keep(source, Diskful)| > target && !remote && selected.Some?
    && selected.value !in Copies(source, done)
    && Requisite(reqs) != {} && Requisite(reqs) !! Copies(source, done)
  }

  ghost predicate GrowRefused(
    v: Placement.PoolView, source: seq<Replica>, reqs: Placement.Request, target: nat, size: nat, remote: bool)
  {
    var diskful := Keep(source, Diskful);
    && |diskful| < target
    && !Placement.Admits(v, Nodes(diskful), reqs, remote, target - |diskful|, size)
  }

  /** What a restore promises: as many legs as asked for, on distinct nodes, the first one a
      copy, and a leg skips its full sync exactly where the snapshot was cut; a leg that
      brings DRBD metadata with it keeps the id it is keyed by. */
  ghost predicate SafeRestore(source: seq<Replica>, done: set<Node>, target: nat, out: seq<Replica>) {
    && |Keep(out, Diskful)| == target > 0 && DistinctBy(out, NodeOf)
    && Complete(Keep(out, Diskful)[0])
    && (forall r <- out :: Diskful(r) ==> (Complete(r) <==> r.node in Copies(source, done)))
    && (target > 1 ==> forall r <- out, o <- source ::
          Diskful(r) && Diskful(o) && r.node == o.node && Completed(o) && o.node in done ==> r.nodeID == o.nodeID)
  }

  lemma {:induction false} KeepCloneIds(s: seq<Replica>)
    requires CloneIdsDistinct(s)
    ensures CloneIdsDistinct(Keep(s, Diskful))
  {
    if s != [] {
      var u, x := s[..|s| - 1], s[|s| - 1];
      KeepCloneIds(u);
      forall r <- Keep(u, Diskful) ensures ClonesMetadata(r) && ClonesMetadata(x) ==> r.nodeID != x.nodeID {
        var k :| 0 <= k < |u| && u[k] == r;
        assert s[k] == r;
      }
    }
  }

  lemma ClonedIds(source: seq<Replica>, done: set<Node>, addresses: map<Node, string>, base: seq<Replica>)
    requires ValidSource(source) && ClonedFrom(source, done, addresses, base)
    ensures CloneIdsDistinct(Keep(base, Diskful))
  {
    forall i, j | 0 <= i < j < |base| && ClonesMetadata(base[i]) && ClonesMetadata(base[j])
      ensures base[i].nodeID != base[j].nodeID
    {
      assert Completed(source[i]) && Completed(source[j]);
    }
    KeepCloneIds(base);
  }

  /** The complete legs of the clone stand where the snapshot was cut. */
  lemma ClonedCopies(source: seq<Replica>, done: set<Node>, addresses: map<Node, string>, base: seq<Replica>)
    requires ClonedFrom(source, done, addresses, base)
    ensures forall n :: OnLeg(Keep(base, Diskful), n) <==> n in Copies(source, done)
  {
    forall n ensures OnLeg(Keep(base, Diskful), n) <==> n in Copies(source, done) {
      if OnLeg(Keep(base, Diskful), n) {
        var r :| r in Keep(base, Diskful) && r.node == n && Complete(r);
        var j :| 0 <= j < |base| && base[j] == r;
        assert source[j] in source;
      }
      if n in Copies(source, done) {
        var j :| 0 <= j < |source| && Diskful(source[j]) && source[j].node == n && n in done;
        assert base[j] in base && base[j] in Keep(base, Diskful);
      }
    }
  }

  lemma SameLegsSafe(source: seq<Replica>, done: set<Node>, addresses: map<Node, string>, base: seq<Replica>)
    requires ValidSource(source) && ClonedFrom(source, done, addresses, base) && GoodSource(Keep(base, Diskful))
    requires DistinctBy(base, NodeOf)
    ensures SafeRestore(source, done, |Keep(base, Diskful)|, base)
  {
    ClonedCopies(source, done, addresses, base);
    forall r | r in base && Diskful(r) ensures Complete(r) <==> r.node in Copies(source, done) {
      LegsAgree(base, r);
    }
    forall r, o | r in base && o in source && r.node == o.node ensures r.nodeID == o.nodeID {
      ClonedId(source, done, addresses, base, r, o);
    }
  }

  lemma LegsAgree(base: seq<Replica>, r: Replica)
    requires DistinctBy(base, NodeOf) && r in base && Diskful(r)
    ensures OnLeg(Keep(base, Diskful), r.node) <==> Complete(r)
  {
    if OnLeg(Keep(base, Diskful), r.node) {
      var o :| o in Keep(base, Diskful) && o.node == r.node && Complete(o);
      SameKeySame(base, NodeOf, r, o);
    }
  }

  lemma ClonedId(
    source: seq<Replica>, done: set<Node>, addresses: map<Node, string>, base: seq<Replica>, r: Replica, o: Replica)
    requires DistinctBy(source, NodeOf) && ClonedFrom(source, done, addresses, base)
    requires r in base && o in source && r.node == o.node
    ensures r == Cloned(o, done, addresses)
  {
    var j :| 0 <= j < |base| && base[j] == r;
    assert source[j] in source;
    SameKeySame(source, NodeOf, source[j], o);
  }

  /** A source leg that cut the snapshot brings its metadata, and so its id, into the clone. */
  lemma ClonedLeg(source: seq<Replica>, done: set<Node>, addresses: map<Node, string>, base: seq<Replica>, o: Replica)
    returns (c: Replica)
    requires ClonedFrom(source, done, addresses, base) && (forall n <- addresses :: addresses[n] != "")
    requires o in source && Diskful(o) && Completed(o) && o.node in done
    ensures c in Keep(base, Diskful) && c == Cloned(o, done, addresses) && ClonesMetadata(c)
  {
    var j :| 0 <= j < |source| && source[j] == o;
    c := base[j];
    assert c in base;
  }

  lemma ReshapedSafe(source: seq<Replica>, done: set<Node>, addresses: map<Node, string>, base: seq<Replica>,
                     target: nat, pin: Option<Node>, legs: seq<Replica>, out: seq<Replica>)
    requires ValidSource(source) && ClonedFrom(source, done, addresses, base)
    requires forall n <- addresses :: addresses[n] != ""
    requires Reshaped(Keep(base, Diskful), target, pin, legs, out)
    ensures SafeRestore(source, done, target, out)
  {
    ClonedCopies(source, done, addresses, base);
    assert out[..target][0] == out[0];
    forall r, o | && r in out && o in source && Diskful(r) && Diskful(o)
                  && r.node == o.node && Completed(o) && o.node in done
      ensures r.nodeID == o.nodeID
    {
      var c := ClonedLeg(source, done, addresses, base, o);
    }
  }

  lemma ShedSafe(source: seq<Replica>, done: set<Node>, addresses: map<Node, string>, base: seq<Replica>,
                 legs: seq<Replica>, out: seq<Replica>)
    requires ClonedFrom(source, done, addresses, base) && Unreplicated(Keep(base, Diskful), legs, out)
    ensures SafeRestore(source, done, 1, out)
  {
    ClonedCopies(source, done, addresses, base);
    assert out == [] + [out[0]];
    KeepLast([], out[0], Diskful);
    assert Keep(out, Diskful) == [out[0]];
  }

  /** The nodes a reshape settles on: of the source's for a shrink, and all of those with as
      many others of the topology as are missing for a grow. */
  ghost predicate NodesFor(v: Placement.PoolView, source: seq<Replica>, target: nat, nodes: set<Node>) {
    var held := Nodes(Keep(source, Diskful));
    && |nodes| == target
    && (|Keep(source, Diskful)| > target ==> nodes <= held)
    && (|Keep(source, Diskful)| < target ==> held <= nodes && nodes <= held + v.topology.Keys)
  }

  /** A replicated layout on these nodes lacks an address, for a leg or the tie-breaker. */
  ghost predicate LacksAddress(v: Placement.PoolView, nodes: set<Node>, target: nat, wanted: bool) {
    var tb := TieBreakerFor(v.topology, nodes, target, wanted);
    target > 1 && ((exists n <- nodes :: n !in v.addresses) || (tb.Some? && tb.value !in v.addresses))
  }

  /** A shrink leaves a copy where the request wants the volume: on the selected node if that
      holds one, else within the hard bound. */
  ghost predicate TopologyKept(source: seq<Replica>, done: set<Node>, reqs: Placement.Request, out: seq<Replica>) {
    var selected := Selected(Placement.Wishes(reqs));
    selected.Some? ==>
      if selected.value in Copies(source, done) then OnLeg(Keep(out, Diskful), selected.value)
      else Requisite(reqs) != {} ==> exists n <- Requisite(reqs) :: OnLeg(Keep(out, Diskful), n)
  }

  /** The node a shrink keeps a leg on; nothing else is pinned.  Without a pin the seed stays. */
  method PinFor(reqs: Placement.Request, diskful: seq<Replica>, target: nat, remote: bool) returns (pin: Pin)
    requires GoodSource(diskful)
    ensures pin.NoLeg? <==> |diskful| > target && !remote && NoLegWanted(reqs, diskful)
    ensures pin.Pinned? && pin.node.Some? ==> OnLeg(diskful, pin.node.value)
    ensures pin.Pinned? && |diskful| > target && !remote ==> PinWanted(reqs, diskful, pin.node)
  {
    pin := Pinned(None);
    if |diskful| > target && !remote {
      pin := ShrinkPin(Requisite(reqs), diskful, Selected(Placement.Wishes(reqs)));
    }
  }

  /** Neither the selected node nor the hard bound holds a complete leg. */
  ghost predicate NoLegWanted(reqs: Placement.Request, diskful: seq<Replica>) {
    var selected := Selected(Placement.Wishes(reqs));
    && selected.Some? && !OnLeg(diskful, selected.value)
    && Requisite(reqs) != {} && forall n <- Requisite(reqs) :: !OnLeg(diskful, n)
  }

  lemma ShrinkRefusal(
    source: seq<Replica>, done: set<Node>, reqs: Placement.Request, diskful: seq<Replica>, target: nat, remote: bool)
    requires |diskful| == |Keep(source, Diskful)| && forall n :: OnLeg(diskful, n) <==> n in Copies(source, done)
    ensures ShrinkRefused(source, done, reqs, target, remote) <==>
            |diskful| > target && !remote && NoLegWanted(reqs, diskful)
  {
  }

  ghost predicate PinWanted(reqs: Placement.Request, diskful: seq<Replica>, pin: Option<Node>)
    requires diskful != []
  {
    var selected := Selected(Placement.Wishes(reqs));
    selected.Some? ==>
      if OnLeg(diskful, selected.value) then pin == selected
      else Requisite(reqs) != {} ==> (if pin.Some? then pin.value else diskful[0].node) in Requisite(reqs)
  }

  /** The legs a grow adds, on nodes that hold none. */
  method JoinersFor(
    v: Placement.PoolView, reqs: Placement.Request, diskful: seq<Replica>, target: nat, size: nat, remote: bool)
    returns (out: Placement.Outcome, ghost placed: set<Node>)
    requires |diskful| < target
    ensures out.Refused? <==>
      !Placement.Admits(v, Nodes(diskful), reqs, remote, target - |diskful|, size)
    ensures !out.Refused? ==>
      |placed| == target - |diskful| && placed <= v.topology.Keys && placed !! Nodes(diskful)
    ensures out.Unresolved? <==> !out.Refused? && target - |diskful| > 1 && exists n <- placed :: n !in v.addresses
    ensures out.Legs? ==>
      && FillsGap(diskful, target, out.replicas) && Nodes(out.replicas) == placed
      && AddressedOrBare(out.replicas, v.addresses)
  {
    var excluded := set r | r in diskful :: r.node;
    ghost var nodes;
    out, nodes := Placement.Place(v, reqs, target - |diskful|, size, remote, excluded);
    placed := Elements(nodes);
    if !out.Refused? {
      ghost var pin := Placement.TopologyPick(v, excluded, Placement.Wishes(reqs)).0;
      ChosenNodes(v, diskful, target, pin, size, nodes);
      if out.Legs? {
        PlacedFillsGap(v, diskful, target, pin, size, nodes, out.replicas);
        PlacedNodes(v, target - |diskful|, nodes, out.replicas);
      }
    }
  }

  /** A leg either has no address yet or stands where one is known. */
  ghost predicate AddressedOrBare(legs: seq<Replica>, addresses: map<Node, string>) {
    forall r <- legs :: r.address == "" || r.node in addresses
  }

  lemma ChosenNodes(
    v: Placement.PoolView, diskful: seq<Replica>, target: nat, pin: Option<Node>, size: nat, nodes: seq<Node>)
    requires |diskful| < target
    requires Placement.WellChosen(v, Nodes(diskful), pin, target - |diskful|, size, nodes)
    ensures |Elements(nodes)| == target - |diskful| && Elements(nodes) <= v.topology.Keys
    ensures Elements(nodes) !! Nodes(diskful)
  {
    ZoneSpread.DistinctSize(nodes);
    assert forall n <- Elements(nodes) :: n in nodes && n in Placement.Candidates(v, Nodes(diskful));
  }

  lemma PlacedNodes(v: Placement.PoolView, count: nat, nodes: seq<Node>, replicas: seq<Replica>)
    requires Placement.LegsOn(v, count, nodes, replicas)
    ensures Nodes(replicas) == Elements(nodes) && AddressedOrBare(replicas, v.addresses)
  {
    forall n ensures n in Nodes(replicas) <==> n in Elements(nodes) {
      if n in Nodes(replicas) {
        var j :| 0 <= j < |replicas| && replicas[j].node == n;
        assert nodes[j] in nodes;
      }
      if n in Elements(nodes) {
        var j :| 0 <= j < |nodes| && nodes[j] == n;
        assert replicas[j] in replicas;
      }
    }
    forall r | r in replicas ensures r.address == "" || r.node in v.addresses {
      var j :| 0 <= j < |replicas| && replicas[j] == r;
    }
  }

  /** The layout of a restored volume: the source's own when the counts agree, else reshaped
      onto `nodes`. */
  method PlaceRestore(
    v: Placement.PoolView, source: seq<Replica>, done: set<Node>, reqs: Placement.Request, target: nat, size: nat,
    remote: bool, wanted: bool)
    returns (out: Restored, ghost nodes: set<Node>)
    requires ValidSource(source) && target >= 1 && forall n <- v.addresses :: v.addresses[n] != ""
    ensures out.NotRestorable? <==> Unrestorable(source, done, v.addresses)
    ensures out.NoCompleteLeg? <==>
      !Unrestorable(source, done, v.addresses) && ShrinkRefused(source, done, reqs, target, remote)
    ensures out.NoRoom? <==>
      !Unrestorable(source, done, v.addresses) && GrowRefused(v, source, reqs, target, size, remote)
    ensures (out.NoAddress? || out.Restored?) && |Keep(source, Diskful)| != target ==>
      NodesFor(v, source, target, nodes) && (out.NoAddress? <==> LacksAddress(v, nodes, target, wanted))
    ensures |Keep(source, Diskful)| == target ==> !out.NoAddress?
    ensures out.Restored? ==> SafeRestore(source, done, target, out.replicas)
    ensures out.Restored? && |Keep(source, Diskful)| != target ==>
      LaidOut(v, nodes, target, wanted, out.replicas) && DistinctBy(out.replicas, IdOf)
    ensures out.Restored? && |Keep(source, Diskful)| > target && !remote ==>
      TopologyKept(source, done, reqs, out.replicas)
  {
    nodes := {};
    var base := RestoreReplicas(source, done, v.addresses);
    if base.None? {
      return NotRestorable, {};
    }
    CloneKeepsShape(source, done, v.addresses, base.value);
    ClonedIds(source, done, v.addresses, base.value);
    SourceShape(source, done, v.addresses, base.value);
    var diskful := Filter(base.value, Diskful);
    if |diskful| == target {
      SameLegsSafe(source, done, v.addresses, base.value);
      return Restored(base.value), {};
    }
    ClonedAddresses(source, done, v.addresses, base.value);
    if |diskful| > target {
      out, nodes := ShrinkFor(v, source, done, base.value, reqs, target, remote, wanted);
    } else {
      out, nodes := GrowFor(v, source, done, base.value, reqs, target, size, remote, wanted);
    }
  }

  /** The diskful legs stand on the nodes, and a tie-breaker follows exactly when it should. */
  ghost predicate LaidOut(v: Placement.PoolView, nodes: set<Node>, target: nat, wanted: bool, out: seq<Replica>) {
    && target <= |out| && Nodes(Keep(out, Diskful)) == nodes
    && WithTie(out[..target], TieBreakerFor(v.topology, nodes, target, wanted), v.addresses, out)
  }

  lemma SourceShape(source: seq<Replica>, done: set<Node>, addresses: map<Node, string>, base: seq<Replica>)
    requires ClonedFrom(Keep(source, Diskful), done, addresses, Keep(base, Diskful))
    ensures |Keep(base, Diskful)| == |Keep(source, Diskful)|
    ensures Nodes(Keep(base, Diskful)) == Nodes(Keep(source, Diskful))
  {
    NodesAlike(Keep(source, Diskful), Keep(base, Diskful));
  }

  lemma NodesAlike(a: seq<Replica>, b: seq<Replica>)
    requires |a| == |b| && forall j | 0 <= j < |a| :: a[j].node == b[j].node
    ensures Nodes(a) == Nodes(b)
  {
    forall n ensures n in Nodes(a) <==> n in Nodes(b) {
      if n in Nodes(a) {
        var j :| 0 <= j < |a| && a[j].node == n;
        assert b[j] in b;
      }
      if n in Nodes(b) {
        var j :| 0 <= j < |b| && b[j].node == n;
        assert a[j] in a;
      }
    }
  }

  lemma ClonedAddresses(source: seq<Replica>, done: set<Node>, addresses: map<Node, string>, base: seq<Replica>)
    requires ClonedFrom(source, done, addresses, base) && AddressedOrBare(source, addresses)
    ensures AddressedOrBare(Keep(base, Diskful), addresses)
  {
    forall r | r in Keep(base, Diskful) ensures r.address == "" || r.node in addresses {
      var j :| 0 <= j < |base| && base[j] == r;
      assert source[j] in source;
    }
  }

  lemma {:induction false} NodesCount(legs: seq<Replica>)
    requires DistinctBy(legs, NodeOf)
    ensures |Nodes(legs)| == |legs|
  {
    if legs == [] {
      assert Nodes(legs) == {};
    } else {
      var u, x := legs[..|legs| - 1], legs[|legs| - 1];
      NodesCount(u);
      assert legs == u + [x];
      forall r | r in u ensures r.node != x.node {
        var k :| 0 <= k < |u| && u[k] == r;
        assert NodeOf(legs[k]) != NodeOf(legs[|u|]);
      }
      assert Nodes(legs) == Nodes(u) + {x.node};
    }
  }

  /** The nodes of the chosen legs. */
  lemma ChosenOn(diskful: seq<Replica>, target: nat, pin: Option<Node>, joiners: seq<Replica>)
    requires GoodSource(diskful) && target != |diskful|
    requires Sized(diskful, target, pin, Chosen(diskful, target, pin, joiners))
    ensures var nodes := Nodes(Chosen(diskful, target, pin, joiners));
      && |nodes| == target
      && (|diskful| > target ==> nodes <= Nodes(diskful))
      && (|diskful| < target ==> nodes == Nodes(diskful) + Nodes(joiners))
  {
    var legs := Chosen(diskful, target, pin, joiners);
    NodesCount(legs);
    if |diskful| > target {
      if target == 1 && pin.Some? {
        assert forall r <- legs :: r in diskful;
      } else {
        PreferenceWhole(diskful, pin);
        assert forall r <- legs :: r in diskful;
      }
    } else {
      NodesAlike(joiners, Joining(joiners));
      assert Nodes(diskful + Joining(joiners)) == Nodes(diskful) + Nodes(Joining(joiners));
    }
  }

  lemma PinAlone(diskful: seq<Replica>, n: Node)
    requires GoodSource(diskful) && OnLeg(diskful, n)
    ensures WellKept(diskful, 1, Some(n), Keep(diskful, OnPin(Some(n))))
  {
    var r :| r in diskful && r.node == n && Complete(r);
    OnceIn(diskful, Some(n));
    var kept := Keep(diskful, OnPin(Some(n)));
    assert r in kept && kept == [r];
  }

  lemma ChosenSized(diskful: seq<Replica>, target: nat, pin: Option<Node>, joiners: seq<Replica>)
    requires GoodSource(diskful) && target >= 1 && (pin.Some? ==> OnLeg(diskful, pin.value))
    requires |diskful| < target ==> FillsGap(diskful, target, joiners)
    ensures Sized(diskful, target, pin, Chosen(diskful, target, pin, joiners))
  {
    if |diskful| > target {
      if target == 1 && pin.Some? {
        PinAlone(diskful, pin.value);
      } else {
        PreferenceKept(diskful, target, pin);
      }
      KeptIsSized(diskful, target, pin, Kept(diskful, target, pin));
    } else if |diskful| < target {
      GrownIsSized(diskful, target, pin, joiners, Joining(joiners));
    }
  }

  /** A shrink keeps the pin's leg, or else the seed's. */
  ghost predicate FirstKept(diskful: seq<Replica>, target: nat, pin: Option<Node>, out: seq<Replica>)
    requires diskful != []
  {
    |diskful| > target ==> OnLeg(Keep(out, Diskful), if pin.Some? then pin.value else diskful[0].node)
  }

  lemma SeedFirst(diskful: seq<Replica>, target: nat, joiners: seq<Replica>)
    requires diskful != [] && 1 <= target < |diskful|
    ensures |Chosen(diskful, target, None, joiners)| > 0 && Chosen(diskful, target, None, joiners)[0] == diskful[0]
  {
  }

  lemma ReshapedOn(
    diskful: seq<Replica>, target: nat, pin: Option<Node>, joiners: seq<Replica>, legs: seq<Replica>, out: seq<Replica>)
    requires diskful != [] && legs == Chosen(diskful, target, pin, joiners)
    requires Reshaped(diskful, target, pin, legs, out)
    ensures Nodes(Keep(out, Diskful)) == Nodes(legs) && FirstKept(diskful, target, pin, out)
  {
    NodesAlike(legs, out[..target]);
    if |diskful| > target && pin.None? {
      SeedFirst(diskful, target, joiners);
      assert out[..target][0] == out[0] && out[0] in out[..target];
    }
  }

  lemma ShedOn(
    diskful: seq<Replica>, pin: Option<Node>, joiners: seq<Replica>, legs: seq<Replica>, out: seq<Replica>)
    requires diskful != [] && legs == Chosen(diskful, 1, pin, joiners) && Unreplicated(diskful, legs, out)
    requires pin.Some? && |diskful| > 1 ==> out[0].node == pin.value
    ensures Keep(out, Diskful) == out && out[..1] == out && Nodes(out) == Nodes(legs) && FirstKept(diskful, 1, pin, out)
  {
    KeepAll(out, Diskful);
    NodesAlike(legs, out);
    assert out[0] in out;
    if |diskful| > 1 && pin.None? {
      SeedFirst(diskful, 1, joiners);
    }
  }

  lemma CopyStays(source: seq<Replica>, done: set<Node>, reqs: Placement.Request, diskful: seq<Replica>, target: nat,
                  pin: Option<Node>, out: seq<Replica>)
    requires diskful != [] && |diskful| > target && FirstKept(diskful, target, pin, out)
    requires PinWanted(reqs, diskful, pin) && forall n :: OnLeg(diskful, n) <==> n in Copies(source, done)
    ensures TopologyKept(source, done, reqs, out)
  {
  }

  /** A leg lacks its address exactly where none is known. */
  lemma BareExactly(legs: seq<Replica>, addresses: map<Node, string>)
    requires AddressedOrBare(legs, addresses)
    ensures Unaddressed(legs, addresses) <==> exists n <- Nodes(legs) :: n !in addresses
  {
    if n :| n in Nodes(legs) && n !in addresses {
      var r :| r in legs && r.node == n;
      assert r.address == "" && r.node !in addresses;
    }
  }

  lemma ChosenAddresses(
    diskful: seq<Replica>, target: nat, pin: Option<Node>, joiners: seq<Replica>, addresses: map<Node, string>)
    requires diskful != [] && AddressedOrBare(diskful, addresses)
    requires |diskful| < target ==> AddressedOrBare(joiners, addresses)
    ensures AddressedOrBare(Chosen(diskful, target, pin, joiners), addresses)
  {
    var legs := Chosen(diskful, target, pin, joiners);
    forall r | r in legs ensures r.address == "" || r.node in addresses {
      if |diskful| < target && r in Joining(joiners) {
        var j :| 0 <= j < |joiners| && Joining(joiners)[j] == r;
        assert joiners[j] in joiners;
      } else if |diskful| > target {
        PreferenceWhole(diskful, pin);
      }
    }
  }

  /** The clone's layout is sound, and no leg of it lacks a known address. */
  ghost predicate Restorable(source: seq<Replica>, done: set<Node>, addresses: map<Node, string>, base: seq<Replica>) {
    var diskful := Keep(base, Diskful);
    && ClonedFrom(source, done, addresses, base)
    && |diskful| == |Keep(source, Diskful)| && Nodes(diskful) == Nodes(Keep(source, Diskful))
    && GoodSource(diskful) && CloneIdsDistinct(diskful) && AddressedOrBare(diskful, addresses)
  }

  method ShrinkFor(v: Placement.PoolView, ghost source: seq<Replica>, ghost done: set<Node>, base: seq<Replica>,
                   reqs: Placement.Request, target: nat, remote: bool, wanted: bool)
    returns (out: Restored, ghost nodes: set<Node>)
    requires ValidSource(source) && target >= 1 && forall n <- v.addresses :: v.addresses[n] != ""
    requires Restorable(source, done, v.addresses, base)
    requires |Keep(base, Diskful)| > target
    ensures out.NoCompleteLeg? || out.NoAddress? || out.Restored?
    ensures out.NoCompleteLeg? <==> ShrinkRefused(source, done, reqs, target, remote)
    ensures out.NoAddress? || out.Restored? ==>
      NodesFor(v, source, target, nodes) && (out.NoAddress? <==> LacksAddress(v, nodes, target, wanted))
    ensures out.Restored? ==>
      && SafeRestore(source, done, target, out.replicas) && DistinctBy(out.replicas, IdOf)
      && LaidOut(v, nodes, target, wanted, out.replicas)
      && (!remote ==> TopologyKept(source, done, reqs, out.replicas))
  {
    var diskful := Filter(base, Diskful);
    nodes := {};
    ClonedCopies(source, done, v.addresses, base);
    ShrinkRefusal(source, done, reqs, diskful, target, remote);
    var pin := PinFor(reqs, diskful, target, remote);
    if pin.NoLeg? {
      return NoCompleteLeg, {};
    }
    out, nodes := FinishRestore(v, source, done, base, target, pin.node, None, wanted);
    if out.Restored? && !remote {
      CopyStays(source, done, reqs, diskful, target, pin.node, out.replicas);
    }
  }

  lemma UnresolvedNodes(v: Placement.PoolView, source: seq<Replica>, target: nat, placed: set<Node>, wanted: bool)
    requires DistinctBy(Keep(source, Diskful), NodeOf) && |Keep(source, Diskful)| < target && target > 1
    requires |placed| == target - |Keep(source, Diskful)| && placed <= v.topology.Keys
    requires placed !! Nodes(Keep(source, Diskful)) && exists n <- placed :: n !in v.addresses
    ensures var nodes := Nodes(Keep(source, Diskful)) + placed;
      NodesFor(v, source, target, nodes) && LacksAddress(v, nodes, target, wanted)
  {
    NodesCount(Keep(source, Diskful));
    var n :| n in placed && n !in v.addresses;
    assert n in Nodes(Keep(source, Diskful)) + placed;
  }

  method GrowFor(v: Placement.PoolView, ghost source: seq<Replica>, ghost done: set<Node>, base: seq<Replica>,
                 reqs: Placement.Request, target: nat, size: nat, remote: bool, wanted: bool)
    returns (out: Restored, ghost nodes: set<Node>)
    requires ValidSource(source) && target >= 1 && forall n <- v.addresses :: v.addresses[n] != ""
    requires Restorable(source, done, v.addresses, base)
    requires |Keep(base, Diskful)| < target
    ensures out.NoRoom? || out.NoAddress? || out.Restored?
    ensures out.NoRoom? <==> GrowRefused(v, source, reqs, target, size, remote)
    ensures out.NoAddress? || out.Restored? ==>
      NodesFor(v, source, target, nodes) && (out.NoAddress? <==> LacksAddress(v, nodes, target, wanted))
    ensures out.Restored? ==>
      && SafeRestore(source, done, target, out.replicas) && DistinctBy(out.replicas, IdOf)
      && LaidOut(v, nodes, target, wanted, out.replicas)
  {
    var diskful := Filter(base, Diskful);
    nodes := {};
    var outcome;
    ghost var placed;
    outcome, placed := JoinersFor(v, reqs, diskful, target, size, remote);
    if outcome.Refused? {
      return NoRoom, {};
    }
    if outcome.Unresolved? {
      KeepDistinct(source, Diskful, NodeOf);
      UnresolvedNodes(v, source, target, placed, wanted);
      return NoAddress, Nodes(diskful) + placed;
    }
    out, nodes := FinishRestore(v, source, done, base, target, None, Some(outcome.replicas), wanted);
  }

  method FinishRestore(v: Placement.PoolView, ghost source: seq<Replica>, ghost done: set<Node>, base: seq<Replica>,
                       target: nat, pin: Option<Node>, joiners: Option<seq<Replica>>, wanted: bool)
    returns (out: Restored, ghost nodes: set<Node>)
    requires ValidSource(source) && target >= 1 && forall n <- v.addresses :: v.addresses[n] != ""
    requires Restorable(source, done, v.addresses, base)
    requires |Keep(base, Diskful)| != target && (pin.Some? ==> OnLeg(Keep(base, Diskful), pin.value))
    requires |Keep(base, Diskful)| < target ==>
      && joiners.Some? && FillsGap(Keep(base, Diskful), target, joiners.value)
      && AddressedOrBare(joiners.value, v.addresses) && Nodes(joiners.value) <= v.topology.Keys
    ensures out.NoAddress? || out.Restored?
    ensures NodesFor(v, source, target, nodes) && (out.NoAddress? <==> LacksAddress(v, nodes, target, wanted))
    ensures out.Restored? ==> SafeRestore(source, done, target, out.replicas) && DistinctBy(out.replicas, IdOf)
    ensures out.Restored? ==> LaidOut(v, nodes, target, wanted, out.replicas)
    ensures out.Restored? ==> FirstKept(Keep(base, Diskful), target, pin, out.replicas)
  {
    ghost var diskful := Keep(base, Diskful);
    nodes := Nodes(Chosen(diskful, target, pin, Found(joiners)));
    SettledNodes(v, source, diskful, target, pin, joiners);
    StuckExactly(v, diskful, target, pin, joiners, wanted);
    var legs := ReshapeRestore(v.topology, base, target, pin, joiners, wanted, v.addresses);
    if legs.None? {
      return NoAddress, nodes;
    }
    if target > 1 {
      RestoredWell(v, source, done, base, target, pin, Found(joiners), wanted, legs.value);
    } else {
      ShedWell(v, source, done, base, pin, Found(joiners), wanted, legs.value);
    }
    out := Restored(legs.value);
  }

  lemma SettledNodes(v: Placement.PoolView, source: seq<Replica>, diskful: seq<Replica>, target: nat, pin: Option<Node>,
                     joiners: Option<seq<Replica>>)
    requires GoodSource(diskful) && target >= 1 && |diskful| != target && (pin.Some? ==> OnLeg(diskful, pin.value))
    requires |diskful| == |Keep(source, Diskful)| && Nodes(diskful) == Nodes(Keep(source, Diskful))
    requires |diskful| < target ==>
      joiners.Some? && FillsGap(diskful, target, joiners.value) && Nodes(joiners.value) <= v.topology.Keys
    ensures NodesFor(v, source, target, Nodes(Chosen(diskful, target, pin, Found(joiners))))
  {
    ChosenSized(diskful, target, pin, Found(joiners));
    ChosenOn(diskful, target, pin, Found(joiners));
  }

  /** With its legs found, a reshape is stuck exactly when an address is lacking. */
  lemma StuckExactly(v: Placement.PoolView, diskful: seq<Replica>, target: nat, pin: Option<Node>,
                     joiners: Option<seq<Replica>>, wanted: bool)
    requires diskful != [] && AddressedOrBare(diskful, v.addresses)
    requires |diskful| < target ==> joiners.Some? && AddressedOrBare(joiners.value, v.addresses)
    ensures Stuck(v.topology, diskful, target, pin, joiners, wanted, v.addresses) <==>
            LacksAddress(v, Nodes(Chosen(diskful, target, pin, Found(joiners))), target, wanted)
  {
    ChosenAddresses(diskful, target, pin, Found(joiners), v.addresses);
    BareExactly(Chosen(diskful, target, pin, Found(joiners)), v.addresses);
  }

  lemma RestoredWell(
    v: Placement.PoolView, source: seq<Replica>, done: set<Node>, base: seq<Replica>, target: nat, pin: Option<Node>,
    joiners: seq<Replica>, wanted: bool, out: seq<Replica>)
    requires ValidSource(source) && ClonedFrom(source, done, v.addresses, base) && Keep(base, Diskful) != []
    requires target > 1 && forall n <- v.addresses :: v.addresses[n] != ""
    requires var legs := Chosen(Keep(base, Diskful), target, pin, joiners);
      && Reshaped(Keep(base, Diskful), target, pin, legs, out)
      && WithTie(out[..target], TieBreakerFor(v.topology, Nodes(legs), target, wanted), v.addresses, out)
    ensures SafeRestore(source, done, target, out) && DistinctBy(out, IdOf)
    ensures LaidOut(v, Nodes(Chosen(Keep(base, Diskful), target, pin, joiners)), target, wanted, out)
    ensures FirstKept(Keep(base, Diskful), target, pin, out)
  {
    var legs := Chosen(Keep(base, Diskful), target, pin, joiners);
    ReshapedSafe(source, done, v.addresses, base, target, pin, legs, out);
    ReshapedOn(Keep(base, Diskful), target, pin, joiners, legs, out);
  }

  lemma ShedWell(
    v: Placement.PoolView, source: seq<Replica>, done: set<Node>, base: seq<Replica>, pin: Option<Node>,
    joiners: seq<Replica>, wanted: bool, out: seq<Replica>)
    requires ClonedFrom(source, done, v.addresses, base) && Keep(base, Diskful) != []
    requires Unreplicated(Keep(base, Diskful), Chosen(Keep(base, Diskful), 1, pin, joiners), out)
    requires pin.Some? && |Keep(base, Diskful)| > 1 ==> out[0].node == pin.value
    ensures SafeRestore(source, done, 1, out) && DistinctBy(out, IdOf)
    ensures LaidOut(v, Nodes(Chosen(Keep(base, Diskful), 1, pin, joiners)), 1, wanted, out)
    ensures FirstKept(Keep(base, Diskful), 1, pin, out)
  {
    var legs := Chosen(Keep(base, Diskful), 1, pin, joiners);
    ShedSafe(source, done, v.addresses, base, legs, out);
    ShedOn(Keep(base, Diskful), pin, joiners, legs, out);
    assert |out| == 1;
    SingleLaid(v, Nodes(legs), wanted, out);
  }

  lemma SingleLaid(v: Placement.PoolView, nodes: set<Node>, wanted: bool, out: seq<Replica>)
    requires |out| == 1 && Nodes(Keep(out, Diskful)) == nodes && out[..1] == out
    ensures LaidOut(v, nodes, 1, wanted, out) && DistinctBy(out, IdOf)
  {
  }
}
