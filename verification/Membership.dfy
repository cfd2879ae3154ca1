/** The edits that change a volume's membership, each as a function of the spec it read,
    and what every sequence of them keeps. */
module Membership {
  import opened BarrierTypes
  import opened Sequences
  import opened VolumeSpec
  import opened NodeMap

  // ----- node ids -----

  function ReplicaIds(replicas: seq<Replica>, self: Node): (ids: seq<int>)
    ensures |ids| <= |replicas|
    ensures (exists r <- replicas :: r.node == self) ==> |ids| < |replicas|
    ensures forall id :: id in ids <==> exists r <- replicas :: r.node != self && r.address != "" && r.nodeID == id
  {
    if replicas == [] then []
    else
      var r := replicas[|replicas| - 1];
      assert replicas == replicas[..|replicas| - 1] + [r];
      ReplicaIds(replicas[..|replicas| - 1], self) + if r.node != self && r.address != "" then [r.nodeID] else []
  }

  function ClientIds(clients: seq<Client>, self: Node): (ids: seq<int>)
    ensures |ids| <= |clients|
    ensures (exists c <- clients :: c.node == self) ==> |ids| < |clients|
    ensures forall id :: id in ids <==> exists c <- clients :: c.node != self && c.address != "" && c.nodeID == id
  {
    if clients == [] then []
    else
      var c := clients[|clients| - 1];
      assert clients == clients[..|clients| - 1] + [c];
      ClientIds(clients[..|clients| - 1], self) + if c.node != self && c.address != "" then [c.nodeID] else []
  }

  function OtherIds(s: Spec, self: Node): seq<int> {
    ReplicaIds(s.replicas, self) + ClientIds(s.clients, self)
  }

  lemma OtherIdsHeld(s: Spec, self: Node, id: int)
    ensures id in OtherIds(s, self) <==> exists n :: n != self && HoldsId(s, n, id)
  {
    if n :| n != self && HoldsId(s, n, id) {
    }
    if id in OtherIds(s, self) {
      if id in ReplicaIds(s.replicas, self) {
        var r :| r in s.replicas && r.node != self && r.address != "" && r.nodeID == id;
        assert HoldsId(s, r.node, id);
      } else {
        var c :| c in s.clients && c.node != self && c.address != "" && c.nodeID == id;
        assert HoldsId(s, c.node, id);
      }
    }
  }

  /** The id search ends, and on a valid spec it ends within 0..4. */
  method NextNodeID(s: Spec, self: Node) returns (id: nat)
    ensures id !in OtherIds(s, self) && forall j: int | 0 <= j < id :: j in OtherIds(s, self)
    ensures HasLegOn(s, self) && |s.replicas| <= MAX_REPLICAS && |s.clients| <= MAX_CLIENTS ==> id <= 4
  {
    id := 0;
    ghost var others := OtherIds(s, self);
    while id in OtherIds(s, self)
      invariant forall j: int | 0 <= j < id :: j in others
      decreases |others| - id
    {
      Pigeonhole(others, id + 1);
      id := id + 1;
    }
    Pigeonhole(others, id);
  }

  ghost predicate LowestFreeId(s: Spec, self: Node, id: int) {
    0 <= id && id !in OtherIds(s, self) && forall j: int | 0 <= j < id :: j in OtherIds(s, self)
  }

  // ----- the volume and the edits -----

  datatype LegStatus = LegStatus(upToDate: bool, splitBrain: bool, connected: bool, primarySince: Option<Seconds>)

  datatype VolumeState = VolumeState(
    spec: Spec,
    finalizers: set<Node>,
    deleting: bool,
    ready: bool,
    pinned: bool,                       // a snapshot names the volume
    perNode: map<Node, LegStatus>)

  datatype Edit =
    | CompleteReplica(i: nat, topology: Topology, address: string, id: int)
    | CompleteClient(i: nat, address: string, id: int)
    | AttachClient(n: Node, at: Seconds)
    | DetachClient(n: Node)
    | AddTieBreaker(topology: Topology)
    | ConvertClient(i: nat, topology: Topology, room: set<Node>)
    | ConvertTieBreaker(i: nat, topology: Topology, room: set<Node>)
    | EvictClient(dead: Node)
    | EvictTieBreaker(dead: Node, topology: Topology)
    | EvictSwap(dead: Node, topology: Topology, room: set<Node>)
    | EvictFlip(dead: Node, i: nat, topology: Topology, room: set<Node>)
    | Operator(next: Spec)

  ghost predicate Incomplete(s: Spec) {
    (exists r <- s.replicas :: r.address == "") || (exists c <- s.clients :: c.address == "")
  }

  function Bare(n: Node, diskless: bool): Replica {
    Replica(n, diskless, "", "", 0, "", false)
  }

  function Survivor(dead: Node): Replica -> bool {
    (r: Replica) => r.node != dead && Diskful(r)
  }

  function Bystander(dead: Node): Replica -> bool {
    (r: Replica) => r.node != dead && IsDiskless(r)
  }

  function NotOn(dead: Node): Replica -> bool {
    (r: Replica) => r.node != dead
  }

  function ClientNotOn(dead: Node): Client -> bool {
    (c: Client) => c.node != dead
  }

  /** Why an entry cannot be completed: its pool or its node does not fit the volume. */
  predicate Placed(s: Spec, r: Replica, m: Topology) {
    && r.node in m
    && (Diskful(r) ==>
          && (r.pool == "" || PoolOrDefault(r.pool) == VolumePool(s))
          && HasPool(m, r.node, VolumePool(s)))
  }

  function CompletedEntry(s: Spec, r: Replica, m: Topology, address: string, id: int): Replica
    requires Placed(s, r, m)
  {
    if r.diskless then r.(backend := "", pool := "", nodeID := id, address := address)
    else r.(backend := m[r.node].pools[PoolOrDefault(VolumePool(s))], pool := VolumePool(s), fullSync := true,
            nodeID := id, address := address)
  }

  function Flipped(r: Replica, backend: string, pool: string): Replica {
    r.(diskless := false, backend := backend, pool := pool, fullSync := true)
  }

  function Swapped(replicas: seq<Replica>, dead: Node, replacement: Replica): seq<Replica> {
    var survivors, bystanders := Keep(replicas, Survivor(dead)), Keep(replicas, Bystander(dead));
    if replacement.diskless then survivors + bystanders + [replacement]
    else survivors + [replacement] + bystanders
  }

  /** A full sync may land on the node: it carries the volume's pool, with room. */
  predicate Roomy(s: Spec, m: Topology, room: set<Node>, n: Node) {
    HasPool(m, n, VolumePool(s)) && n in room
  }

  ghost function Fits(s: Spec, m: Topology, room: set<Node>): set<Node> {
    set n | n in m && Roomy(s, m, room, n)
  }

  ghost predicate ConversionAllowed(v: VolumeState) {
    v.ready && |DiskfulReplicas(v.spec)| < 3 && !Incomplete(v.spec)
  }

  ghost predicate DiskfulOn(s: Spec, n: Node) {
    exists r <- s.replicas :: r.node == n && Diskful(r)
  }

  ghost predicate EvictionAllowed(v: VolumeState, dead: Node) {
    && !Incomplete(v.spec)
    && (forall r <- v.spec.replicas :: r.node != dead && Diskful(r) ==>
          && r.node in v.perNode && v.perNode[r.node].upToDate && !v.perNode[r.node].splitBrain
          && (DiskfulOn(v.spec, dead) ==> !v.perNode[r.node].connected))
    && (DiskfulOn(v.spec, dead) ==> !v.pinned)
  }

  ghost predicate Enabled(v: VolumeState, e: Edit) {
    var s := v.spec;
    if e.DetachClient? then HasClient(s, e.n)
    else if e.Operator? then
      Accepted(s, e.next) && forall n, id | HoldsId(e.next, n, id) :: HoldsId(s, n, id)
    else if e.AttachClient? then
      s.allowRemoteAccess && !HasReplica(s, e.n) && !HasClient(s, e.n) && s.drbdPort.Some? && |s.clients| < MAX_CLIENTS
    else
      && !v.deleting && s.drbdPort.Some?
      && match e
         case CompleteReplica(i, m, address, id) =>
           && i < |s.replicas| && s.replicas[i].address == "" && Placed(s, s.replicas[i], m)
           && address != "" && LowestFreeId(s, s.replicas[i].node, id)
         case CompleteClient(i, address, id) =>
           && i < |s.clients| && s.clients[i].address == ""
           && address != "" && LowestFreeId(s, s.clients[i].node, id)
         case AddTieBreaker(m) =>
           && s.quorum == Freeze && |s.replicas| == 2 && |DiskfulReplicas(s)| == 2
           && (forall r <- s.replicas :: Completed(r)) && (forall f <- v.finalizers :: HasLegOn(s, f))
           && TieBreakerNode(m, s).Some?
         case ConvertClient(i, m, room) =>
           && ConversionAllowed(v) && i < |s.clients| && s.clients[i].addedAt.Some?
           && Roomy(s, m, room, s.clients[i].node)
         case ConvertTieBreaker(i, m, room) =>
           && ConversionAllowed(v) && i < |s.replicas| && s.replicas[i].diskless
           && s.replicas[i].node in v.perNode && v.perNode[s.replicas[i].node].primarySince.Some?
           && Roomy(s, m, room, s.replicas[i].node)
         case EvictClient(dead) => EvictionAllowed(v, dead) && HasClient(s, dead) && !HasReplica(s, dead)
         case EvictTieBreaker(dead, m) =>
           EvictionAllowed(v, dead) && HasReplica(s, dead) && !DiskfulOn(s, dead) && TieBreakerNode(m, s).Some?
         case EvictSwap(dead, m, room) =>
           EvictionAllowed(v, dead) && DiskfulOn(s, dead) && ReplacementNode(m, s, dead, Fits(s, m, room)).Some?
         case EvictFlip(dead, i, m, room) =>
           && EvictionAllowed(v, dead) && DiskfulOn(s, dead) && ReplacementNode(m, s, dead, Fits(s, m, room)).None?
           && i < |s.replicas| && s.replicas[i].diskless && Roomy(s, m, room, s.replicas[i].node)
  }

  /** The spec an edit writes back. */
  ghost function Edited(v: VolumeState, e: Edit): Spec
    requires Enabled(v, e)
  {
    var s := v.spec;
    match e
    case CompleteReplica(i, m, address, id) =>
      s.(replicas := s.replicas[i := CompletedEntry(s, s.replicas[i], m, address, id)])
    case CompleteClient(i, address, id) =>
      s.(clients := s.clients[i := s.clients[i].(nodeID := id, address := address)])
    case AttachClient(n, at) => s.(clients := s.clients + [Client(n, 0, "", Some(at))])
    case DetachClient(n) => s.(clients := Keep(s.clients, ClientNotOn(n)))
    case AddTieBreaker(m) => s.(replicas := s.replicas + [Bare(TieBreakerNode(m, s).value, true)])
    case ConvertClient(i, m, _) => ClientConverted(s, i, m)
    case ConvertTieBreaker(i, m, _) => TieBreakerConverted(s, i, m)
    case EvictClient(dead) => s.(clients := Keep(s.clients, ClientNotOn(dead)))
    case EvictTieBreaker(dead, m) => s.(replicas := Swapped(s.replicas, dead, Bare(TieBreakerNode(m, s).value, true)))
    case EvictSwap(dead, m, room) =>
      s.(replicas := Swapped(s.replicas, dead, Bare(ReplacementNode(m, s, dead, Fits(s, m, room)).value, false)))
    case EvictFlip(dead, i, m, _) =>
      s.(replicas := Keep(TieBreakerConverted(s, i, m).replicas, NotOn(dead)))
    case Operator(next) => next
  }

  /** A client leg turns into a diskful replica with the same id and address; tie-breakers go. */
  function ClientConverted(s: Spec, i: nat, m: Topology): Spec
    requires i < |s.clients| && HasPool(m, s.clients[i].node, VolumePool(s))
  {
    var c, pool := s.clients[i], VolumePool(s);
    var leg := Replica(c.node, false, m[c.node].pools[PoolOrDefault(pool)], pool, c.nodeID, c.address, true);
    s.(replicas := DiskfulReplicas(s) + [leg], clients := s.clients[..i] + s.clients[i + 1..])
  }

  function TieBreakerConverted(s: Spec, i: nat, m: Topology): Spec
    requires i < |s.replicas| && HasPool(m, s.replicas[i].node, VolumePool(s))
  {
    var r, pool := s.replicas[i], VolumePool(s);
    s.(replicas := s.replicas[i := Flipped(r, m[r.node].pools[PoolOrDefault(pool)], pool)])
  }

  // ----- each edit is one the rules accept -----

  ghost predicate Inv(s: Spec) {
    ValidSpec(s) && DistinctIds(s)
  }

  /** An edit that hands out no id keeps the ids distinct. */
  lemma IdsKept(s: Spec, next: Spec)
    requires DistinctIds(s) && forall n, id | HoldsId(next, n, id) :: HoldsId(s, n, id)
    ensures DistinctIds(next)
  {
  }

  /** Handing the lowest free id to a leg that had none keeps them distinct and in 0..4. */
  lemma IdsAfterCompletion(s: Spec, next: Spec, self: Node, id: int)
    requires Inv(s) && HasLegOn(s, self) && LowestFreeId(s, self, id)
    requires forall n, x | HoldsId(next, n, x) :: HoldsId(s, n, x) || (n == self && x == id)
    ensures DistinctIds(next)
  {
    Pigeonhole(OtherIds(s, self), id);
    forall n | n != self ensures !HoldsId(s, n, id) {
      OtherIdsHeld(s, self, id);
    }
  }

  lemma CompleteReplicaAccepted(v: VolumeState, e: Edit)
    requires e.CompleteReplica? && Inv(v.spec) && Enabled(v, e)
    ensures Accepted(v.spec, Edited(v, e)) && DistinctIds(Edited(v, e))
  {
    var s := v.spec;
    var r := CompletedEntry(s, s.replicas[e.i], e.topology, e.address, e.id);
    EntryReplaced(s, e.i, r);
    EntryIds(s, e.i, r);
    IdsAfterCompletion(s, Edited(v, e), r.node, e.id);
  }

  /** Rewriting an entry that is incomplete or diskless, on its node, into the volume's own
      pool and never from diskful to diskless, breaks no rule. */
  lemma EntryReplaced(s: Spec, i: nat, r: Replica)
    requires ValidSpec(s) && i < |s.replicas| && (s.replicas[i].address == "" || s.replicas[i].diskless)
    requires r.node == s.replicas[i].node && (s.drbdPort.Some? || Diskful(r)) && (Diskful(s.replicas[i]) ==> Diskful(r))
    requires Diskful(r) ==> r.pool == VolumePool(s)
    ensures Accepted(s, s.(replicas := s.replicas[i := r]))
  {
    EntryRules(s, i, r);
    EntryNodes(s.replicas, i, r);
    SameNodes(s, s.(replicas := s.replicas[i := r]));
    EntryChange(s, i, r);
  }

  lemma EntryRules(s: Spec, i: nat, r: Replica)
    requires ReplicaRules(s) && i < |s.replicas| && r.node == s.replicas[i].node
    requires (s.drbdPort.Some? || Diskful(r)) && (Diskful(s.replicas[i]) ==> Diskful(r))
    requires Diskful(r) ==> r.pool == VolumePool(s)
    ensures ReplicaRules(s.(replicas := s.replicas[i := r]))
  {
    EntryCount(s.replicas, i, r);
    EntryPool(s, i, r);
    EntryNodes(s.replicas, i, r);
  }

  lemma EntryNodes(replicas: seq<Replica>, i: nat, r: Replica)
    requires i < |replicas| && r.node == replicas[i].node
    ensures DistinctBy(replicas, NodeOf) ==> DistinctBy(replicas[i := r], NodeOf)
    ensures forall x <- replicas[i := r] :: exists o <- replicas :: o.node == x.node
  {
    assert replicas[i] in replicas;
  }

  lemma EntryChange(s: Spec, i: nat, r: Replica)
    requires ValidSpec(s) && i < |s.replicas| && (s.replicas[i].address == "" || s.replicas[i].diskless)
    requires r.node == s.replicas[i].node && (Diskful(s.replicas[i]) ==> Diskful(r))
    ensures ReplicasMayBecome(s.replicas, s.replicas[i := r])
  {
    forall x, o | x in s.replicas[i := r] && o in s.replicas && o.node == x.node
      ensures x == o || (x == r && o == s.replicas[i])
    {
      SameEntry(s.replicas, i, r, x, o);
    }
  }

  lemma SameEntry(replicas: seq<Replica>, i: nat, r: Replica, x: Replica, o: Replica)
    requires DistinctBy(replicas, NodeOf) && i < |replicas| && r.node == replicas[i].node
    requires x in replicas[i := r] && o in replicas && o.node == x.node
    ensures x == o || (x == r && o == replicas[i])
  {
    var j :| 0 <= j < |replicas| && replicas[i := r][j] == x;
    SameKeySame(replicas, NodeOf, o, replicas[j]);
  }

  lemma EntryPool(s: Spec, i: nat, r: Replica)
    requires OnePool(s.replicas) && i < |s.replicas|
    requires Diskful(r) ==> r.pool == VolumePool(s)
    ensures OnePool(s.replicas[i := r])
  {
    forall x | x in s.replicas[i := r] && Diskful(x) && Completed(x)
      ensures PoolOrDefault(x.pool) == VolumePool(s)
    {
      if x != r {
        assert x in s.replicas;
        VolumePoolIsTheirs(s, x);
      }
    }
  }

  lemma EntryIds(s: Spec, i: nat, r: Replica)
    requires i < |s.replicas| && r.node == s.replicas[i].node
    ensures forall n, x | HoldsId(s.(replicas := s.replicas[i := r]), n, x) ::
              HoldsId(s, n, x) || (n == r.node && x == r.nodeID)
    ensures HasLegOn(s, r.node)
  {
    assert s.replicas[i] in s.replicas;
  }

  /** The client rules only look at which nodes the replicas are on. */
  lemma SameNodes(s: Spec, next: Spec)
    requires ClientRules(s) && next.clients == s.clients && next.drbdPort == s.drbdPort
    requires next.exportFsType == s.exportFsType && forall r <- next.replicas :: HasReplica(s, r.node)
    ensures ClientRules(next)
  {
  }

  function One(b: bool): nat {
    if b then 1 else 0
  }

  lemma EntryCount(replicas: seq<Replica>, i: nat, r: Replica)
    requires i < |replicas|
    ensures |Keep(replicas[i := r], Diskful)| + One(Diskful(replicas[i])) ==
      |Keep(replicas, Diskful)| + One(Diskful(r))
  {
    var a, b := replicas[..i], replicas[i + 1..];
    assert replicas == a + [replicas[i]] + b;
    assert replicas[i := r] == a + [r] + b;
    KeepAppend(a + [replicas[i]], b, Diskful);
    KeepAppend(a + [r], b, Diskful);
    KeepLast(a, replicas[i], Diskful);
    KeepLast(a, r, Diskful);
  }

  lemma {:induction false} DropOne(replicas: seq<Replica>, dead: Node)
    requires DistinctBy(replicas, NodeOf)
    ensures |Keep(replicas, NotOn(dead))| ==
      |replicas| - if exists r <- replicas :: r.node == dead then 1 else 0
  {
    if replicas != [] {
      var u, x := replicas[..|replicas| - 1], replicas[|replicas| - 1];
      FrontDistinct(replicas);
      assert replicas == u + [x];
      if x.node == dead {
        LastAlone(replicas);
        KeepAll(u, NotOn(dead));
        assert x in replicas;
      } else {
        DropOne(u, dead);
      }
    }
  }

  lemma FrontDistinct(replicas: seq<Replica>)
    requires DistinctBy(replicas, NodeOf) && replicas != []
    ensures DistinctBy(replicas[..|replicas| - 1], NodeOf)
  {
  }

  lemma LastAlone(replicas: seq<Replica>)
    requires DistinctBy(replicas, NodeOf) && replicas != []
    ensures forall r <- replicas[..|replicas| - 1] :: r.node != replicas[|replicas| - 1].node
  {
    var u, x := replicas[..|replicas| - 1], replicas[|replicas| - 1];
    forall r | r in u ensures r.node != x.node {
      var k :| 0 <= k < |u| && u[k] == r;
      assert NodeOf(replicas[k]) != NodeOf(replicas[|u|]);
    }
  }

  lemma DistinctKinds(s: Spec)
    requires DistinctBy(s.replicas, NodeOf)
    ensures DistinctBy(DiskfulReplicas(s), NodeOf)
    ensures DistinctBy(Keep(s.replicas, IsDiskless), NodeOf)
    ensures |DiskfulReplicas(s)| + |Keep(s.replicas, IsDiskless)| == |s.replicas|
  {
    KeepDistinct(s.replicas, Diskful, NodeOf);
    KeepDistinct(s.replicas, IsDiskless, NodeOf);
    KeepPartition(s.replicas, Diskful, IsDiskless);
  }

  // ----- clients -----

  lemma ClientsChanged(s: Spec, clients: seq<Client>)
    requires ValidSpec(s) && s.drbdPort.Some? && |clients| <= MAX_CLIENTS && DistinctBy(clients, ClientNodeOf)
    requires forall c <- clients :: !HasReplica(s, c.node)
    ensures Accepted(s, s.(clients := clients)) <==> clients == [] || s.exportFsType.None?
  {
    var next := s.(clients := clients);
    forall r, o | r in next.replicas && o in s.replicas && o.node == r.node ensures r == o {
      SameKeySame(s.replicas, NodeOf, r, o);
    }
    assert forall c <- clients :: HasReplica(s, c.node) == HasReplica(next, c.node);
  }

  lemma CompleteClientAccepted(v: VolumeState, e: Edit)
    requires e.CompleteClient? && Inv(v.spec) && Enabled(v, e)
    ensures Accepted(v.spec, Edited(v, e)) && DistinctIds(Edited(v, e))
  {
    var s, next := v.spec, Edited(v, e);
    assert s.clients[e.i] in s.clients;
    forall c | c in next.clients ensures !HasReplica(s, c.node) {
      var k :| 0 <= k < |next.clients| && next.clients[k] == c;
      assert s.clients[k] in s.clients;
    }
    ClientsChanged(s, next.clients);
    IdsAfterCompletion(s, next, s.clients[e.i].node, e.id);
  }

  /** Attaching breaks exactly one rule, on exactly the exported volumes: the append itself
      asks only whether remote access is allowed, and creation never allows it on a volume
      that is exported. */
  lemma AttachAcceptedExactly(v: VolumeState, e: Edit)
    requires e.AttachClient? && Inv(v.spec) && Enabled(v, e)
    ensures Accepted(v.spec, Edited(v, e)) <==> v.spec.exportFsType.None?
    ensures DistinctIds(Edited(v, e))
  {
    var s, next := v.spec, Edited(v, e);
    DistinctAppend(s.clients, next.clients[|s.clients|], ClientNodeOf);
    ClientsChanged(s, next.clients);
    IdsKept(s, next);
  }

  lemma DropClientAccepted(v: VolumeState, e: Edit)
    requires (e.DetachClient? || e.EvictClient?) && Inv(v.spec) && Enabled(v, e)
    ensures Accepted(v.spec, Edited(v, e)) && DistinctIds(Edited(v, e))
  {
    var s, next := v.spec, Edited(v, e);
    KeepDistinct(s.clients, ClientNotOn(if e.DetachClient? then e.n else e.dead), ClientNodeOf);
    ClientsChanged(s, next.clients);
    IdsKept(s, next);
  }

  // ----- replicas -----

  lemma AddTieBreakerAccepted(v: VolumeState, e: Edit)
    requires e.AddTieBreaker? && Inv(v.spec) && Enabled(v, e)
    ensures Accepted(v.spec, Edited(v, e)) && DistinctIds(Edited(v, e))
  {
    var s, next := v.spec, Edited(v, e);
    var tb := Bare(TieBreakerNode(e.topology, s).value, true);
    SpareHoldsNoLeg(e.topology, s, 0, {});
    KeepLast(s.replicas, tb, Diskful);
    DistinctAppend(s.replicas, tb, NodeOf);
    IdsKept(s, next);
    ReplicasGrown(s, next, tb);
  }

  /** The rules across a write, when every entry is an old one or a newcomer that is
      incomplete or in the volume's pool. */
  lemma ReplicasGrown(s: Spec, next: Spec, newcomer: Replica)
    requires ValidSpec(s) && !HasReplica(s, newcomer.node)
    requires Diskful(newcomer) && Completed(newcomer) ==> newcomer.pool == VolumePool(s)
    requires forall r <- next.replicas :: r in s.replicas || r == newcomer
    ensures OnePool(next.replicas) && ReplicasMayBecome(s.replicas, next.replicas)
    ensures (forall c <- next.clients :: c in s.clients && c.node != newcomer.node) ==>
      forall c <- next.clients :: !HasReplica(next, c.node)
  {
    forall r | r in next.replicas && Diskful(r) && Completed(r)
      ensures PoolOrDefault(r.pool) == VolumePool(s)
    {
      if r != newcomer {
        VolumePoolIsTheirs(s, r);
      }
    }
    forall r, o | r in next.replicas && o in s.replicas && o.node == r.node
      ensures r == o
    {
      assert HasReplica(s, r.node);
      SameKeySame(s.replicas, NodeOf, r, o);
    }
  }

  lemma ConvertClientAccepted(v: VolumeState, e: Edit)
    requires e.ConvertClient? && Inv(v.spec) && Enabled(v, e)
    ensures Accepted(v.spec, Edited(v, e)) && DistinctIds(Edited(v, e))
  {
    ClientConversion(v.spec, e.i, e.topology);
    ClientConversionIds(v.spec, e.i, e.topology);
    IdsKept(v.spec, Edited(v, e));
  }

  lemma ClientConversionIds(s: Spec, i: nat, m: Topology)
    requires i < |s.clients| && HasPool(m, s.clients[i].node, VolumePool(s))
    ensures forall n, id | HoldsId(ClientConverted(s, i, m), n, id) :: HoldsId(s, n, id)
  {
    assert s.clients[i] in s.clients;
    assert forall c <- ClientConverted(s, i, m).clients :: c in s.clients;
  }

  lemma ClientConversion(s: Spec, i: nat, m: Topology)
    requires ValidSpec(s) && |DiskfulReplicas(s)| < 3
    requires i < |s.clients| && HasPool(m, s.clients[i].node, VolumePool(s))
    ensures Accepted(s, ClientConverted(s, i, m))
  {
    var next, c := ClientConverted(s, i, m), s.clients[i];
    var kept := DiskfulReplicas(s);
    var leg := next.replicas[|kept|];
    assert c in s.clients;
    KeepAll(kept, Diskful);
    KeepLast(kept, leg, Diskful);
    DistinctKinds(s);
    DistinctAppend(kept, leg, NodeOf);
    ReplicasGrown(s, next, leg);
    OtherClients(s.clients, i);
  }

  lemma OtherClients(clients: seq<Client>, i: nat)
    requires i < |clients| && DistinctBy(clients, ClientNodeOf)
    ensures DistinctBy(clients[..i] + clients[i + 1..], ClientNodeOf)
    ensures forall c <- clients[..i] + clients[i + 1..] :: c in clients && c.node != clients[i].node
  {
    var rest := clients[..i] + clients[i + 1..];
    forall c | c in rest ensures c in clients && c.node != clients[i].node {
      var k :| 0 <= k < |rest| && rest[k] == c;
      assert c == clients[if k < i then k else k + 1];
      assert ClientNodeOf(clients[if k < i then k else k + 1]) != ClientNodeOf(clients[i]);
    }
  }

  /** Flipping a tie-breaker adds one to the diskful legs and touches nothing else. */
  lemma Flip(s: Spec, i: nat, m: Topology)
    requires ValidSpec(s) && i < |s.replicas| && s.replicas[i].diskless
    requires HasPool(m, s.replicas[i].node, VolumePool(s))
    ensures Accepted(s, TieBreakerConverted(s, i, m))
    ensures |DiskfulReplicas(TieBreakerConverted(s, i, m))| == |DiskfulReplicas(s)| + 1
  {
    var r := TieBreakerConverted(s, i, m).replicas[i];
    EntryReplaced(s, i, r);
    EntryCount(s.replicas, i, r);
  }

  lemma ConvertTieBreakerAccepted(v: VolumeState, e: Edit)
    requires e.ConvertTieBreaker? && Inv(v.spec) && Enabled(v, e)
    ensures Accepted(v.spec, Edited(v, e)) && DistinctIds(Edited(v, e))
  {
    Flip(v.spec, e.i, e.topology);
    FlipIds(v.spec, e.i, e.topology);
    IdsKept(v.spec, Edited(v, e));
  }

  lemma FlipIds(s: Spec, i: nat, m: Topology)
    requires i < |s.replicas| && HasPool(m, s.replicas[i].node, VolumePool(s))
    ensures forall n, id | HoldsId(TieBreakerConverted(s, i, m), n, id) :: HoldsId(s, n, id)
  {
    assert s.replicas[i] in s.replicas;
  }

  lemma CompletionIds(v: VolumeState, e: Edit, n: Node, id: int)
    requires e.CompleteReplica? && Enabled(v, e) && HoldsId(Edited(v, e), n, id)
    ensures HoldsId(v.spec, n, id) || Completes(v, e, n, id)
  {
    EntryIds(v.spec, e.i, CompletedEntry(v.spec, v.spec.replicas[e.i], e.topology, e.address, e.id));
  }

  lemma ClientIdKeeps(v: VolumeState, e: Edit, n: Node, id: int)
    requires (e.CompleteReplica? || e.CompleteClient?) && Enabled(v, e)
    requires exists c <- v.spec.clients :: c.node == n && c.address != "" && c.nodeID == id
    ensures HoldsId(Edited(v, e), n, id)
  {
    var s, next := v.spec, Edited(v, e);
    var c :| c in s.clients && c.node == n && c.address != "" && c.nodeID == id;
    var k :| 0 <= k < |s.clients| && s.clients[k] == c;
    assert next.clients[k] == c && c in next.clients;
  }

  lemma CompletionKeeps(v: VolumeState, e: Edit, n: Node, id: int)
    requires (e.CompleteReplica? || e.CompleteClient?) && Enabled(v, e) && HoldsId(v.spec, n, id)
    ensures HoldsId(Edited(v, e), n, id)
  {
    var s, next := v.spec, Edited(v, e);
    if r :| r in s.replicas && r.node == n && r.address != "" && r.nodeID == id {
      var k :| 0 <= k < |s.replicas| && s.replicas[k] == r;
      assert next.replicas[k] == r && r in next.replicas;
    } else {
      ClientIdKeeps(v, e, n, id);
    }
  }

  lemma AdditionKeeps(v: VolumeState, e: Edit, n: Node, id: int)
    requires (e.AttachClient? || e.AddTieBreaker?) && Enabled(v, e) && HoldsId(v.spec, n, id)
    ensures HoldsId(Edited(v, e), n, id)
  {
    var s, next := v.spec, Edited(v, e);
    assert forall r <- s.replicas :: r in next.replicas;
    assert forall c <- s.clients :: c in next.clients;
  }

  lemma ClientDropKeeps(s: Spec, gone: Node, n: Node, id: int)
    requires HoldsId(s, n, id) && n != gone
    ensures HoldsId(s.(clients := Keep(s.clients, ClientNotOn(gone))), n, id)
  {
  }

  lemma SwapKeeps(s: Spec, dead: Node, replacement: Replica, n: Node, id: int)
    requires HoldsId(s, n, id) && n != dead
    ensures HoldsId(s.(replicas := Swapped(s.replicas, dead, replacement)), n, id)
  {
    if r :| r in s.replicas && r.node == n && r.address != "" && r.nodeID == id {
      assert r in Keep(s.replicas, Survivor(dead)) || r in Keep(s.replicas, Bystander(dead));
    }
  }

  /** A swap leaves nothing on the dead node. */
  lemma SwapClears(s: Spec, dead: Node, replacement: Replica)
    requires ValidSpec(s) && HasReplica(s, dead) && replacement.node != dead
    ensures !HasLegOn(s.(replicas := Swapped(s.replicas, dead, replacement)), dead)
  {
    var next := Swapped(s.replicas, dead, replacement);
    forall r | r in next ensures r.node != dead {
      assert r in Keep(s.replicas, Survivor(dead)) || r in Keep(s.replicas, Bystander(dead)) || r == replacement;
    }
  }

  lemma FlipKeeps(s: Spec, i: nat, m: Topology, n: Node, id: int)
    requires i < |s.replicas| && HasPool(m, s.replicas[i].node, VolumePool(s)) && HoldsId(s, n, id)
    ensures HoldsId(TieBreakerConverted(s, i, m), n, id)
  {
    var next := TieBreakerConverted(s, i, m);
    if r :| r in s.replicas && r.node == n && r.address != "" && r.nodeID == id {
      var k :| 0 <= k < |s.replicas| && s.replicas[k] == r;
      assert next.replicas[k] in next.replicas;
    }
  }

  lemma DropKeeps(s: Spec, replicas: seq<Replica>, dead: Node, n: Node, id: int)
    requires HoldsId(s.(replicas := replicas), n, id) && n != dead
    ensures HoldsId(s.(replicas := Keep(replicas, NotOn(dead))), n, id)
  {
  }

  lemma ConversionKeeps(s: Spec, i: nat, m: Topology, n: Node, id: int)
    requires ValidSpec(s) && i < |s.clients| && HasPool(m, s.clients[i].node, VolumePool(s))
    requires HoldsId(s, n, id) && HasLegOn(ClientConverted(s, i, m), n)
    ensures HoldsId(ClientConverted(s, i, m), n, id)
  {
    var next := ClientConverted(s, i, m);
    if c :| c in s.clients && c.node == n && c.address != "" && c.nodeID == id {
      ConvertedClient(s, i, m, c);
    } else {
      var r :| r in s.replicas && r.node == n && r.address != "" && r.nodeID == id;
      ConvertedReplica(s, i, m, r);
    }
  }

  lemma ConvertedClient(s: Spec, i: nat, m: Topology, c: Client)
    requires i < |s.clients| && HasPool(m, s.clients[i].node, VolumePool(s)) && c in s.clients && c.address != ""
    ensures HoldsId(ClientConverted(s, i, m), c.node, c.nodeID)
  {
    var next := ClientConverted(s, i, m);
    var k :| 0 <= k < |s.clients| && s.clients[k] == c;
    if k == i {
      assert next.replicas[|next.replicas| - 1] in next.replicas;
    } else {
      assert s.clients == s.clients[..i] + [s.clients[i]] + s.clients[i + 1..];
      assert c in next.clients;
    }
  }

  /** A replica the conversion leaves is diskful, so it keeps its entry. */
  lemma ConvertedReplica(s: Spec, i: nat, m: Topology, r: Replica)
    requires ValidSpec(s) && i < |s.clients| && HasPool(m, s.clients[i].node, VolumePool(s))
    requires r in s.replicas && HasLegOn(ClientConverted(s, i, m), r.node)
    ensures r in ClientConverted(s, i, m).replicas
  {
    var next := ClientConverted(s, i, m);
    assert s.clients[i] in s.clients && HasReplica(s, r.node);
    assert forall c <- next.clients :: c in s.clients;
    var o :| o in next.replicas && o.node == r.node;
    assert o in DiskfulReplicas(s);
    SameKeySame(s.replicas, NodeOf, r, o);
  }

  lemma FlipSurvives(v: VolumeState, e: Edit, n: Node, id: int)
    requires e.EvictFlip? && Inv(v.spec) && Enabled(v, e) && HoldsId(v.spec, n, id) && HasLegOn(Edited(v, e), n)
    ensures HoldsId(Edited(v, e), n, id)
  {
    FlipKeeps(v.spec, e.i, e.topology, n, id);
    DropClears(v.spec, TieBreakerConverted(v.spec, e.i, e.topology).replicas, e.dead);
    DropKeeps(v.spec, TieBreakerConverted(v.spec, e.i, e.topology).replicas, e.dead, n, id);
  }

  lemma DropClears(s: Spec, replicas: seq<Replica>, dead: Node)
    requires Inv(s) && HasReplica(s, dead)
    ensures !HasLegOn(s.(replicas := Keep(replicas, NotOn(dead))), dead)
  {
  }

  lemma SwapSurvives(v: VolumeState, e: Edit, n: Node, id: int)
    requires (e.EvictTieBreaker? || e.EvictSwap?) && Inv(v.spec) && Enabled(v, e)
    requires HoldsId(v.spec, n, id) && HasLegOn(Edited(v, e), n)
    ensures HoldsId(Edited(v, e), n, id)
  {
    var s := v.spec;
    var newcomer :=
      if e.EvictSwap? then Bare(ReplacementNode(e.topology, s, e.dead, Fits(s, e.topology, e.room)).value, false)
      else Bare(TieBreakerNode(e.topology, s).value, true);
    SpareHoldsNoLeg(e.topology, s, e.dead, if e.EvictSwap? then Fits(s, e.topology, e.room) else {});
    SwapClears(s, e.dead, newcomer);
    SwapKeeps(s, e.dead, newcomer, n, id);
  }

  lemma ClientDropSurvives(v: VolumeState, e: Edit, n: Node, id: int)
    requires (e.DetachClient? || e.EvictClient?) && Inv(v.spec) && Enabled(v, e)
    requires HoldsId(v.spec, n, id) && HasLegOn(Edited(v, e), n)
    ensures HoldsId(Edited(v, e), n, id)
  {
    var gone := if e.DetachClient? then e.n else e.dead;
    if n != gone {
      ClientDropKeeps(v.spec, gone, n, id);
    }
  }

  /** A leg that is still there has the id it had. */
  lemma IdSurvives(v: VolumeState, e: Edit, n: Node, id: int)
    requires Inv(v.spec) && Enabled(v, e) && !e.Operator? && HoldsId(v.spec, n, id) && HasLegOn(Edited(v, e), n)
    ensures HoldsId(Edited(v, e), n, id)
  {
    if e.CompleteReplica? || e.CompleteClient? {
      CompletionKeeps(v, e, n, id);
    } else if e.AttachClient? || e.AddTieBreaker? {
      AdditionKeeps(v, e, n, id);
    } else if e.ConvertClient? {
      ConversionKeeps(v.spec, e.i, e.topology, n, id);
    } else if e.ConvertTieBreaker? {
      FlipKeeps(v.spec, e.i, e.topology, n, id);
    } else if e.EvictFlip? {
      FlipSurvives(v, e, n, id);
    } else if e.EvictTieBreaker? || e.EvictSwap? {
      SwapSurvives(v, e, n, id);
    } else {
      ClientDropSurvives(v, e, n, id);
    }
  }

  // ----- evictions -----

  lemma SwapCounts(s: Spec, dead: Node)
    requires DistinctBy(s.replicas, NodeOf)
    ensures |Keep(s.replicas, Survivor(dead))| == |DiskfulReplicas(s)| - if DiskfulOn(s, dead) then 1 else 0
    ensures |Keep(s.replicas, Survivor(dead))| + |Keep(s.replicas, Bystander(dead))| ==
      |s.replicas| - if HasReplica(s, dead) then 1 else 0
  {
    KeepBoth(s.replicas, Diskful, NotOn(dead), Survivor(dead));
    KeepBoth(s.replicas, NotOn(dead), Diskful, Survivor(dead));
    KeepBoth(s.replicas, NotOn(dead), IsDiskless, Bystander(dead));
    KeepPartition(Keep(s.replicas, NotOn(dead)), Diskful, IsDiskless);
    DistinctKinds(s);
    DropOne(DiskfulReplicas(s), dead);
    DropOne(s.replicas, dead);
  }

  lemma SwapDistinct(s: Spec, dead: Node, newcomer: Replica)
    requires DistinctBy(s.replicas, NodeOf) && !HasReplica(s, newcomer.node)
    ensures DistinctBy(Swapped(s.replicas, dead, newcomer), NodeOf)
  {
    var survivors, bystanders := Keep(s.replicas, Survivor(dead)), Keep(s.replicas, Bystander(dead));
    KeepDistinct(s.replicas, Survivor(dead), NodeOf);
    KeepDistinct(s.replicas, Bystander(dead), NodeOf);
    forall x, y | x in survivors && y in bystanders ensures x.node != y.node {
      if x.node == y.node {
        SameKeySame(s.replicas, NodeOf, x, y);
      }
    }
    if newcomer.diskless {
      DistinctConcat(survivors, bystanders, NodeOf);
      DistinctAppend(survivors + bystanders, newcomer, NodeOf);
    } else {
      DistinctAppend(survivors, newcomer, NodeOf);
      DistinctConcat(survivors + [newcomer], bystanders, NodeOf);
    }
  }

  lemma SwapDiskful(replicas: seq<Replica>, dead: Node, newcomer: Replica)
    ensures Keep(Swapped(replicas, dead, newcomer), Diskful) ==
      Keep(replicas, Survivor(dead)) + if Diskful(newcomer) then [newcomer] else []
  {
    var survivors, bystanders := Keep(replicas, Survivor(dead)), Keep(replicas, Bystander(dead));
    KeepAll(survivors, Diskful);
    KeepNone(bystanders, Diskful);
    if newcomer.diskless {
      KeepAppend(survivors, bystanders, Diskful);
      KeepLast(survivors + bystanders, newcomer, Diskful);
    } else {
      KeepLast(survivors, newcomer, Diskful);
      KeepAppend(survivors + [newcomer], bystanders, Diskful);
    }
  }

  lemma SwapShape(s: Spec, dead: Node, newcomer: Replica)
    requires ReplicaRules(s) && s.drbdPort.Some? && HasReplica(s, dead)
    requires Diskful(newcomer) == DiskfulOn(s, dead)
    ensures var next := Swapped(s.replicas, dead, newcomer);
      |next| == |s.replicas| && |Keep(next, Diskful)| == |DiskfulReplicas(s)| && Diskful(next[0])
  {
    SwapCounts(s, dead);
    SwapDiskful(s.replicas, dead, newcomer);
    assert Swapped(s.replicas, dead, newcomer)[0] == Keep(s.replicas, Survivor(dead))[0];
  }

  /** Replacing a dead leg by a bare one of the same kind breaks no rule, wherever in the
      list the dead one stood. */
  lemma SwapAccepted(s: Spec, dead: Node, newcomer: Replica)
    requires ValidSpec(s) && s.drbdPort.Some? && HasReplica(s, dead) && !HasLegOn(s, newcomer.node)
    requires newcomer.address == "" && Diskful(newcomer) == DiskfulOn(s, dead)
    ensures Accepted(s, s.(replicas := Swapped(s.replicas, dead, newcomer)))
  {
    SwapRules(s, dead, newcomer);
    SwapClients(s, dead, newcomer);
  }

  lemma SwapRules(s: Spec, dead: Node, newcomer: Replica)
    requires ValidSpec(s) && s.drbdPort.Some? && HasReplica(s, dead) && !HasReplica(s, newcomer.node)
    requires newcomer.address == "" && Diskful(newcomer) == DiskfulOn(s, dead)
    ensures var next := Swapped(s.replicas, dead, newcomer);
      ReplicaRules(s.(replicas := next)) && ReplicasMayBecome(s.replicas, next)
  {
    SwapShape(s, dead, newcomer);
    SwapDistinct(s, dead, newcomer);
    SwapMembers(s.replicas, dead, newcomer);
    ReplicasGrown(s, s.(replicas := Swapped(s.replicas, dead, newcomer)), newcomer);
  }

  lemma SwapClients(s: Spec, dead: Node, newcomer: Replica)
    requires ClientRules(s) && !HasClient(s, newcomer.node)
    ensures ClientRules(s.(replicas := Swapped(s.replicas, dead, newcomer)))
  {
    var next := s.(replicas := Swapped(s.replicas, dead, newcomer));
    SwapMembers(s.replicas, dead, newcomer);
    forall c | c in s.clients ensures !HasReplica(next, c.node) {
      assert c.node != newcomer.node && !HasReplica(s, c.node);
    }
  }

  lemma SwapMembers(replicas: seq<Replica>, dead: Node, newcomer: Replica)
    ensures forall r :: r in Swapped(replicas, dead, newcomer) <==> r == newcomer || (r in replicas && r.node != dead)
  {
  }

  lemma SwapIds(s: Spec, dead: Node, newcomer: Replica)
    requires newcomer.address == ""
    ensures forall n, id | HoldsId(s.(replicas := Swapped(s.replicas, dead, newcomer)), n, id) :: HoldsId(s, n, id)
  {
    SwapMembers(s.replicas, dead, newcomer);
  }

  lemma EvictSwapAccepted(v: VolumeState, e: Edit)
    requires (e.EvictSwap? || e.EvictTieBreaker?) && Inv(v.spec) && Enabled(v, e)
    ensures Accepted(v.spec, Edited(v, e)) && DistinctIds(Edited(v, e))
  {
    var s := v.spec;
    SpareHoldsNoLeg(e.topology, s, e.dead, if e.EvictSwap? then Fits(s, e.topology, e.room) else {});
    var newcomer :=
      if e.EvictSwap? then Bare(ReplacementNode(e.topology, s, e.dead, Fits(s, e.topology, e.room)).value, false)
      else Bare(TieBreakerNode(e.topology, s).value, true);
    SwapAccepted(s, e.dead, newcomer);
    SwapIds(s, e.dead, newcomer);
    IdsKept(s, Edited(v, e));
  }

  lemma FlipThenDrop(s: Spec, dead: Node, i: nat, m: Topology)
    requires ValidSpec(s) && s.drbdPort.Some? && DiskfulOn(s, dead)
    requires i < |s.replicas| && s.replicas[i].diskless && HasPool(m, s.replicas[i].node, VolumePool(s))
    ensures var next := s.(replicas := Keep(TieBreakerConverted(s, i, m).replicas, NotOn(dead)));
      Accepted(s, next) && DiskfulReplicas(next) == next.replicas && |next.replicas| == 2
  {
    var flipped := TieBreakerConverted(s, i, m);
    var next := s.(replicas := Keep(flipped.replicas, NotOn(dead)));
    Flip(s, i, m);
    DistinctKinds(flipped);
    NoneLeftDiskless(flipped);
    DeadStays(s, i, m, dead);
    DropOne(flipped.replicas, dead);
    KeepDistinct(flipped.replicas, NotOn(dead), NodeOf);
    KeepAll(next.replicas, Diskful);
  }

  lemma NoneLeftDiskless(s: Spec)
    requires |Keep(s.replicas, IsDiskless)| == 0
    ensures forall r <- s.replicas :: Diskful(r)
  {
    forall r | r in s.replicas ensures Diskful(r) {
      assert r !in Keep(s.replicas, IsDiskless);
    }
  }

  lemma DeadStays(s: Spec, i: nat, m: Topology, dead: Node)
    requires i < |s.replicas| && s.replicas[i].diskless && HasPool(m, s.replicas[i].node, VolumePool(s))
    requires DiskfulOn(s, dead)
    ensures DiskfulOn(TieBreakerConverted(s, i, m), dead)
  {
    var k :| 0 <= k < |s.replicas| && s.replicas[k].node == dead && Diskful(s.replicas[k]);
    assert TieBreakerConverted(s, i, m).replicas[k] == s.replicas[k];
  }

  lemma EvictFlipAccepted(v: VolumeState, e: Edit)
    requires e.EvictFlip? && Inv(v.spec) && Enabled(v, e)
    ensures Accepted(v.spec, Edited(v, e)) && DistinctIds(Edited(v, e))
  {
    var s := v.spec;
    FlipThenDrop(s, e.dead, e.i, e.topology);
    FlipIds(s, e.i, e.topology);
    FlipDropIds(s, e.i, e.topology, e.dead);
    IdsKept(s, Edited(v, e));
  }

  lemma FlipDropIds(s: Spec, i: nat, m: Topology, dead: Node)
    requires i < |s.replicas| && HasPool(m, s.replicas[i].node, VolumePool(s))
    ensures var flipped := TieBreakerConverted(s, i, m);
      forall n, id | HoldsId(s.(replicas := Keep(flipped.replicas, NotOn(dead))), n, id) :: HoldsId(flipped, n, id)
  {
  }

  // ----- main results -----

  /** As volumes are created: an exported one is consumed over NFS and allows no client leg. */
  predicate ExportClosed(s: Spec) {
    s.exportFsType.Some? ==> !s.allowRemoteAccess
  }

  /** Every edit a reconciler or the node service makes of a volume whose export is closed is
      one the API server accepts, keeps the ids distinct in 0..4, and leaves it closed. */
  lemma EditAccepted(v: VolumeState, e: Edit)
    requires Inv(v.spec) && Enabled(v, e) && (ExportClosed(v.spec) || !e.AttachClient?)
    ensures Accepted(v.spec, Edited(v, e)) && DistinctIds(Edited(v, e))
    ensures ExportClosed(v.spec) && !e.Operator? ==> ExportClosed(Edited(v, e))
  {
    match e
    case CompleteReplica(_, _, _, _) => CompleteReplicaAccepted(v, e);
    case CompleteClient(_, _, _) => CompleteClientAccepted(v, e);
    case AttachClient(_, _) => AttachAcceptedExactly(v, e);
    case DetachClient(_) => DropClientAccepted(v, e);
    case AddTieBreaker(_) => AddTieBreakerAccepted(v, e);
    case ConvertClient(_, _, _) => ConvertClientAccepted(v, e);
    case ConvertTieBreaker(_, _, _) => ConvertTieBreakerAccepted(v, e);
    case EvictClient(_) => DropClientAccepted(v, e);
    case EvictTieBreaker(_, _) => EvictSwapAccepted(v, e);
    case EvictSwap(_, _, _) => EvictSwapAccepted(v, e);
    case EvictFlip(_, _, _, _) => EvictFlipAccepted(v, e);
    case Operator(next) => IdsKept(v.spec, next);
  }

  /** One edit, and whatever the agents, snapshots and finalizers did in between. */
  datatype Step = Step(
    edit: Edit,
    finalizers: set<Node>,
    deleting: bool,
    ready: bool,
    pinned: bool,
    perNode: map<Node, LegStatus>)

  ghost function Seen(s: Spec, x: Step): VolumeState {
    VolumeState(s, x.finalizers, x.deleting, x.ready, x.pinned, x.perNode)
  }

  /** The API server drops a write that breaks a rule. */
  ghost function Commit(s: Spec, x: Step): Spec
    requires Enabled(Seen(s, x), x.edit)
  {
    var next := Edited(Seen(s, x), x.edit);
    if Accepted(s, next) then next else s
  }

  ghost predicate Legal(s: Spec, steps: seq<Step>)
    decreases |steps|, 0
  {
    steps == [] ||
    (var before := steps[..|steps| - 1];
     Legal(s, before) && Enabled(Seen(After(s, before), steps[|steps| - 1]), steps[|steps| - 1].edit))
  }

  ghost function After(s: Spec, steps: seq<Step>): Spec
    requires Legal(s, steps)
    decreases |steps|, 1
  {
    if steps == [] then s else Commit(After(s, steps[..|steps| - 1]), steps[|steps| - 1])
  }

  /** The membership invariant: in every run of edits the spec stays within the rules, and
      the completed legs keep distinct DRBD ids in 0..4. */
  lemma {:induction false} MembershipInvariant(s: Spec, steps: seq<Step>)
    requires Inv(s) && Legal(s, steps)
    ensures Inv(After(s, steps))
    decreases |steps|
  {
    if steps != [] {
      var before := steps[..|steps| - 1];
      MembershipInvariant(s, before);
      var v, e := Seen(After(s, before), steps[|steps| - 1]), steps[|steps| - 1].edit;
      if e.AttachClient? {
        AttachAcceptedExactly(v, e);
      } else {
        EditAccepted(v, e);
      }
    }
  }

  // ----- no edit is ever refused -----

  /** An operator who leaves exports closed, as every other writer does. */
  ghost predicate Careful(steps: seq<Step>) {
    forall x <- steps :: x.edit.Operator? ==> ExportClosed(x.edit.next)
  }

  lemma {:induction false} ClosedRun(s: Spec, steps: seq<Step>)
    requires Inv(s) && ExportClosed(s) && Legal(s, steps) && Careful(steps)
    ensures ExportClosed(After(s, steps))
    decreases |steps|
  {
    if steps != [] {
      var before, x := steps[..|steps| - 1], steps[|steps| - 1];
      assert x in steps && Careful(before);
      ClosedRun(s, before);
      MembershipInvariant(s, before);
      EditAccepted(Seen(After(s, before), x), x.edit);
    }
  }

  /** In every run, an edit whose writer sees fit to make it is accepted. */
  ghost predicate NeverRefused(careless: bool) {
    forall s, steps, x |
      && Inv(s) && ExportClosed(s) && Legal(s, steps) && (careless || Careful(steps))
      && Enabled(Seen(After(s, steps), x), x.edit) ::
      Accepted(After(s, steps), Edited(Seen(After(s, steps), x), x.edit))
  }

  function ExportLeg(n: Node): Replica {
    Replica(n, false, "zfs", "default", n, "address", false)
  }

  /** An exported volume with legs on 0 and 1. */
  function Exported(remote: bool): Spec {
    Spec(1, [ExportLeg(0), ExportLeg(1)], Freeze, Some(7000), None, remote, [], Some("ext4"))
  }

  lemma ExportedIsValid(remote: bool)
    ensures Inv(Exported(remote)) && !HasLegOn(Exported(remote), 2)
  {
    ExportedRules(remote);
    ExportedIds(remote);
  }

  lemma ExportedRules(remote: bool)
    ensures ValidSpec(Exported(remote)) && !HasLegOn(Exported(remote), 2)
  {
    var s := Exported(remote);
    TwoLegs(s.replicas);
    KeepAll(s.replicas, Diskful);
  }

  lemma TwoLegs(replicas: seq<Replica>)
    requires replicas == [ExportLeg(0), ExportLeg(1)]
    ensures forall r <- replicas :: Diskful(r) && r.node < 2
    ensures OnePool(replicas) && DistinctBy(replicas, NodeOf)
  {
    assert forall r <- replicas :: r == ExportLeg(0) || r == ExportLeg(1);
  }

  lemma ExportedIds(remote: bool)
    ensures DistinctIds(Exported(remote))
  {
    var s := Exported(remote);
    forall n, id | HoldsId(s, n, id) ensures n == id && (n == 0 || n == 1) {
      assert forall r <- s.replicas :: r == ExportLeg(0) || r == ExportLeg(1);
    }
  }

  lemma OneEdit(s: Spec, x: Step)
    requires Enabled(Seen(s, x), x.edit) && Accepted(s, Edited(Seen(s, x), x.edit))
    ensures Legal(s, [x]) && After(s, [x]) == Edited(Seen(s, x), x.edit)
  {
    assert [x][..0] == [] && Legal(s, []) && After(s, []) == s;
  }

  lemma FlipAccepted()
    ensures Accepted(Exported(false), Exported(true))
    ensures forall n, id | HoldsId(Exported(true), n, id) :: HoldsId(Exported(false), n, id)
  {
    ExportedIsValid(true);
    assert Exported(true).replicas == Exported(false).replicas;
    SameKeys(Exported(true).replicas);
  }

  lemma SameKeys(replicas: seq<Replica>)
    requires DistinctBy(replicas, NodeOf)
    ensures ReplicasMayBecome(replicas, replicas)
  {
    forall r, o | r in replicas && o in replicas && o.node == r.node ensures o == r {
      SameKeySame(replicas, NodeOf, o, r);
    }
  }

  /** By hand, remote access can be allowed on an exported volume; the next attach then
      appends a client leg the rules forbid. */
  lemma CarelessOperatorRefuses()
    ensures !NeverRefused(true)
  {
    var s, open := Exported(false), Exported(true);
    var flip := Step(Operator(open), {}, false, true, false, map[]);
    var attach := Step(AttachClient(2, 0), {}, false, true, false, map[]);
    ExportedIsValid(false);
    FlipAccepted();
    OneEdit(s, flip);
    ExportedIsValid(true);
    AttachRefused(open, attach);
    assert After(s, [flip]) == open && ExportClosed(s);
  }

  lemma AttachRefused(s: Spec, x: Step)
    requires Inv(s) && s.exportFsType.Some? && s.allowRemoteAccess && s.drbdPort.Some? && s.clients == []
    requires x.edit.AttachClient? && !HasLegOn(s, x.edit.n)
    ensures Enabled(Seen(s, x), x.edit) && !Accepted(s, Edited(Seen(s, x), x.edit))
  {
    AttachAcceptedExactly(Seen(s, x), x.edit);
  }

  /** No edit is ever refused, exactly when no operator allows remote access on an exported
      volume. */
  lemma NeverRefusedExactly(careless: bool)
    ensures NeverRefused(careless) <==> !careless
  {
    if careless {
      CarelessOperatorRefuses();
    } else {
      forall s, steps, x |
        && Inv(s) && ExportClosed(s) && Legal(s, steps) && Careful(steps)
        && Enabled(Seen(After(s, steps), x), x.edit)
        ensures Accepted(After(s, steps), Edited(Seen(After(s, steps), x), x.edit))
      {
        MembershipInvariant(s, steps);
        ClosedRun(s, steps);
        EditAccepted(Seen(After(s, steps), x), x.edit);
      }
    }
  }

  // ----- ids -----

  /** The leg an edit completes, if it is a completion. */
  predicate Completes(v: VolumeState, e: Edit, n: Node, id: int) {
    || (e.CompleteReplica? && e.i < |v.spec.replicas| && n == v.spec.replicas[e.i].node && id == e.id)
    || (e.CompleteClient? && e.i < |v.spec.clients| && n == v.spec.clients[e.i].node && id == e.id)
  }

  /** A leg keeps its DRBD id across every edit but the one that first completes it, which
      gives an id to that leg alone. */
  lemma IdStable(v: VolumeState, e: Edit, n: Node, id: int)
    requires Inv(v.spec) && Enabled(v, e) && !e.Operator? && HoldsId(Edited(v, e), n, id)
    ensures HoldsId(v.spec, n, id) || Completes(v, e, n, id)
  {
    var s := v.spec;
    match e
    case CompleteReplica(_, _, _, _) => CompletionIds(v, e, n, id);
    case ConvertClient(i, m, _) => ClientConversionIds(s, i, m);
    case ConvertTieBreaker(i, m, _) => FlipIds(s, i, m);
    case EvictTieBreaker(dead, m) => SwapIds(s, dead, Bare(TieBreakerNode(m, s).value, true));
    case EvictSwap(dead, m, room) => SwapIds(s, dead, Bare(ReplacementNode(m, s, dead, Fits(s, m, room)).value, false));
    case EvictFlip(dead, i, m, _) => FlipIds(s, i, m); FlipDropIds(s, i, m, dead);
    case _ =>
  }

  // ----- evictions -----

  /** An eviction that drops a diskful leg keeps every other diskful leg, each published
      UpToDate, not split and no longer linked to the dead one; the volume keeps as many
      diskful legs as before, or both of the two it is left with. */
  lemma EvictionKeepsCleanCopies(v: VolumeState, e: Edit)
    requires Inv(v.spec) && Enabled(v, e) && (e.EvictSwap? || e.EvictFlip?)
    ensures !HasReplica(Edited(v, e), e.dead)
    ensures forall r <- v.spec.replicas :: Diskful(r) && r.node != e.dead ==>
      && r in Edited(v, e).replicas && r.node in v.perNode
      && v.perNode[r.node].upToDate && !v.perNode[r.node].splitBrain && !v.perNode[r.node].connected
    ensures !v.pinned && |DiskfulReplicas(Edited(v, e))| >= 2
    ensures e.EvictSwap? ==> |DiskfulReplicas(Edited(v, e))| == |DiskfulReplicas(v.spec)|
  {
    var s := v.spec;
    if e.EvictSwap? {
      var newcomer := Bare(ReplacementNode(e.topology, s, e.dead, Fits(s, e.topology, e.room)).value, false);
      SpareHoldsNoLeg(e.topology, s, e.dead, Fits(s, e.topology, e.room));
      SwapMembers(s.replicas, e.dead, newcomer);
      SwapShape(s, e.dead, newcomer);
    } else {
      FlipThenDrop(s, e.dead, e.i, e.topology);
      FlippedMembers(s, e.i, e.topology);
    }
  }

  lemma FlippedMembers(s: Spec, i: nat, m: Topology)
    requires i < |s.replicas| && s.replicas[i].diskless && HasPool(m, s.replicas[i].node, VolumePool(s))
    ensures forall r <- s.replicas :: Diskful(r) ==> r in TieBreakerConverted(s, i, m).replicas
  {
    var next := TieBreakerConverted(s, i, m).replicas;
    forall r | r in s.replicas && Diskful(r) ensures r in next {
      var k :| 0 <= k < |s.replicas| && s.replicas[k] == r;
      assert next[k] == r;
    }
  }
}
