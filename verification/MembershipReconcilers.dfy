/** The membership reconcilers as they run: loops over the entries of one volume object,
    written back in a single update or not at all. */
module MembershipReconcilers {
  import opened BarrierTypes
  import opened Sequences
  import opened VolumeSpec
  import opened NodeMap
  import opened Membership

  /** BadPlacement stops without a retry, Transient is retried; neither writes. */
  datatype Outcome = Written | BadPlacement | Transient

  /** A leg's endpoint: a node sharing its address with another never resolves. */
  predicate Conflicted(m: Topology, n: Node) {
    n in m && m[n].addressConflict
  }

  method CountNode(nodes: seq<Node>, n: Node) returns (dup: nat)
    ensures dup > 1 <==> exists i, j :: 0 <= i < j < |nodes| && nodes[i] == n && nodes[j] == n
  {
    dup := 0;
    ghost var first := 0;
    for i := 0 to |nodes|
      invariant dup == 0 ==> n !in nodes[..i]
      invariant dup == 1 ==> first < i && nodes[first] == n && forall j | 0 <= j < i && nodes[j] == n :: j == first
      invariant dup > 1 ==> exists k, j :: 0 <= k < j < i && nodes[k] == n && nodes[j] == n
    {
      assert nodes[..i + 1] == nodes[..i] + [nodes[i]];
      if nodes[i] == n {
        if dup == 0 {
          first := i;
        }
        dup := dup + 1;
      }
    }
    assert nodes[..|nodes|] == nodes;
  }

  function ReplicaNodeSeq(replicas: seq<Replica>): (ns: seq<Node>)
    ensures |ns| == |replicas| && forall i | 0 <= i < |ns| :: ns[i] == replicas[i].node
  {
    seq(|replicas|, i requires 0 <= i < |replicas| => replicas[i].node)
  }

  function ClientNodeSeq(clients: seq<Client>): (ns: seq<Node>)
    ensures |ns| == |clients| && forall i | 0 <= i < |ns| :: ns[i] == clients[i].node
  {
    seq(|clients|, i requires 0 <= i < |clients| => clients[i].node)
  }

  /** Fills one replica entry, as the edit CompleteReplica does. */
  method Complete(s: Spec, i: nat, m: Topology, addresses: map<Node, string>) returns (out: Outcome, r: Replica)
    requires i < |s.replicas| && forall n <- addresses :: addresses[n] != ""
    ensures out == Written ==>
      && Placed(s, s.replicas[i], m) && s.replicas[i].node in addresses
      && LowestFreeId(s, s.replicas[i].node, r.nodeID)
      && r == CompletedEntry(s, s.replicas[i], m, addresses[s.replicas[i].node], r.nodeID)
    ensures DistinctBy(s.replicas, NodeOf) ==>
      (out == BadPlacement <==> !Placed(s, s.replicas[i], m) || Conflicted(m, s.replicas[i].node))
    ensures out == Transient ==> s.replicas[i].node !in addresses
  {
    r := s.replicas[i];
    if !Placed(s, r, m) {
      return BadPlacement, r;
    }
    var dup := CountNode(ReplicaNodeSeq(s.replicas), r.node);
    assert DistinctBy(s.replicas, NodeOf) ==> dup <= 1 by {
      if DistinctBy(s.replicas, NodeOf) {
        assert forall j, k | 0 <= j < k < |s.replicas| :: NodeOf(s.replicas[j]) != NodeOf(s.replicas[k]);
      }
    }
    if dup > 1 || Conflicted(m, r.node) {
      return BadPlacement, r;
    }
    if r.node !in addresses {
      return Transient, r;
    }
    var id := NextNodeID(s, r.node);
    r := CompletedEntry(s, r, m, addresses[r.node], id);
    out := Written;
  }

  /** Between two specs every entry kept its node and kind, and completed ones did not move. */
  ghost predicate OnlyCompletes(s: Spec, next: Spec) {
    && next == s.(replicas := next.replicas, clients := next.clients)
    && |next.replicas| == |s.replicas| && |next.clients| == |s.clients|
    && (forall j | 0 <= j < |s.replicas| ::
          && next.replicas[j].node == s.replicas[j].node && next.replicas[j].diskless == s.replicas[j].diskless
          && (Completed(s.replicas[j]) ==> next.replicas[j] == s.replicas[j]))
    && (forall j | 0 <= j < |s.clients| ::
          && next.clients[j].node == s.clients[j].node && next.clients[j].addedAt == s.clients[j].addedAt
          && (s.clients[j].address != "" ==> next.clients[j] == s.clients[j]))
  }

  /** What a completed newcomer must carry: a full sync if it is diskful. */
  ghost predicate NewcomersFullSync(s: Spec, next: Spec)
    requires |next.replicas| == |s.replicas|
  {
    forall j | 0 <= j < |s.replicas| :: !Completed(s.replicas[j]) && Completed(next.replicas[j]) ==>
      (Diskful(next.replicas[j]) ==> next.replicas[j].fullSync && next.replicas[j].pool != "")
  }

  lemma CompletionIsAChange(s: Spec, next: Spec)
    requires ValidSpec(s) && OnlyCompletes(s, next)
    ensures ValidChange(s, next)
  {
    forall x, o | x in next.replicas && o in s.replicas && o.node == x.node
      ensures Diskful(o) ==> Diskful(x)
      ensures Diskful(o) && Completed(o) ==> PoolOrDefault(o.pool) == PoolOrDefault(x.pool)
    {
      var j :| 0 <= j < |next.replicas| && next.replicas[j] == x;
      SameKeySame(s.replicas, NodeOf, o, s.replicas[j]);
    }
  }

  /** One entry more, inside the invariant. */
  lemma EntryCompleted(s: Spec, i: nat, m: Topology, address: string, id: int)
    requires Inv(s) && s.drbdPort.Some? && i < |s.replicas| && s.replicas[i].address == "" && address != ""
    requires Placed(s, s.replicas[i], m) && LowestFreeId(s, s.replicas[i].node, id)
    ensures Inv(s.(replicas := s.replicas[i := CompletedEntry(s, s.replicas[i], m, address, id)]))
  {
    CompleteReplicaAccepted(VolumeState(s, {}, false, false, false, map[]), CompleteReplica(i, m, address, id));
  }

  lemma ClientCompleted(s: Spec, i: nat, address: string, id: int)
    requires Inv(s) && s.drbdPort.Some? && i < |s.clients| && s.clients[i].address == "" && address != ""
    requires LowestFreeId(s, s.clients[i].node, id)
    ensures Inv(s.(clients := s.clients[i := s.clients[i].(nodeID := id, address := address)]))
  {
    CompleteClientAccepted(VolumeState(s, {}, false, false, false, map[]), CompleteClient(i, address, id));
  }

  lemma OneMoreCompleted(s: Spec, next: Spec, i: nat, r: Replica)
    requires OnlyCompletes(s, next) && NewcomersFullSync(s, next)
    requires i < |s.replicas| && next.replicas[i] == s.replicas[i]
    requires !Completed(s.replicas[i]) && r.node == s.replicas[i].node && r.diskless == s.replicas[i].diskless
    requires Diskful(r) ==> r.fullSync && r.pool != ""
    ensures OnlyCompletes(s, next.(replicas := next.replicas[i := r]))
    ensures NewcomersFullSync(s, next.(replicas := next.replicas[i := r]))
  {
  }

  /** Completes the entry at i, or reports why not. */
  method CompleteAt(s: Spec, i: nat, m: Topology, addresses: map<Node, string>) returns (out: Outcome, next: Spec)
    requires s.drbdPort.Some? && i < |s.replicas| && !Completed(s.replicas[i])
    requires forall n <- addresses :: addresses[n] != ""
    ensures out == Written ==>
      && |next.replicas| == |s.replicas| && next == s.(replicas := s.replicas[i := next.replicas[i]])
      && Completed(next.replicas[i])
      && next.replicas[i].node == s.replicas[i].node && next.replicas[i].diskless == s.replicas[i].diskless
      && (Diskful(next.replicas[i]) ==> next.replicas[i].fullSync && next.replicas[i].pool != "")
    ensures out == Written && Inv(s) ==> Inv(next)
  {
    var r;
    out, r := Complete(s, i, m, addresses);
    next := s.(replicas := s.replicas[i := r]);
    if out == Written && Inv(s) {
      EntryCompleted(s, i, m, r.address, r.nodeID);
    }
  }

  method CompleteReplicas(s: Spec, m: Topology, addresses: map<Node, string>) returns (out: Outcome, next: Spec)
    requires s.drbdPort.Some? && forall n <- addresses :: addresses[n] != ""
    ensures out == Written ==>
      && OnlyCompletes(s, next) && next.clients == s.clients && NewcomersFullSync(s, next)
      && forall r <- next.replicas :: Completed(r)
    ensures out == Written && Inv(s) ==> Inv(next)
  {
    next := s;
    for i := 0 to |s.replicas|
      invariant OnlyCompletes(s, next) && next.clients == s.clients && NewcomersFullSync(s, next)
      invariant forall j | 0 <= j < i :: Completed(next.replicas[j])
      invariant forall j | i <= j < |s.replicas| :: next.replicas[j] == s.replicas[j]
      invariant Inv(s) ==> Inv(next)
    {
      if !Completed(next.replicas[i]) {
        ghost var before := next;
        out, next := CompleteAt(next, i, m, addresses);
        if out != Written {
          return out, s;
        }
        OneMoreCompleted(s, before, i, next.replicas[i]);
      }
    }
    out := Written;
  }

  method CompleteClients(s: Spec, m: Topology, addresses: map<Node, string>) returns (out: Outcome, next: Spec)
    requires s.drbdPort.Some? && forall n <- addresses :: addresses[n] != ""
    ensures out == Written ==>
      OnlyCompletes(s, next) && next.replicas == s.replicas && forall c <- next.clients :: c.address != ""
    ensures out == Written && Inv(s) ==> Inv(next)
  {
    next := s;
    for i := 0 to |s.clients|
      invariant OnlyCompletes(s, next) && next.replicas == s.replicas
      invariant forall j | 0 <= j < i :: next.clients[j].address != ""
      invariant forall j | i <= j < |s.clients| :: next.clients[j] == s.clients[j]
      invariant Inv(s) ==> Inv(next)
    {
      var c := next.clients[i];
      if c.address == "" {
        var dup := CountNode(ClientNodeSeq(next.clients), c.node);
        if dup > 1 || Conflicted(m, c.node) {
          return BadPlacement, s;
        }
        if c.node !in addresses {
          return Transient, s;
        }
        var id := NextNodeID(next, c.node);
        if Inv(s) {
          ClientCompleted(next, i, addresses[c.node], id);
        }
        next := next.(clients := next.clients[i := c.(nodeID := id, address := addresses[c.node])]);
      }
    }
    out := Written;
  }

  ghost function LegNodes(s: Spec): set<Node> {
    ReplicaNodes(s) + ClientNodes(s)
  }

  method IncompleteChange(s: Spec) returns (b: bool)
    ensures b <==> Incomplete(s)
  {
    for i := 0 to |s.replicas|
      invariant forall j | 0 <= j < i :: s.replicas[j].address != ""
    {
      if s.replicas[i].address == "" {
        return true;
      }
    }
    for i := 0 to |s.clients|
      invariant forall j | 0 <= j < i :: s.clients[j].address != ""
    {
      if s.clients[i].address == "" {
        return true;
      }
    }
    return false;
  }

  /** The survivors first, then the replacement if diskful, then the other kind. */
  method SwapReplica(replicas: seq<Replica>, dead: Node, replacement: Replica) returns (out: seq<Replica>)
    ensures out == Swapped(replicas, dead, replacement)
  {
    var survivors := Filter(replicas, Survivor(dead));
    var bystanders := Filter(replicas, Bystander(dead));
    if replacement.diskless {
      out := survivors + bystanders + [replacement];
    } else {
      out := survivors + [replacement] + bystanders;
    }
  }

  /** The position of the dead node's replica, or none. */
  method FindReplica(s: Spec, n: Node) returns (k: Option<nat>)
    ensures k.Some? <==> HasReplica(s, n)
    ensures k.Some? ==> k.value < |s.replicas| && s.replicas[k.value].node == n
  {
    for i := 0 to |s.replicas|
      invariant forall j | 0 <= j < i :: s.replicas[j].node != n
    {
      if s.replicas[i].node == n {
        return Some(i);
      }
    }
    return None;
  }

  /** The eviction gates; every survivor must hold a full clean copy. */
  method EvictBlocked(v: VolumeState, dead: Node, deadDiskful: bool) returns (blocked: bool)
    requires deadDiskful == DiskfulOn(v.spec, dead)
    ensures !blocked <==> !v.deleting && v.spec.drbdPort.Some? && EvictionAllowed(v, dead)
  {
    if v.deleting || v.spec.drbdPort.None? {
      return true;
    }
    var incomplete := IncompleteChange(v.spec);
    if incomplete {
      return true;
    }
    for i := 0 to |v.spec.replicas|
      invariant forall r <- v.spec.replicas[..i] :: r.node != dead && Diskful(r) ==>
        && r.node in v.perNode && v.perNode[r.node].upToDate && !v.perNode[r.node].splitBrain
        && (deadDiskful ==> !v.perNode[r.node].connected)
    {
      var r := v.spec.replicas[i];
      if r.node != dead && !r.diskless {
        if r.node !in v.perNode || !v.perNode[r.node].upToDate || v.perNode[r.node].splitBrain {
          return true;
        }
        if deadDiskful && v.perNode[r.node].connected {
          return true;
        }
      }
    }
    return deadDiskful && v.pinned;
  }

  /** A tie-breaker the volume could flip diskful in place of the dead leg. */
  method FlippableTieBreaker(s: Spec, dead: Node, m: Topology, room: set<Node>) returns (k: Option<nat>)
    ensures k.Some? ==>
      && k.value < |s.replicas| && s.replicas[k.value].diskless && s.replicas[k.value].node != dead
      && Roomy(s, m, room, s.replicas[k.value].node)
    ensures k.None? ==> forall r <- s.replicas :: r.diskless && r.node != dead ==> !Roomy(s, m, room, r.node)
  {
    for i := 0 to |s.replicas|
      invariant forall j | 0 <= j < i :: s.replicas[j].diskless && s.replicas[j].node != dead ==>
        !Roomy(s, m, room, s.replicas[j].node)
    {
      var r := s.replicas[i];
      if r.diskless && r.node != dead && Roomy(s, m, room, r.node) {
        return Some(i);
      }
    }
    return None;
  }

  method FittingNodes(s: Spec, m: Topology, room: set<Node>) returns (fits: set<Node>)
    ensures fits == Fits(s, m, room)
  {
    fits := set n | n in m.Keys && Roomy(s, m, room, n);
  }

  /** The edits one eviction pass could make for a dead node. */
  ghost predicate IsEviction(e: Edit, dead: Node, m: Topology, room: set<Node>) {
    || e == EvictClient(dead)
    || e == EvictTieBreaker(dead, m)
    || e == EvictSwap(dead, m, room)
    || (e.EvictFlip? && e == EvictFlip(dead, e.i, m, room))
  }

  /** A completed client leg on a node with the volume's pool, attached long enough ago. */
  predicate Waits(s: Spec, c: Client, now: Seconds, patience: Seconds, m: Topology) {
    HasPool(m, c.node, VolumePool(s)) && c.address != "" && c.addedAt.Some? && now - c.addedAt.value >= patience
  }

  /** A tie-breaker on such a node, Primary for long enough. */
  predicate Staged(v: VolumeState, r: Replica, now: Seconds, patience: Seconds, m: Topology) {
    && r.diskless && HasPool(m, r.node, VolumePool(v.spec)) && r.node in v.perNode
    && v.perNode[r.node].primarySince.Some? && now - v.perNode[r.node].primarySince.value >= patience
  }

  ghost predicate ClientWaited(v: VolumeState, n: Node, now: Seconds, patience: Seconds, m: Topology) {
    exists c <- v.spec.clients :: c.node == n && Waits(v.spec, c, now, patience, m)
  }

  ghost predicate TieBreakerWaited(v: VolumeState, n: Node, now: Seconds, patience: Seconds, m: Topology) {
    exists r <- v.spec.replicas :: r.node == n && Staged(v, r, now, patience, m)
  }

  /** The first client that has waited long enough, or the end of the list. */
  method FirstWaiting(s: Spec, now: Seconds, patience: Seconds, m: Topology) returns (i: nat)
    ensures i <= |s.clients| && forall j | 0 <= j < i :: !Waits(s, s.clients[j], now, patience, m)
    ensures i < |s.clients| ==> Waits(s, s.clients[i], now, patience, m)
  {
    i := 0;
    while i < |s.clients| && !Waits(s, s.clients[i], now, patience, m)
      invariant i <= |s.clients| && forall j | 0 <= j < i :: !Waits(s, s.clients[j], now, patience, m)
    {
      i := i + 1;
    }
  }

  method FirstStaged(v: VolumeState, now: Seconds, patience: Seconds, m: Topology) returns (i: nat)
    ensures i <= |v.spec.replicas| && forall j | 0 <= j < i :: !Staged(v, v.spec.replicas[j], now, patience, m)
    ensures i < |v.spec.replicas| ==> Staged(v, v.spec.replicas[i], now, patience, m)
  {
    i := 0;
    while i < |v.spec.replicas| && !Staged(v, v.spec.replicas[i], now, patience, m)
      invariant i <= |v.spec.replicas|
      invariant forall j | 0 <= j < i :: !Staged(v, v.spec.replicas[j], now, patience, m)
    {
      i := i + 1;
    }
  }

  method ConversionBlocked(v: VolumeState) returns (b: bool)
    ensures b <==> !ConversionAllowed(v)
  {
    var incomplete := IncompleteChange(v.spec);
    b := !v.ready || |DiskfulReplicas(v.spec)| >= 3 || incomplete;
  }

  lemma DropsOne(clients: seq<Client>, n: Node)
    ensures |Keep(clients, ClientNotOn(n))| != |clients| <==> exists c <- clients :: c.node == n
    ensures |Keep(clients, ClientNotOn(n))| == |clients| ==> Keep(clients, ClientNotOn(n)) == clients
  {
    if c :| c in clients && c.node == n {
      Shorter(clients, n);
    } else {
      KeepAll(clients, ClientNotOn(n));
    }
  }

  lemma {:induction false} Shorter(clients: seq<Client>, n: Node)
    requires exists c <- clients :: c.node == n
    ensures |Keep(clients, ClientNotOn(n))| < |clients|
  {
    var u, x := clients[..|clients| - 1], clients[|clients| - 1];
    assert clients == u + [x];
    if x.node != n {
      Shorter(u, n);
    }
  }

  ghost predicate NoEviction(v: VolumeState, dead: Node, m: Topology, room: set<Node>) {
    forall e | IsEviction(e, dead, m, room) :: !Enabled(v, e)
  }

  lemma NothingFits(v: VolumeState, dead: Node, m: Topology, room: set<Node>)
    requires DiskfulOn(v.spec, dead) && DistinctBy(v.spec.replicas, NodeOf)
    requires ReplacementNode(m, v.spec, dead, Fits(v.spec, m, room)).None?
    requires forall r <- v.spec.replicas :: r.diskless && r.node != dead ==> !Roomy(v.spec, m, room, r.node)
    ensures NoEviction(v, dead, m, room)
  {
    var s := v.spec;
    forall i | 0 <= i < |s.replicas| && s.replicas[i].diskless
      ensures !Roomy(s, m, room, s.replicas[i].node)
    {
      DisklessElsewhere(s, i, dead);
    }
  }

  lemma NowhereToMove(v: VolumeState, dead: Node, m: Topology, room: set<Node>)
    requires !DiskfulOn(v.spec, dead) && HasReplica(v.spec, dead) && TieBreakerNode(m, v.spec).None?
    ensures NoEviction(v, dead, m, room)
  {
  }

  lemma GatesRefuse(v: VolumeState, dead: Node, m: Topology, room: set<Node>)
    requires v.deleting || v.spec.drbdPort.None? || !EvictionAllowed(v, dead)
    ensures NoEviction(v, dead, m, room)
  {
  }

  method LegOn(s: Spec, n: Node) returns (b: bool)
    ensures b <==> HasLegOn(s, n)
  {
    var k := FindReplica(s, n);
    if k.Some? {
      return true;
    }
    for i := 0 to |s.clients|
      invariant forall j | 0 <= j < i :: s.clients[j].node != n
    {
      if s.clients[i].node == n {
        return true;
      }
    }
    return false;
  }

  class VolumeObject {
    var spec: Spec
    var finalizers: set<Node>
    var deleting: bool
    var ready: bool
    var pinned: bool
    var perNode: map<Node, LegStatus>

    constructor (v: VolumeState)
      ensures View() == v
    {
      spec, finalizers, deleting := v.spec, v.finalizers, v.deleting;
      ready, pinned, perNode := v.ready, v.pinned, v.perNode;
    }

    function View(): VolumeState
      reads this
    {
      VolumeState(spec, finalizers, deleting, ready, pinned, perNode)
    }

    /** One pass over a volume: completes every entry and gives every placed node its
        teardown finalizer, or writes nothing. */
    method Reconcile(m: Topology, addresses: map<Node, string>) returns (out: Outcome)
      requires forall n <- addresses :: addresses[n] != ""
      modifies `spec, `finalizers
      ensures out != Written || deleting || spec.drbdPort.None? ==> View() == old(View())
      ensures out == Written && !deleting && spec.drbdPort.Some? ==>
        && OnlyCompletes(old(spec), spec) && !Incomplete(spec) && NewcomersFullSync(old(spec), spec)
        && finalizers == old(finalizers) + LegNodes(spec)
      ensures Inv(old(spec)) ==> Inv(spec) && ValidChange(old(spec), spec)
    {
      if deleting || spec.drbdPort.None? {
        if Inv(spec) {
          CompletionIsAChange(spec, spec);
        }
        return Written;
      }
      var next;
      out, next := CompleteReplicas(spec, m, addresses);
      if out == Written {
        out, next := CompleteClients(next, m, addresses);
        if out == Written {
          var replicas, _ := UsedByReplicas(m, next, None);
          var clients := UsedByClients(next);
          spec, finalizers := next, finalizers + replicas + clients;
        }
      }
      if Inv(old(spec)) {
        CompletionIsAChange(old(spec), spec);
      }
    }

    /** Adds a tie-breaker exactly when the retrofit edit is enabled. */
    method RetrofitTieBreaker(m: Topology) returns (added: bool)
      modifies `spec
      ensures added <==> Enabled(old(View()), AddTieBreaker(m))
      ensures spec == if added then Edited(old(View()), AddTieBreaker(m)) else old(spec)
    {
      if deleting || spec.drbdPort.None? || spec.quorum != Freeze {
        return false;
      }
      if |spec.replicas| != 2 || |DiskfulReplicas(spec)| != 2 {
        return false;
      }
      for i := 0 to |spec.replicas|
        invariant spec == old(spec) && forall j | 0 <= j < i :: Completed(spec.replicas[j])
      {
        if spec.replicas[i].address == "" {
          return false;
        }
      }
      var held := finalizers;
      while held != {}
        invariant spec == old(spec) && held <= finalizers && forall f <- finalizers - held :: HasLegOn(spec, f)
      {
        var f :| f in held;
        var used := LegOn(spec, f);
        if !used {
          return false;
        }
        held := held - {f};
      }
      var tb := PickTieBreaker(m, spec);
      if tb.None? {
        return false;
      }
      spec := spec.(replicas := spec.replicas + [Bare(tb.value, true)]);
      return true;
    }

    /** Appends a bare client leg for a node that holds no leg, where the volume has room. */
    method AddClientLeg(n: Node, at: Seconds) returns (added: bool)
      requires spec.allowRemoteAccess && !HasReplica(spec, n) && !HasClient(spec, n)
      modifies `spec
      ensures added <==> Enabled(old(View()), AttachClient(n, at))
      ensures spec == if added then Edited(old(View()), AttachClient(n, at)) else old(spec)
    {
      if spec.drbdPort.None? || |spec.clients| >= MAX_CLIENTS {
        return false;
      }
      spec := spec.(clients := spec.clients + [Client(n, 0, "", Some(at))]);
      return true;
    }

    method RemoveClientLeg(n: Node) returns (removed: bool)
      requires DistinctBy(spec.clients, ClientNodeOf)
      modifies `spec
      ensures removed <==> HasClient(old(spec), n)
      ensures spec == if removed then Edited(old(View()), DetachClient(n)) else old(spec)
    {
      var clients := Filter(spec.clients, ClientNotOn(n));
      removed := |clients| != |spec.clients|;
      DropsOne(spec.clients, n);
      spec := spec.(clients := clients);
    }

    /** Converts the first client leg, then the first staged tie-breaker, that has been in use
        for `patience`; a first one that is blocked stops the pass. */
    method AutoDiskful(now: Seconds, patience: Seconds, m: Topology, room: set<Node>) returns (made: Option<Edit>)
      modifies `spec
      ensures made.Some? ==>
        && (made.value.ConvertClient? || made.value.ConvertTieBreaker?)
        && Enabled(old(View()), made.value) && spec == Edited(old(View()), made.value)
      ensures made.None? ==> spec == old(spec)
      ensures made.None? && !deleting && spec.drbdPort.Some? && ConversionAllowed(View()) ==>
        forall n | ClientWaited(View(), n, now, patience, m) || TieBreakerWaited(View(), n, now, patience, m) ::
          exists k | ClientWaited(View(), k, now, patience, m) || TieBreakerWaited(View(), k, now, patience, m) ::
            k !in room
    {
      made := None;
      if deleting || spec.drbdPort.None? {
        return;
      }
      var i := FirstWaiting(spec, now, patience, m);
      var k := FirstStaged(View(), now, patience, m);
      var blocked := ConversionBlocked(View());
      if i < |spec.clients| {
        if !blocked && spec.clients[i].node in room {
          made := Some(ConvertClient(i, m, room));
          spec := ClientConverted(spec, i, m);
        } else {
          assert ClientWaited(View(), spec.clients[i].node, now, patience, m);
        }
      } else if k < |spec.replicas| {
        if !blocked && spec.replicas[k].node in room {
          made := Some(ConvertTieBreaker(k, m, room));
          spec := TieBreakerConverted(spec, k, m);
        } else {
          assert TieBreakerWaited(View(), spec.replicas[k].node, now, patience, m);
        }
      }
    }

    /** Drops the dead node's leg by the one eviction edit that is enabled, or finds none. */
    method Evict(dead: Node, m: Topology, room: set<Node>) returns (made: Option<Edit>)
      requires HasLegOn(spec, dead) && DistinctBy(spec.replicas, NodeOf)
      modifies `spec
      ensures made.Some? ==>
        && IsEviction(made.value, dead, m, room) && Enabled(old(View()), made.value)
        && spec == Edited(old(View()), made.value)
      ensures made.None? ==> spec == old(spec) && NoEviction(old(View()), dead, m, room)
    {
      ghost var v := View();
      var k := FindReplica(spec, dead);
      var deadDiskful := k.Some? && !spec.replicas[k.value].diskless;
      if k.Some? {
        OnlyEntry(spec, k.value, dead);
      }
      var blocked := EvictBlocked(View(), dead, deadDiskful);
      if blocked {
        GatesRefuse(View(), dead, m, room);
        return None;
      }
      if deadDiskful {
        made := ReplaceDiskful(dead, m, room);
      } else {
        made := ReplaceDiskless(dead, m, room);
      }
    }

    /** A dead consumer's leg just goes; a dead tie-breaker moves to a spare node. */
    method ReplaceDiskless(dead: Node, m: Topology, room: set<Node>) returns (made: Option<Edit>)
      requires HasLegOn(spec, dead) && !DiskfulOn(spec, dead)
      requires !deleting && spec.drbdPort.Some? && EvictionAllowed(View(), dead)
      modifies `spec
      ensures made.Some? ==>
        && IsEviction(made.value, dead, m, room) && Enabled(old(View()), made.value)
        && spec == Edited(old(View()), made.value)
      ensures made.None? ==> spec == old(spec) && NoEviction(old(View()), dead, m, room)
    {
      var k := FindReplica(spec, dead);
      if k.None? {
        var clients := Filter(spec.clients, ClientNotOn(dead));
        spec := spec.(clients := clients);
        return Some(EvictClient(dead));
      }
      var tb := PickTieBreaker(m, spec);
      if tb.None? {
        NowhereToMove(View(), dead, m, room);
        return None;
      }
      var replicas := SwapReplica(spec.replicas, dead, Bare(tb.value, true));
      spec := spec.(replicas := replicas);
      return Some(EvictTieBreaker(dead, m));
    }

    /** The diskful case: a spare node, else a tie-breaker flipped in place. */
    method ReplaceDiskful(dead: Node, m: Topology, room: set<Node>) returns (made: Option<Edit>)
      requires DiskfulOn(spec, dead) && DistinctBy(spec.replicas, NodeOf)
      requires !deleting && spec.drbdPort.Some? && EvictionAllowed(View(), dead)
      modifies `spec
      ensures made.Some? ==>
        && IsEviction(made.value, dead, m, room) && Enabled(old(View()), made.value)
        && spec == Edited(old(View()), made.value)
      ensures made.None? ==> spec == old(spec) && NoEviction(old(View()), dead, m, room)
    {
      var fits := FittingNodes(spec, m, room);
      var spare := PickReplacement(m, spec, dead, fits);
      if spare.Some? {
        var replicas := SwapReplica(spec.replicas, dead, Bare(spare.value, false));
        spec := spec.(replicas := replicas);
        return Some(EvictSwap(dead, m, room));
      }
      var k := FlippableTieBreaker(spec, dead, m, room);
      if k.Some? {
        var flipped := TieBreakerConverted(spec, k.value, m).replicas;
        var replicas := Filter(flipped, NotOn(dead));
        spec := spec.(replicas := replicas);
        return Some(EvictFlip(dead, k.value, m, room));
      }
      NothingFits(View(), dead, m, room);
      return None;
    }
  }

  lemma OnlyEntry(s: Spec, k: nat, n: Node)
    requires DistinctBy(s.replicas, NodeOf) && k < |s.replicas| && s.replicas[k].node == n
    ensures DiskfulOn(s, n) <==> Diskful(s.replicas[k])
  {
    forall r | r in s.replicas && r.node == n ensures r == s.replicas[k] {
      SameKeySame(s.replicas, NodeOf, r, s.replicas[k]);
    }
  }

  lemma DisklessElsewhere(s: Spec, i: nat, dead: Node)
    requires DistinctBy(s.replicas, NodeOf) && DiskfulOn(s, dead) && i < |s.replicas| && s.replicas[i].diskless
    ensures s.replicas[i].node != dead
  {
    if s.replicas[i].node == dead {
      OnlyEntry(s, i, dead);
    }
  }
}
