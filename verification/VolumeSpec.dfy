/** A volume's spec and the rules the API server holds every write of it to. */
module VolumeSpec {
  import opened BarrierTypes
  import opened Sequences

  const DEFAULT_POOL := "default"
  const MAX_REPLICAS := 3
  const MAX_CLIENTS := 2

  datatype QuorumPolicy = LastManStanding | Freeze

  /** An empty address marks an entry the membership reconciler has not completed. */
  datatype Replica = Replica(
    node: Node,
    diskless: bool,
    backend: string,
    pool: string,
    nodeID: int,
    address: string,
    fullSync: bool)

  datatype Client = Client(node: Node, nodeID: int, address: string, addedAt: Option<Seconds>)

  datatype Source = Source(snapshotName: string, padForMetadata: bool)

  datatype Spec = Spec(
    sizeBytes: int,
    replicas: seq<Replica>,
    quorum: QuorumPolicy,
    drbdPort: Option<int>,
    source: Option<Source>,
    allowRemoteAccess: bool,
    clients: seq<Client>,
    exportFsType: Option<string>)

  function PoolOrDefault(pool: string): string {
    if pool == "" then DEFAULT_POOL else pool
  }

  predicate Diskful(r: Replica) {
    !r.diskless
  }

  predicate IsDiskless(r: Replica) {
    r.diskless
  }

  predicate Completed(r: Replica) {
    r.address != ""
  }

  function NodeOf(r: Replica): Node {
    r.node
  }

  function ClientNodeOf(c: Client): Node {
    c.node
  }

  function DiskfulReplicas(s: Spec): seq<Replica> {
    Keep(s.replicas, Diskful)
  }

  ghost predicate HasReplica(s: Spec, n: Node) {
    exists r <- s.replicas :: r.node == n
  }

  ghost predicate HasClient(s: Spec, n: Node) {
    exists c <- s.clients :: c.node == n
  }

  ghost predicate HasLegOn(s: Spec, n: Node) {
    HasReplica(s, n) || HasClient(s, n)
  }

  // ----- the rules -----

  ghost predicate OnePool(replicas: seq<Replica>) {
    forall r <- replicas, o <- replicas ::
      Diskful(r) && Completed(r) && Diskful(o) && Completed(o) ==> PoolOrDefault(r.pool) == PoolOrDefault(o.pool)
  }

  ghost predicate ReplicaRules(s: Spec) {
    && (if s.drbdPort.Some? then 2 <= |s.replicas| <= MAX_REPLICAS else |s.replicas| == 1)
    && (s.drbdPort.Some? ==> |DiskfulReplicas(s)| >= 2)
    && (s.drbdPort.None? ==> forall r <- s.replicas :: Diskful(r))
    && Diskful(s.replicas[0])
    && OnePool(s.replicas)
    && DistinctBy(s.replicas, NodeOf)
  }

  ghost predicate ClientRules(s: Spec) {
    && (s.clients != [] ==> s.drbdPort.Some? && s.exportFsType.None?)
    && (forall c <- s.clients :: !HasReplica(s, c.node))
    && DistinctBy(s.clients, ClientNodeOf)
    && |s.clients| <= MAX_CLIENTS
  }

  ghost predicate ValidSpec(s: Spec) {
    && s.sizeBytes >= 1
    && ReplicaRules(s)
    && ClientRules(s)
    && (s.exportFsType.Some? && s.drbdPort.Some? ==> s.quorum == Freeze)
  }

  /** What an update may not do to the entries that were there. */
  ghost predicate ReplicasMayBecome(before: seq<Replica>, next: seq<Replica>) {
    forall r <- next, o <- before :: o.node == r.node ==>
      && (Diskful(o) ==> Diskful(r))
      && (Diskful(o) && Completed(o) ==> PoolOrDefault(o.pool) == PoolOrDefault(r.pool))
  }

  ghost predicate ValidChange(before: Spec, next: Spec) {
    && ReplicasMayBecome(before.replicas, next.replicas)
    && before.drbdPort == next.drbdPort
    && before.exportFsType == next.exportFsType
    && before.source == next.source
    && before.sizeBytes <= next.sizeBytes
  }

  ghost predicate Accepted(before: Spec, next: Spec) {
    ValidSpec(next) && ValidChange(before, next)
  }

  // ----- DRBD node ids -----

  ghost predicate HoldsId(s: Spec, n: Node, id: int) {
    || (exists r <- s.replicas :: r.node == n && r.address != "" && r.nodeID == id)
    || (exists c <- s.clients :: c.node == n && c.address != "" && c.nodeID == id)
  }

  /** The completed legs of a volume, clients included, carry distinct ids in 0..4. */
  ghost predicate DistinctIds(s: Spec) {
    && (forall n, id | HoldsId(s, n, id) :: 0 <= id <= 4)
    && (forall n, m, id | HoldsId(s, n, id) && HoldsId(s, m, id) :: n == m)
  }

  /** The pool the diskful legs live in: that of the first completed diskful replica, or
      of the first diskful one. */
  function VolumePool(s: Spec): string {
    if exists r <- s.replicas :: Diskful(r) && Completed(r) then
      PoolOrDefault(Keep(s.replicas, r => Diskful(r) && Completed(r))[0].pool)
    else if DiskfulReplicas(s) != [] then PoolOrDefault(DiskfulReplicas(s)[0].pool)
    else DEFAULT_POOL
  }

  lemma VolumePoolIsTheirs(s: Spec, r: Replica)
    requires OnePool(s.replicas) && r in s.replicas && Diskful(r) && Completed(r)
    ensures VolumePool(s) == PoolOrDefault(r.pool)
  {
  }
}
