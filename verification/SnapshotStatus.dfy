/** The status object of one replicated snapshot and what the agents write into it.

    A round is open while `ioSuspended` holds; it is named by `suspendedAt`, the second
    at which its coordinator opened it.  The functions here are the whole-status writes
    of the coordinator; `SnapshotAgent` is the imperative form of the code paths that
    perform them, loop by loop. */
module SnapshotStatus {
  import opened BarrierTypes

  datatype Status = Status(
    readyToUse: bool,
    ioSuspended: bool,
    suspendedAt: Option<Seconds>,
    perNode: map<Node, SlotState>)

  function Slot(st: Status, n: Node): SlotState {
    if n in st.perNode then st.perNode[n] else Unset
  }

  predicate Expired(st: Status, now: Seconds) {
    st.suspendedAt.Some? && now - st.suspendedAt.value > SUSPEND_DEADLINE
  }

  /** The stale-barrier sweep's test for a round it must leave alone.  At the deadline
      second itself a round is neither fresh here nor expired above. */
  predicate Fresh(st: Status, now: Seconds) {
    st.ioSuspended && st.suspendedAt.Some? && now - st.suspendedAt.value < SUSPEND_DEADLINE
  }

  predicate AllRaised(st: Status, diskful: set<Node>) {
    forall n <- diskful :: Raised(Slot(st, n))
  }

  predicate AllDone(st: Status, diskful: set<Node>) {
    forall n <- diskful :: Slot(st, n) == Done
  }

  /** The coordinator's opening write: every other diskful slot starts over. */
  function OpenStatus(st: Status, diskful: set<Node>, self: Node, now: Seconds): Status {
    st.(ioSuspended := true,
        suspendedAt := Some(now),
        perNode := (st.perNode + map n | n in diskful && n != self :: Pending)[self := Suspended])
  }

  /** Slots started over for some nodes but those left out. */
  function Pended(base: map<Node, SlotState>, nodes: seq<Node>, but: set<Node>): map<Node, SlotState> {
    base + map n | n in nodes && n !in but :: Pending
  }

  lemma PendOne(base: map<Node, SlotState>, nodes: seq<Node>, i: nat, but: set<Node>)
    requires i < |nodes|
    ensures Pended(base, nodes[..i + 1], but) ==
            if nodes[i] in but then Pended(base, nodes[..i], but)
            else Pended(base, nodes[..i], but)[nodes[i] := Pending]
  {
    assert nodes[..i + 1] == nodes[..i] + [nodes[i]];
  }

  lemma PendAll(base: map<Node, SlotState>, nodes: seq<Node>, but: set<Node>)
    ensures Pended(base, nodes[..|nodes|], but) == base + map n | n in (set m | m in nodes) && n !in but :: Pending
  {
    assert nodes[..|nodes|] == nodes;
  }

  function SealStatus(st: Status): Status {
    st.(ioSuspended := false, readyToUse := true)
  }

  function VoidStatus(st: Status, diskful: set<Node>, self: Node, now: Seconds): Status {
    st.(ioSuspended := false,
        suspendedAt := Some(now),
        perNode := (st.perNode + map n | n in diskful :: Pending)[self := Error])
  }

  /** What one pass of the coordinator's last phase leaves behind. */
  function CollectStatus(st: Status, diskful: set<Node>, self: Node, now: Seconds): Status {
    if AllDone(st, diskful) then SealStatus(st)
    else if Expired(st, now) then VoidStatus(st, diskful, self, now)
    else st
  }

  /** A peer's slot write: a JSON Patch whose two "test" operations fence it to the
      round the writer observed (section 4.6 of RFC 6902). */
  function FencedSlotWrite(st: Status, n: Node, round: Seconds, x: SlotState): Status {
    if st.ioSuspended && st.suspendedAt == Some(round) then st.(perNode := st.perNode[n := x]) else st
  }

  datatype Action = Idle | Open | Raise | Cut | Collect | Lift

  /** What one node knows when its reconcile pass starts. */
  datatype View = View(
    status: Status,
    now: Seconds,
    coordinator: bool,
    localDiskful: bool,
    healthy: bool,
    suspended: bool,     // the kernel flag of the local leg
    gated: bool,         // published disk state empty, or published split-brain
    slot: SlotState,
    allRaised: bool)

  /** The last round failed too recently for its coordinator to try again. */
  predicate InBackoff(st: Status, slot: SlotState, now: Seconds) {
    slot == Error && st.suspendedAt.Some? && now - st.suspendedAt.value < SUSPEND_RETRY_BACKOFF
  }

  /** The reconcile pass's choice, branch for branch. */
  function Decide(v: View): Action {
    var io := v.status.ioSuspended;
    var expired := Expired(v.status, v.now);
    if v.status.readyToUse then (if v.suspended then Lift else Idle)
    else if v.gated then Idle
    else if v.coordinator && !io && v.healthy && !v.suspended then
      (if InBackoff(v.status, v.slot, v.now) then Idle else Open)
    else if !v.coordinator && v.localDiskful && io && !expired && v.healthy && !Raised(v.slot) then Raise
    else if v.localDiskful && io && !expired && v.healthy && v.slot == Suspended && v.allRaised then Cut
    else if v.coordinator && io then Collect
    else if io && expired && v.suspended then Lift
    else if !io && v.suspended then Lift
    else Idle
  }

  /** How an attempt to open a round ends. */
  datatype Opening = BackedOff | Deferred | SuspendFailed | Opened

  /** One agent's hands on one snapshot: the status as it last read or wrote it, and the
      kernel barrier of its own leg.  `siblingActive` is the answer of the sibling-round
      check, `suspendOk` the outcome of suspend-io. */
  class SnapshotAgent {
    const self: Node
    const diskful: seq<Node>
    var status: Status
    var barrier: bool

    constructor (self: Node, diskful: seq<Node>, status: Status, barrier: bool)
      ensures this.self == self && this.diskful == diskful
      ensures this.status == status && this.barrier == barrier
    {
      this.self, this.diskful := self, diskful;
      this.status, this.barrier := status, barrier;
    }

    ghost function Legs(): set<Node> {
      set n | n in diskful
    }

    method AllSuspended() returns (all: bool)
      ensures all == AllRaised(status, Legs())
    {
      for i := 0 to |diskful|
        invariant forall j | 0 <= j < i :: Raised(Slot(status, diskful[j]))
      {
        if !Raised(Slot(status, diskful[i])) {
          assert diskful[i] in Legs();
          return false;
        }
      }
      return true;
    }

    method CountDone() returns (done: nat)
      ensures done <= |diskful|
      ensures done == |diskful| <==> AllDone(status, Legs())
    {
      done := 0;
      for i := 0 to |diskful|
        invariant done <= i
        invariant done == i <==> forall j | 0 <= j < i :: Slot(status, diskful[j]) == Done
      {
        if Slot(status, diskful[i]) == Done {
          done := done + 1;
        }
      }
      assert forall j | 0 <= j < |diskful| :: diskful[j] in Legs();
    }

    /** Phase one as coordinator: not within the backoff, and not beside a live sibling
        round.  A suspend-io that reports failure may have set the kernel flag all the same
        (`flagSet`); it is lifted unless a sibling round is live by then. */
    method OpenRound(now: Seconds, siblingBefore: bool, suspendOk: bool, flagSet: bool, siblingAfter: bool)
      returns (r: Opening)
      modifies this
      ensures r == BackedOff <==> InBackoff(old(status), Slot(old(status), self), now)
      ensures r == Deferred <==> r != BackedOff && siblingBefore
      ensures r == Opened <==> r != BackedOff && r != Deferred && suspendOk
      ensures r == Opened ==> barrier && status == OpenStatus(old(status), Legs(), self, now)
      ensures r != Opened ==> status == old(status)
      ensures r == BackedOff || r == Deferred ==> barrier == old(barrier)
      ensures r == SuspendFailed ==> barrier == ((old(barrier) || flagSet) && siblingAfter)
    {
      if Slot(status, self) == Error && status.suspendedAt.Some?
         && now - status.suspendedAt.value < SUSPEND_RETRY_BACKOFF {
        return BackedOff;
      }
      if siblingBefore {
        return Deferred;
      }
      barrier := barrier || suspendOk || flagSet;
      if !suspendOk {
        if !siblingAfter {
          barrier := false;
        }
        return SuspendFailed;
      }
      StartRound(now);
      return Opened;
    }

    method StartRound(now: Seconds)
      modifies this`status
      ensures status == OpenStatus(old(status), Legs(), self, now)
    {
      var slots := PeersPending(status.perNode);
      status := status.(ioSuspended := true, suspendedAt := Some(now), perNode := slots[self := Suspended]);
    }

    method PeersPending(base: map<Node, SlotState>) returns (slots: map<Node, SlotState>)
      ensures slots == base + map n | n in Legs() && n != self :: Pending
    {
      slots := base;
      for i := 0 to |diskful|
        invariant slots == Pended(base, diskful[..i], {self})
      {
        PendOne(base, diskful, i, {self});
        if diskful[i] != self {
          slots := slots[diskful[i] := Pending];
        }
      }
      PendAll(base, diskful, {self});
    }

    /** Phase one as peer: suspend, then send the fenced slot write.  The write is
        returned, not performed: it lands in the API server at some later time. */
    method RaiseBarrier(suspendOk: bool, flagSet: bool, siblingActive: bool) returns (write: Option<SlotState>)
      modifies this`barrier
      ensures suspendOk ==> barrier && write == Some(Suspended)
      ensures !suspendOk ==> write == None && barrier == ((old(barrier) || flagSet) && siblingActive)
    {
      barrier := barrier || suspendOk || flagSet;
      if suspendOk {
        return Some(Suspended);
      }
      if !siblingActive {
        barrier := false;
      }
      return None;
    }

    method CollectLegs(now: Seconds, siblingActive: bool)
      requires status.ioSuspended
      modifies this
      ensures status == CollectStatus(old(status), Legs(), self, now)
      ensures barrier == (old(barrier) && (siblingActive || status.ioSuspended))
    {
      var expired := status.suspendedAt.Some? && now - status.suspendedAt.value > SUSPEND_DEADLINE;
      var done := CountDone();
      if done < |diskful| && !expired {
        return;
      }
      if !siblingActive {
        barrier := false;
      }
      if done == |diskful| {
        status := status.(ioSuspended := false, readyToUse := true);
        return;
      }
      VoidRound(now);
    }

    method VoidRound(now: Seconds)
      modifies this`status
      ensures status == VoidStatus(old(status), Legs(), self, now)
    {
      var slots := LegsPending(status.perNode);
      status := status.(ioSuspended := false, suspendedAt := Some(now), perNode := slots[self := Error]);
    }

    method LegsPending(base: map<Node, SlotState>) returns (slots: map<Node, SlotState>)
      ensures slots == base + map n | n in Legs() :: Pending
    {
      slots := base;
      for i := 0 to |diskful|
        invariant slots == Pended(base, diskful[..i], {})
      {
        PendOne(base, diskful, i, {});
        slots := slots[diskful[i] := Pending];
      }
      PendAll(base, diskful, {});
    }
  }
}
