/** The agent's short-circuit for a replicated leg whose kernel state has not moved, against
    the full pass it stands in for. */
module FastPath {
  import opened BarrierTypes

  const DEEP_CHECK_INTERVAL: Seconds := 300
  const STALE_PROBE_THRESHOLD: Seconds := 2 * DEEP_CHECK_INTERVAL

  datatype DiskState = Blank | Diskless | UpToDate | Inconsistent | OtherState(name: string)

  /** The kernel's view of a resource. */
  datatype Kernel = Kernel(
    diskState: DiskState,
    primary: bool,
    peerPrimary: bool,
    suspended: bool,
    splitBrain: bool,
    resyncing: bool,
    verifying: bool,
    resyncPercent: real,
    quorum: bool,
    outOfSyncKiB: int,
    stuckPeers: set<int>,
    stalePeers: set<int>,
    unsettledPeers: set<int>,
    connected: map<int, bool>,
    peerDisk: map<int, DiskState>)

  /** The fingerprint comparison: everything but whether a verify is running. */
  predicate StatusEqual(a: Kernel, b: Kernel) {
    a == b.(verifying := a.verifying)
  }

  /** A node's status slot, less the fields the verify scheduler owns. */
  datatype Slot = Slot(
    deviceCreated: bool,
    minor: int,
    sizeBytes: int,
    diskState: DiskState,
    connected: bool,
    splitBrain: bool,
    diskless: bool,
    diskFailed: bool,
    discardGranularity: int,
    pool: string,
    message: string,
    primarySince: Option<Seconds>,
    lastProbedAt: Option<Seconds>)

  const NO_SLOT := Slot(false, 0, 0, Blank, false, false, false, false, 0, "", "", None, None)

  /** What a generation of the spec says about this node's leg. */
  datatype LegSpec = LegSpec(
    self: Node,
    sizeBytes: int,
    diskless: bool,
    pool: string,
    coordinator: bool,
    peerIDs: set<int>,
    diskful: seq<Node>)

  // ----- the full pass -----

  predicate PeersConnected(leg: LegSpec, st: Kernel) {
    forall id <- leg.peerIDs :: id in st.connected && st.connected[id]
  }

  function DiskFailedLatch(leg: LegSpec, prev: Slot, st: Kernel): bool {
    !leg.diskless && st.diskState == Diskless
    && (prev.diskFailed || (prev.diskState != Blank && prev.diskState != Diskless))
  }

  const DETACHED_MESSAGE := "backing device detached after an I/O error"

  function DetachedDiskMessage(failed: bool): string {
    if failed then DETACHED_MESSAGE else ""
  }

  function PrimarySince(prev: Slot, primary: bool, now: Seconds): Option<Seconds> {
    if !primary then None else if prev.primarySince.Some? then prev.primarySince else Some(now)
  }

  /** The size to report, and whether the pass ends on the ordinary poll: the coordinator
      withholds a size it has not grown the device to. */
  function Grow(leg: LegSpec, prev: Slot, st: Kernel, resized: bool): (int, bool) {
    if leg.coordinator && prev.sizeBytes < leg.sizeBytes && (st.diskState == Diskless || st.resyncing || !resized)
    then (prev.sizeBytes, false)
    else (leg.sizeBytes, true)
  }

  /** The slot a full pass publishes.  `free` is the minor the allocator would hand out. */
  function FullPass(leg: LegSpec, prev: Slot, st: Kernel, discard: int, free: int, resized: bool, now: Seconds): Slot {
    var failed := DiskFailedLatch(leg, prev, st);
    Slot(
      !leg.diskless,
      if prev.minor > 0 then prev.minor else free,
      Grow(leg, prev, st, resized).0,
      st.diskState,
      PeersConnected(leg, st),
      st.splitBrain,
      leg.diskless,
      failed,
      discard,
      if leg.diskless then "" else leg.pool,
      DetachedDiskMessage(failed),
      PrimarySince(prev, st.primary, now),
      Some(now))
  }

  /** Equal but for the probe time. */
  predicate SameSlot(a: Slot, b: Slot) {
    a == b.(lastProbedAt := a.lastProbedAt)
  }

  /** Repeating a pass that reported the full size changes nothing but the probe time. */
  lemma FullPassIdempotent(leg: LegSpec, prev: Slot, st: Kernel, again: Kernel, discard: int, free: int, free2: int,
                           resized: bool, resized2: bool, now: Seconds, next: Seconds)
    requires free > 0 && StatusEqual(st, again)
    requires Grow(leg, prev, st, resized).0 == leg.sizeBytes
    ensures var s := FullPass(leg, prev, st, discard, free, resized, now);
      SameSlot(FullPass(leg, s, again, discard, free2, resized2, next), s)
  {
    var s := FullPass(leg, prev, st, discard, free, resized, now);
    assert DiskFailedLatch(leg, s, again) == DiskFailedLatch(leg, prev, st);
  }

  // ----- phase -----

  datatype Phase = Creating | Ready | Degraded | Failed

  datatype Class = IsReady | IsRealized | IsFailed | IsAbsent

  predicate Stale(s: Slot, now: Seconds) {
    s.lastProbedAt.Some? && now - s.lastProbedAt.value > STALE_PROBE_THRESHOLD
  }

  function ClassOf(slots: map<Node, Slot>, n: Node, sizeBytes: int, now: Seconds): Class {
    if n !in slots then IsAbsent
    else
      var s := slots[n];
      if s.deviceCreated && s.sizeBytes >= sizeBytes && s.diskState == UpToDate then
        if s.connected && !Stale(s, now) then IsReady else IsRealized
      else if s.message != "" && !s.deviceCreated then IsFailed
      else IsAbsent
  }

  function CountOf(slots: map<Node, Slot>, nodes: seq<Node>, sizeBytes: int, now: Seconds, c: Class): nat {
    if nodes == [] then 0
    else CountOf(slots, nodes[..|nodes| - 1], sizeBytes, now, c)
         + if ClassOf(slots, nodes[|nodes| - 1], sizeBytes, now) == c then 1 else 0
  }

  /** The phase, and how many of the diskful legs are ready. */
  function PhaseAt(slots: map<Node, Slot>, nodes: seq<Node>, sizeBytes: int, now: Seconds): (Phase, nat) {
    var ready := CountOf(slots, nodes, sizeBytes, now, IsReady);
    var realized := ready + CountOf(slots, nodes, sizeBytes, now, IsRealized);
    (if CountOf(slots, nodes, sizeBytes, now, IsFailed) > 0 then Failed
     else if ready == |nodes| then Ready
     else if realized > 0 then Degraded
     else Creating, ready)
  }

  method ComputePhaseAt(
    slots: map<Node, Slot>, nodes: seq<Node>, sizeBytes: int, now: Seconds)
    returns (phase: Phase, ready: nat)
    ensures (phase, ready) == PhaseAt(slots, nodes, sizeBytes, now)
  {
    var realized, failed := 0, false;
    ready := 0;
    for i := 0 to |nodes|
      invariant ready == CountOf(slots, nodes[..i], sizeBytes, now, IsReady)
      invariant realized == ready + CountOf(slots, nodes[..i], sizeBytes, now, IsRealized)
      invariant failed <==> CountOf(slots, nodes[..i], sizeBytes, now, IsFailed) > 0
    {
      assert nodes[..i + 1][..i] == nodes[..i];
      if nodes[i] in slots {
        var s := slots[nodes[i]];
        if s.deviceCreated && s.sizeBytes >= sizeBytes && s.diskState == UpToDate {
          realized := realized + 1;
          if s.connected && !Stale(s, now) {
            ready := ready + 1;
          }
        } else if s.message != "" && !s.deviceCreated {
          failed := true;
        }
      }
    }
    assert nodes[..|nodes|] == nodes;
    phase := if failed then Failed else if ready == |nodes| then Ready else if realized > 0 then Degraded else Creating;
  }

  lemma {:induction false} CountSame(
    a: map<Node, Slot>, b: map<Node, Slot>, nodes: seq<Node>, sizeBytes: int, now: Seconds, c: Class)
    requires forall n <- nodes :: ClassOf(a, n, sizeBytes, now) == ClassOf(b, n, sizeBytes, now)
    ensures CountOf(a, nodes, sizeBytes, now, c) == CountOf(b, nodes, sizeBytes, now, c)
  {
    if nodes != [] {
      CountSame(a, b, nodes[..|nodes| - 1], sizeBytes, now, c);
    }
  }

  /** A slot renewed while its last probe was not stale counts as before. */
  lemma PhaseSame(slots: map<Node, Slot>, leg: LegSpec, mine: Slot, now: Seconds)
    requires leg.self in slots && SameSlot(mine, slots[leg.self])
    requires !Stale(slots[leg.self], now) && !Stale(mine, now)
    ensures PhaseAt(slots[leg.self := mine], leg.diskful, leg.sizeBytes, now) ==
            PhaseAt(slots, leg.diskful, leg.sizeBytes, now)
  {
    var a, b := slots[leg.self := mine], slots;
    assert forall n <- leg.diskful :: ClassOf(a, n, leg.sizeBytes, now) == ClassOf(b, n, leg.sizeBytes, now);
    CountSame(a, b, leg.diskful, leg.sizeBytes, now, IsReady);
    CountSame(a, b, leg.diskful, leg.sizeBytes, now, IsRealized);
    CountSame(a, b, leg.diskful, leg.sizeBytes, now, IsFailed);
  }

  // ----- the agent -----

  datatype Entry = Entry(generation: nat, status: Kernel, fullPassAt: Seconds)

  /** One leg's agent and the volume object: `slots` are everyone's, the phase is the one
      published last by anyone. */
  datatype Sys = Sys(
    now: Seconds,
    generation: nat,
    leg: LegSpec,
    slots: map<Node, Slot>,
    phase: (Phase, nat),
    activated: bool,
    entry: Option<Entry>)

  datatype Step =
    | Tick(d: nat)
    | EditSpec(leg: LegSpec)
    | PeerWrite(n: Node, slot: Slot, phase: (Phase, nat), activated: bool)
    | RunFullPass(st: Kernel, discard: int, free: int, resized: bool, recovering: bool, took: nat)
    | FailPass(slot: Slot)
    | Restart

  /** From a pass's probe to the fingerprint it stores at most `delay` seconds go by. */
  ghost predicate Enabled(delay: nat, s: Sys, step: Step) {
    match step
    case EditSpec(leg) => leg.self == s.leg.self
    case PeerWrite(n, _, _, _) => n != s.leg.self
    case RunFullPass(_, _, free, _, _, took) => free > 0 && took <= delay
    case _ => true
  }

  function SlotOf(s: Sys): Slot {
    if s.leg.self in s.slots then s.slots[s.leg.self] else NO_SLOT
  }

  function Published(s: Sys, slot: Slot): Sys {
    var slots := s.slots[s.leg.self := slot];
    s.(slots := slots, phase := PhaseAt(slots, s.leg.diskful, s.leg.sizeBytes, s.now))
  }

  function DoFullPass(s: Sys, st: Kernel, discard: int, free: int, resized: bool, recovering: bool, took: nat): Sys {
    var slot := FullPass(s.leg, SlotOf(s), st, discard, free, resized, s.now);
    var (size, poll) := Grow(s.leg, SlotOf(s), st, resized);
    var settled := poll && size == s.leg.sizeBytes && !recovering;
    Published(s, slot).(
      now := s.now + took,
      activated := s.activated || st.primary,
      entry := if settled then Some(Entry(s.generation, st, s.now + took)) else None)
  }

  function Apply(s: Sys, step: Step): Sys {
    match step
    case Tick(d) => s.(now := s.now + d)
    case EditSpec(leg) => s.(leg := leg, generation := s.generation + 1)
    case PeerWrite(n, slot, phase, activated) => s.(slots := s.slots[n := slot], phase := phase, activated := activated)
    case RunFullPass(st, discard, free, resized, recovering, took) =>
      DoFullPass(s, st, discard, free, resized, recovering, took)
    case FailPass(slot) => Published(s, slot).(entry := None)
    case Restart => s.(entry := None)
  }

  /** The short-circuit settles the reconcile. */
  ghost predicate FastPathHits(s: Sys, st: Kernel) {
    && s.entry.Some? && s.entry.value.generation == s.generation
    && s.now - s.entry.value.fullPassAt < DEEP_CHECK_INTERVAL
    && (s.leg.diskless || SlotOf(s).sizeBytes == s.leg.sizeBytes)
    && PhaseAt(s.slots, s.leg.diskful, s.leg.sizeBytes, s.now) == s.phase
    && StatusEqual(st, s.entry.value.status)
    && (PeersConnected(s.leg, st) || forall n <- s.slots :: n != s.leg.self ==> !s.slots[n].splitBrain)
    && (st.primary ==> s.activated)
  }

  /** What a fingerprint's own age, always short of a deep check, leaves of the time in which
      a probe goes stale.  The clock counts whole seconds. */
  const LONGEST_DELAY: Seconds := STALE_PROBE_THRESHOLD - (DEEP_CHECK_INTERVAL - 1)

  /** A stored fingerprint of the current spec says the slot is what a full pass over that
      kernel status publishes, on top of itself. */
  ghost predicate Fingerprint(s: Sys) {
    s.entry.Some? ==>
      && s.entry.value.generation <= s.generation && s.entry.value.fullPassAt <= s.now
      && (s.entry.value.generation == s.generation ==>
            && s.leg.self in s.slots
            && s.slots[s.leg.self].lastProbedAt.Some?
            && s.entry.value.fullPassAt - s.slots[s.leg.self].lastProbedAt.value <= LONGEST_DELAY
            && s.slots[s.leg.self].lastProbedAt.value <= s.now
            && Fixpoint(s.leg, s.slots[s.leg.self], s.entry.value.status))
  }

  ghost predicate Fixpoint(leg: LegSpec, slot: Slot, status: Kernel) {
    forall st, free, resized, now | StatusEqual(status, st) ::
      SameSlot(FullPass(leg, slot, st, slot.discardGranularity, free, resized, now), slot)
  }

  lemma FingerprintStep(s: Sys, step: Step)
    requires Fingerprint(s) && Enabled(LONGEST_DELAY, s, step)
    ensures Fingerprint(Apply(s, step))
  {
    if step.RunFullPass? {
      StoredIsFixpoint(s, step.st, step.discard, step.free, step.resized, step.recovering, step.took);
    }
  }

  lemma StoredIsFixpoint(s: Sys, st: Kernel, discard: int, free: int, resized: bool, recovering: bool, took: nat)
    requires free > 0 && took <= LONGEST_DELAY
    ensures Fingerprint(DoFullPass(s, st, discard, free, resized, recovering, took))
  {
    var t := DoFullPass(s, st, discard, free, resized, recovering, took);
    if t.entry.Some? {
      var slot := t.slots[t.leg.self];
      forall again, free2, resized2, next | StatusEqual(st, again)
        ensures SameSlot(FullPass(s.leg, slot, again, slot.discardGranularity, free2, resized2, next), slot)
      {
        FullPassIdempotent(s.leg, SlotOf(s), st, again, discard, free, free2, resized, resized2, s.now, next);
      }
    }
  }

  function After(s: Sys, steps: seq<Step>): Sys {
    if steps == [] then s else Apply(After(s, steps[..|steps| - 1]), steps[|steps| - 1])
  }

  ghost predicate Legal(delay: nat, s: Sys, steps: seq<Step>) {
    steps == [] ||
    (var before := steps[..|steps| - 1];
     Legal(delay, s, before) && Enabled(delay, After(s, before), steps[|steps| - 1]))
  }

  lemma {:induction false} FingerprintRun(delay: nat, s: Sys, steps: seq<Step>)
    requires delay <= LONGEST_DELAY && s.entry.None? && Legal(delay, s, steps)
    ensures Fingerprint(After(s, steps))
    decreases |steps|
  {
    if steps != [] {
      FingerprintRun(delay, s, steps[..|steps| - 1]);
      FingerprintStep(After(s, steps[..|steps| - 1]), steps[|steps| - 1]);
    }
  }

  // ----- main results -----

  /** A full pass over the same spec, kernel status, slot and discard probe would publish
      the slot that is there, probe time aside, and the phase that is there. */
  ghost predicate NothingToPublish(t: Sys, st: Kernel, free: int, resized: bool) {
    var slot := FullPass(t.leg, SlotOf(t), st, SlotOf(t).discardGranularity, free, resized, t.now);
    SameSlot(slot, SlotOf(t)) && Published(t, slot).phase == t.phase
  }

  /** The fast path refines the full pass: whenever it settles a reconcile, in any run, the
      full pass had nothing to publish. */
  lemma FastPathRefines(delay: nat, s: Sys, steps: seq<Step>, st: Kernel, free: int, resized: bool)
    requires delay <= LONGEST_DELAY && s.entry.None? && Legal(delay, s, steps) && FastPathHits(After(s, steps), st)
    ensures NothingToPublish(After(s, steps), st, free, resized)
  {
    FingerprintRun(delay, s, steps);
    var t := After(s, steps);
    var slot := FullPass(t.leg, SlotOf(t), st, SlotOf(t).discardGranularity, free, resized, t.now);
    assert Fixpoint(t.leg, SlotOf(t), t.entry.value.status);
    assert StatusEqual(t.entry.value.status, st);
    PhaseSame(t.slots, t.leg, slot, t.now);
  }

  ghost predicate Refines(delay: nat) {
    forall s: Sys, steps, st, free, resized |
      s.entry.None? && Legal(delay, s, steps) && FastPathHits(After(s, steps), st) ::
      NothingToPublish(After(s, steps), st, free, resized)
  }

  const CALM := Kernel(UpToDate, false, false, false, false, false, false, 0.0, true, 0, {}, {}, {}, map[], map[])

  /** A fingerprint stored one second later still outlives its probe: in the last second
      before the deep check a peer calls the leg stale and publishes Degraded, which the
      fast path leaves and a full pass would mend. */
  lemma SlowWriteDiffers(delay: nat)
    requires delay > LONGEST_DELAY
    ensures !Refines(delay)
  {
    var leg := LegSpec(0, 1, false, "", false, {}, [0]);
    var s := Sys(0, 0, leg, map[], (Creating, 0), false, None);
    var pass := RunFullPass(CALM, 0, 1000, true, false, LONGEST_DELAY + 1);
    var wait := Tick(DEEP_CHECK_INTERVAL - 1);
    var peer := PeerWrite(1, NO_SLOT, (Degraded, 0), false);
    var steps := [pass, wait, peer];
    assert steps[..2] == [pass, wait] && [pass, wait][..1] == [pass] && [pass][..0] == [];
    assert Legal(delay, s, []) && Legal(delay, s, [pass]) && Legal(delay, s, [pass, wait]) && Legal(delay, s, steps);
    var t := After(s, steps);
    assert After(s, [pass]) == Apply(s, pass) && After(s, [pass, wait]) == Apply(Apply(s, pass), wait);
    assert t == Apply(Apply(Apply(s, pass), wait), peer);
    OneLeg(t.slots, t.now);
    assert FastPathHits(t, CALM);
    var slot := FullPass(t.leg, SlotOf(t), CALM, 0, 1000, true, t.now);
    OneLeg(t.slots[0 := slot], t.now);
    assert !NothingToPublish(t, CALM, 1000, true);
  }

  lemma OneLeg(slots: map<Node, Slot>, now: Seconds)
    ensures PhaseAt(slots, [0], 1, now) ==
      match ClassOf(slots, 0, 1, now)
      case IsReady => (Ready, 1)
      case IsRealized => (Degraded, 0)
      case IsFailed => (Failed, 0)
      case IsAbsent => (Creating, 0)
  {
    forall c ensures CountOf(slots, [0], 1, now, c) == if ClassOf(slots, 0, 1, now) == c then 1 else 0 {
      assert [0][..0] == [] && CountOf(slots, [], 1, now, c) == 0;
    }
  }

  /** The refinement holds in every run exactly when no fingerprint is stored later after its
      probe than what the stale threshold leaves beyond a deep-check interval. */
  lemma FastPathExactly(delay: nat)
    ensures Refines(delay) <==> delay <= LONGEST_DELAY
  {
    if delay > LONGEST_DELAY {
      SlowWriteDiffers(delay);
    } else {
      forall s: Sys, steps, st, free, resized |
        s.entry.None? && Legal(delay, s, steps) && FastPathHits(After(s, steps), st)
        ensures NothingToPublish(After(s, steps), st, free, resized)
      {
        FastPathRefines(delay, s, steps, st, free, resized);
      }
    }
  }

  // ----- the cache, as it runs -----

  method PeerReportedSplitBrain(slots: map<Node, Slot>, self: Node) returns (b: bool)
    ensures b <==> exists n <- slots :: n != self && slots[n].splitBrain
  {
    var left := slots.Keys;
    while left != {}
      invariant left <= slots.Keys && forall n <- slots.Keys - left :: n != self ==> !slots[n].splitBrain
    {
      var n :| n in left;
      if n != self && slots[n].splitBrain {
        return true;
      }
      left := left - {n};
    }
    return false;
  }

  class Realized {
    var entry: Option<Entry>

    constructor ()
      ensures entry == None
    {
      entry := None;
    }

    method Drop()
      modifies this
      ensures entry == None
    {
      entry := None;
    }

    /** Stores what the full pass of the model stores. */
    method StoreIfSettled(s: Sys, st: Kernel, resized: bool, recovering: bool, took: nat)
      modifies this
      ensures entry == if DoFullPass(s, st, 0, 1, resized, recovering, took).entry.Some?
                       then DoFullPass(s, st, 0, 1, resized, recovering, took).entry else old(entry)
    {
      var (size, poll) := Grow(s.leg, SlotOf(s), st, resized);
      if poll && size == s.leg.sizeBytes && !recovering {
        entry := Some(Entry(s.generation, st, s.now + took));
      }
    }

    /** The short-circuit test, in the order it is made. */
    method FastPath(s: Sys, st: Kernel) returns (hit: bool)
      ensures hit <==> FastPathHits(s.(entry := entry), st)
    {
      if entry.None? || entry.value.generation != s.generation || s.now - entry.value.fullPassAt >= DEEP_CHECK_INTERVAL
         || (!s.leg.diskless && SlotOf(s).sizeBytes != s.leg.sizeBytes) {
        return false;
      }
      var phase, ready := ComputePhaseAt(s.slots, s.leg.diskful, s.leg.sizeBytes, s.now);
      if (phase, ready) != s.phase {
        return false;
      }
      if !StatusEqual(st, entry.value.status) {
        return false;
      }
      var split := PeerReportedSplitBrain(s.slots, s.leg.self);
      if !PeersConnected(s.leg, st) && split {
        return false;
      }
      return !st.primary || s.activated;
    }
  }
}
