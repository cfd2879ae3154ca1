/** The write-barrier protocol of one replicated snapshot, as a state machine over every
    interleaving of the agents, the kernel and the API server.

    Content model: a write happens only at the single Primary, only while the Primary's
    own barrier is down, and lands on every leg in sync.  A peer's suspend or cut and the
    slot write that reports it are separate steps, with any delay, loss or agent crash in
    between; a cut is two steps (admitted and old snapshot deleted, then taken).  Sibling
    rounds over the same volume appear as steps that raise the shared kernel flag at any
    time and lift it whenever this snapshot's round is not recorded open, which is all
    the sibling-round check allows them.

    `Env` lists four liberties the environment may or may not take.  The protocol cuts
    identical legs in every run exactly when it takes none of them. */
module SnapshotRound {
  import opened BarrierTypes
  import opened SnapshotStatus

  type Content = int

  datatype Env = Env(
    lateCut: bool,            // a cut may be taken at the deadline second itself
    overlappingRecut: bool,   // a leg may be cut again while its earlier Done is in flight
    liftOverWrite: bool,      // a failed suspend-io may lift while a Suspended is in flight
    disklessPromotion: bool)  // a diskless leg may become Primary while the round is open

  predicate Strict(e: Env) {
    !e.lateCut && !e.overlappingRecut && !e.liftOverWrite && !e.disklessPromotion
  }

  datatype Config = Config(diskful: set<Node>, diskless: set<Node>, env: Env)

  predicate ValidConfig(c: Config) {
    c.diskful != {} && c.diskful !! c.diskless
  }

  datatype SlotWrite = SlotWrite(node: Node, round: Seconds, state: SlotState)

  datatype LegCut = LegCut(round: Seconds, content: Content)

  datatype Sys = Sys(
    now: Seconds,
    status: Status,
    origin: map<Node, Seconds>,   // history: the round each slot was last written for
    barrier: set<Node>,           // nodes whose kernel flag is up
    gated: set<Node>,             // nodes whose published status stops the reconcile early
    primary: Option<Node>,
    current: Content,
    leg: map<Node, Content>,
    inSync: set<Node>,            // connected, UpToDate diskful legs
    cut: map<Node, LegCut>,       // backend snapshots that exist
    cutting: map<Node, Seconds>,  // agents between deleting and taking a snapshot
    writes: set<SlotWrite>)       // slot writes sent and not yet landed

  datatype Step =
    | Tick(d: nat)
    | Promote(p: Option<Node>)
    | Write(content: Content)
    | Degrade(n: Node)
    | Resync(n: Node)
    | Gate(n: Node, on: bool)
    | Act(n: Node, coordinator: bool, lifted: bool)
    | FailedRaise(n: Node, coordinator: bool)
    | TakeCut(n: Node)
    | Crash(n: Node)
    | Land(w: SlotWrite)
    | Lose(w: SlotWrite)
    | Sweep(n: Node)
    | SiblingRaise(n: Node)
    | SiblingLift(n: Node)

  predicate Initial(c: Config, s: Sys) {
    && s.status == Status(false, false, None, map[])
    && s.leg.Keys == c.diskful && s.inSync == c.diskful
    && (forall n <- c.diskful :: s.leg[n] == s.current)
    && s.cut == map[] && s.cutting == map[] && s.writes == {} && s.origin == map[]
    && (s.primary.Some? ==> s.primary.value in c.diskful + c.diskless)
  }

  /** The Primary coordinates; with none, some diskful node does (`Election` says which). */
  predicate MayCoordinate(c: Config, s: Sys, n: Node, coordinator: bool) {
    match s.primary
    case Some(p) => coordinator == (n == p)
    case None => coordinator ==> n in c.diskful
  }

  function ViewOf(c: Config, s: Sys, n: Node, coordinator: bool): View {
    View(s.status, s.now, coordinator, n in c.diskful, s.inSync == c.diskful,
         n in s.barrier, n in s.gated, Slot(s.status, n), AllRaised(s.status, c.diskful))
  }

  function Choice(c: Config, s: Sys, n: Node, coordinator: bool): Action {
    Decide(ViewOf(c, s, n, coordinator))
  }

  predicate Outstanding(s: Sys, n: Node, x: SlotState) {
    s.status.suspendedAt.Some? && SlotWrite(n, s.status.suspendedAt.value, x) in s.writes
  }

  predicate Enabled(c: Config, s: Sys, step: Step) {
    var members := c.diskful + c.diskless;
    match step
    case Tick(_) => true
    case Promote(p) =>
      && (p.Some? ==> p.value in members)
      && (p.Some? && p != s.primary && p.value in c.diskless && s.status.ioSuspended ==> c.env.disklessPromotion)
    case Write(_) => s.primary.Some? && s.primary.value !in s.barrier
    case Degrade(n) => n in s.inSync && s.inSync != {n}
    case Resync(n) => n in c.diskful
    case Gate(n, _) => true
    case Act(n, coordinator, _) =>
      && n in members && n !in s.cutting && MayCoordinate(c, s, n, coordinator)
      && (Choice(c, s, n, coordinator) == Cut && Outstanding(s, n, Done) ==> c.env.overlappingRecut)
    case FailedRaise(n, coordinator) =>
      && n in members && n !in s.cutting && MayCoordinate(c, s, n, coordinator)
      && Choice(c, s, n, coordinator) in {Open, Raise}
      && (Outstanding(s, n, Suspended) && s.status.ioSuspended ==> c.env.liftOverWrite)
    case TakeCut(n) =>
      && n in s.cutting
      && (s.now - s.cutting[n] < SUSPEND_DEADLINE || (c.env.lateCut && s.now - s.cutting[n] <= SUSPEND_DEADLINE))
    case Crash(n) => true
    case Land(w) => w in s.writes
    case Lose(w) => w in s.writes
    case Sweep(n) => !Fresh(s.status, s.now)
    case SiblingRaise(n) => true
    case SiblingLift(n) => !s.status.ioSuspended
  }

  function DoOpen(c: Config, s: Sys, n: Node): Sys {
    s.(barrier := s.barrier + {n},
       status := OpenStatus(s.status, c.diskful, n, s.now),
       origin := s.origin[n := s.now])
  }

  function DoRaise(s: Sys, n: Node): Sys
    requires s.status.suspendedAt.Some?
  {
    s.(barrier := s.barrier + {n},
       writes := s.writes + {SlotWrite(n, s.status.suspendedAt.value, Suspended)})
  }

  /** The leg's barrier is re-asserted and any leftover snapshot deleted. */
  function DoAdmitCut(s: Sys, n: Node): Sys
    requires s.status.suspendedAt.Some?
  {
    s.(barrier := s.barrier + {n},
       cut := s.cut - {n},
       cutting := s.cutting[n := s.status.suspendedAt.value])
  }

  function DoCollect(c: Config, s: Sys, n: Node, lifted: bool): Sys {
    var st := CollectStatus(s.status, c.diskful, n, s.now);
    s.(status := st, barrier := if lifted && !st.ioSuspended then s.barrier - {n} else s.barrier)
  }

  function DoTakeCut(s: Sys, n: Node): Sys
    requires n in s.cutting && n in s.leg
  {
    s.(cut := s.cut[n := LegCut(s.cutting[n], s.leg[n])],
       writes := s.writes + {SlotWrite(n, s.cutting[n], Done)},
       cutting := s.cutting - {n})
  }

  function DoLand(s: Sys, w: SlotWrite): Sys {
    var st := FencedSlotWrite(s.status, w.node, w.round, w.state);
    s.(writes := s.writes - {w},
       status := st,
       origin := if s.status.ioSuspended && s.status.suspendedAt == Some(w.round)
                 then s.origin[w.node := w.round] else s.origin)
  }

  function DoWrite(s: Sys, x: Content): Sys {
    s.(current := x, leg := map n | n in s.leg :: if n in s.inSync then x else s.leg[n])
  }

  function Apply(c: Config, s: Sys, step: Step): Sys
    requires Enabled(c, s, step)
  {
    match step
    case Tick(d) => s.(now := s.now + d)
    case Promote(p) => s.(primary := p)
    case Write(x) => DoWrite(s, x)
    case Degrade(n) => s.(inSync := s.inSync - {n})
    case Resync(n) => s.(inSync := s.inSync + {n}, leg := s.leg[n := s.current])
    case Gate(n, on) => s.(gated := if on then s.gated + {n} else s.gated - {n})
    case Act(n, coordinator, lifted) =>
      (match Choice(c, s, n, coordinator)
       case Idle => s
       case Open => DoOpen(c, s, n)
       case Raise => if s.status.suspendedAt.Some? then DoRaise(s, n) else s
       case Cut => if s.status.suspendedAt.Some? then DoAdmitCut(s, n) else s
       case Collect => DoCollect(c, s, n, lifted)
       case Lift => if lifted then s.(barrier := s.barrier - {n}) else s)
    case FailedRaise(n, _) => s.(barrier := s.barrier - {n})
    case TakeCut(n) => if n in s.leg then DoTakeCut(s, n) else s
    case Crash(n) => s.(cutting := s.cutting - {n})
    case Land(w) => DoLand(s, w)
    case Lose(w) => s.(writes := s.writes - {w})
    case Sweep(n) => s.(barrier := s.barrier - {n})
    case SiblingRaise(n) => s.(barrier := s.barrier + {n})
    case SiblingLift(n) => s.(barrier := s.barrier - {n})
  }

  // ----- runs -----

  ghost predicate Legal(c: Config, s: Sys, steps: seq<Step>)
    decreases |steps|, 0
  {
    steps == [] ||
    (var before := steps[..|steps| - 1];
     Legal(c, s, before) && Enabled(c, After(c, s, before), steps[|steps| - 1]))
  }

  ghost function After(c: Config, s: Sys, steps: seq<Step>): Sys
    requires Legal(c, s, steps)
    decreases |steps|, 1
  {
    if steps == [] then s
    else Apply(c, After(c, s, steps[..|steps| - 1]), steps[|steps| - 1])
  }

  // ----- the invariant -----

  predicate OpenAt(s: Sys, round: Seconds) {
    s.status.ioSuspended && s.status.suspendedAt == Some(round)
  }

  ghost predicate Shape(c: Config, s: Sys) {
    && ValidConfig(c)
    && s.leg.Keys == c.diskful && s.inSync <= c.diskful
    && (forall n <- s.inSync :: s.leg[n] == s.current)
    && (s.primary.Some? ==> s.primary.value in c.diskful + c.diskless)
    && (s.status.ioSuspended ==>
          !s.status.readyToUse && s.status.suspendedAt.Some? && s.status.suspendedAt.value <= s.now)
    && s.cutting.Keys <= c.diskful
    && (forall w <- s.writes :: w.node in c.diskful && Raised(w.state))
  }

  /** Every name of a round in flight is the open round's or an older one's. */
  ghost predicate Rounds(s: Sys) {
    && (forall w <- s.writes :: Past(s, w.round))
    && (forall n <- s.cut :: Past(s, s.cut[n].round))
    && (forall n <- s.cutting :: OpenAt(s, s.cutting[n]) || s.now - s.cutting[n] > SUSPEND_DEADLINE)
  }

  predicate Past(s: Sys, round: Seconds) {
    && (s.status.ioSuspended && s.status.suspendedAt.Some? ==> round <= s.status.suspendedAt.value)
    && (!s.status.ioSuspended && !s.status.readyToUse ==> round < s.now)
  }

  /** A raised slot in the open round was written for that round. */
  ghost predicate Fenced(c: Config, s: Sys) {
    s.status.ioSuspended ==>
      forall n <- c.diskful :: Raised(Slot(s.status, n)) ==> n in s.origin && OpenAt(s, s.origin[n])
  }

  /** While the round is fresh, whoever is raised, about to report it, or mid-cut holds
      its kernel flag, and so does a diskless Primary. */
  ghost predicate Held(c: Config, s: Sys) {
    Fresh(s.status, s.now) ==>
      && (forall n <- c.diskful :: Raised(Slot(s.status, n)) ==> n in s.barrier)
      && (forall w <- s.writes :: OpenAt(s, w.round) ==> w.node in s.barrier)
      && (forall n <- s.cutting :: OpenAt(s, s.cutting[n]) ==> n in s.barrier)
      && (s.primary.Some? && s.primary.value in c.diskless ==> s.primary.value in s.barrier)
  }

  /** From the first admitted cut on, the round is fully raised, and while it is fresh
      each leg cut or being cut carries the volume's current content. */
  ghost predicate Frozen(c: Config, s: Sys) {
    s.status.ioSuspended ==>
      && (forall n <- s.cut :: OpenAt(s, s.cut[n].round) ==>
            AllRaised(s.status, c.diskful) && (Fresh(s.status, s.now) ==> s.cut[n].content == s.current))
      && (forall n <- s.cutting :: OpenAt(s, s.cutting[n]) ==>
            && AllRaised(s.status, c.diskful)
            && Slot(s.status, n) == Suspended
            && SlotWrite(n, s.cutting[n], Done) !in s.writes
            && n in s.leg && (Fresh(s.status, s.now) ==> s.leg[n] == s.current))
  }

  ghost predicate CutIn(s: Sys, n: Node, round: Seconds) {
    n in s.cut && s.cut[n].round == round
  }

  /** A Done, landed or in flight, stands for a snapshot taken in the open round. */
  ghost predicate DoneMeansCut(c: Config, s: Sys) {
    s.status.ioSuspended && s.status.suspendedAt.Some? ==>
      var round := s.status.suspendedAt.value;
      && (forall n <- c.diskful :: Slot(s.status, n) == Done ==> CutIn(s, n, round))
      && (forall w <- s.writes :: w.state == Done && w.round == round ==> CutIn(s, w.node, round))
  }

  ghost predicate Agree(s: Sys) {
    s.status.suspendedAt.Some? && (s.status.ioSuspended || s.status.readyToUse) ==>
      var round := s.status.suspendedAt.value;
      forall n, m | CutIn(s, n, round) && CutIn(s, m, round) :: s.cut[n].content == s.cut[m].content
  }

  ghost predicate Sealed(c: Config, s: Sys) {
    s.status.readyToUse ==>
      && s.status.suspendedAt.Some?
      && (forall n <- c.diskful :: CutIn(s, n, s.status.suspendedAt.value))
      && s.status.suspendedAt.value <= s.now
  }

  ghost predicate Inv(c: Config, s: Sys) {
    && Shape(c, s) && Rounds(s) && Fenced(c, s) && Held(c, s)
    && Frozen(c, s) && DoneMeansCut(c, s) && Agree(s) && Sealed(c, s)
  }

  lemma InitialInv(c: Config, s: Sys)
    requires ValidConfig(c) && Initial(c, s)
    ensures Inv(c, s)
  {
  }

  lemma InvOpen(c: Config, s: Sys, n: Node, coordinator: bool)
    requires Inv(c, s) && n in c.diskful + c.diskless && n !in s.cutting
    requires MayCoordinate(c, s, n, coordinator) && Choice(c, s, n, coordinator) == Open
    ensures Inv(c, DoOpen(c, s, n))
  {
    OpenedSlots(c, s, n);
    NothingOfTheNewRound(c, s, n);
  }

  lemma OpenedSlots(c: Config, s: Sys, n: Node)
    ensures forall m <- c.diskful :: Slot(DoOpen(c, s, n).status, m) == if m == n then Suspended else Pending
  {
  }

  lemma NothingOfTheNewRound(c: Config, s: Sys, n: Node)
    requires Inv(c, s) && !s.status.ioSuspended && !s.status.readyToUse
    ensures var t := DoOpen(c, s, n);
      && (forall m <- t.cut :: !OpenAt(t, t.cut[m].round))
      && (forall m <- t.cutting :: !OpenAt(t, t.cutting[m]))
      && (forall w <- t.writes :: !OpenAt(t, w.round))
  {
  }

  lemma InvRaise(c: Config, s: Sys, n: Node, coordinator: bool)
    requires Inv(c, s) && Choice(c, s, n, coordinator) == Raise
    ensures s.status.suspendedAt.Some? && Inv(c, DoRaise(s, n))
  {
  }

  lemma InvAdmitCut(c: Config, s: Sys, n: Node, coordinator: bool)
    requires Inv(c, s) && Choice(c, s, n, coordinator) == Cut && n !in s.cutting
    requires !Outstanding(s, n, Done)
    ensures s.status.suspendedAt.Some? && Inv(c, DoAdmitCut(s, n))
  {
  }

  lemma InvCollect(c: Config, s: Sys, n: Node, coordinator: bool, lifted: bool)
    requires Inv(c, s) && Choice(c, s, n, coordinator) == Collect
    ensures Inv(c, DoCollect(c, s, n, lifted))
  {
  }

  lemma InvLift(c: Config, s: Sys, n: Node, coordinator: bool)
    requires Inv(c, s) && Choice(c, s, n, coordinator) == Lift
    ensures Inv(c, s.(barrier := s.barrier - {n}))
  {
  }

  lemma InvTakeCut(c: Config, s: Sys, n: Node)
    requires Inv(c, s) && n in s.cutting && s.now - s.cutting[n] < SUSPEND_DEADLINE
    ensures n in s.leg && Inv(c, DoTakeCut(s, n))
  {
  }

  lemma InvLand(c: Config, s: Sys, w: SlotWrite)
    requires Inv(c, s) && w in s.writes
    ensures Inv(c, DoLand(s, w))
  {
    if OpenAt(s, w.round) {
      InvLandFenced(c, s, w);
    } else {
      assert DoLand(s, w) == s.(writes := s.writes - {w});
      InvLoss(c, s, Lose(w));
    }
  }

  lemma InvLandFenced(c: Config, s: Sys, w: SlotWrite)
    requires Inv(c, s) && w in s.writes && OpenAt(s, w.round)
    ensures Inv(c, DoLand(s, w))
  {
    var t := DoLand(s, w);
    assert forall n :: Slot(t.status, n) == if n == w.node then w.state else Slot(s.status, n);
    assert forall n :: CutIn(t, n, w.round) == CutIn(s, n, w.round);
  }

  lemma InvWrite(c: Config, s: Sys, x: Content)
    requires Inv(c, s) && Enabled(c, s, Write(x))
    ensures Inv(c, DoWrite(s, x))
  {
  }

  lemma InvAct(c: Config, s: Sys, n: Node, coordinator: bool, lifted: bool)
    requires !c.env.overlappingRecut && Inv(c, s) && Enabled(c, s, Act(n, coordinator, lifted))
    ensures Inv(c, Apply(c, s, Act(n, coordinator, lifted)))
  {
    match Choice(c, s, n, coordinator)
    case Open => InvOpen(c, s, n, coordinator);
    case Raise => InvRaise(c, s, n, coordinator);
    case Cut => InvAdmitCut(c, s, n, coordinator);
    case Collect => InvCollect(c, s, n, coordinator, lifted);
    case Lift => InvLift(c, s, n, coordinator);
    case Idle =>
  }

  lemma InvClock(c: Config, s: Sys, step: Step)
    requires !c.env.disklessPromotion && Inv(c, s) && Enabled(c, s, step)
    requires step.Tick? || step.Promote? || step.Gate?
    ensures Inv(c, Apply(c, s, step))
  {
  }

  lemma InvHealth(c: Config, s: Sys, step: Step)
    requires Inv(c, s) && Enabled(c, s, step)
    requires step.Degrade? || step.Resync?
    ensures Inv(c, Apply(c, s, step))
  {
  }

  lemma InvFailedRaise(c: Config, s: Sys, n: Node, coordinator: bool)
    requires !c.env.liftOverWrite && Inv(c, s) && Enabled(c, s, FailedRaise(n, coordinator))
    ensures Inv(c, Apply(c, s, FailedRaise(n, coordinator)))
  {
  }

  lemma InvLoss(c: Config, s: Sys, step: Step)
    requires Inv(c, s) && Enabled(c, s, step)
    requires step.Crash? || step.Lose?
    ensures Inv(c, Apply(c, s, step))
  {
  }

  lemma InvSweep(c: Config, s: Sys, step: Step)
    requires Inv(c, s) && Enabled(c, s, step)
    requires step.Sweep? || step.SiblingRaise? || step.SiblingLift?
    ensures Inv(c, Apply(c, s, step))
  {
  }

  lemma InvStep(c: Config, s: Sys, step: Step)
    requires Strict(c.env) && Inv(c, s) && Enabled(c, s, step)
    ensures Inv(c, Apply(c, s, step))
  {
    match step
    case Act(n, coordinator, lifted) => InvAct(c, s, n, coordinator, lifted);
    case TakeCut(n) => InvTakeCut(c, s, n);
    case Land(w) => InvLand(c, s, w);
    case Write(x) => InvWrite(c, s, x);
    case Crash(_) => InvLoss(c, s, step);
    case Lose(_) => InvLoss(c, s, step);
    case Sweep(_) => InvSweep(c, s, step);
    case SiblingRaise(_) => InvSweep(c, s, step);
    case SiblingLift(_) => InvSweep(c, s, step);
    case Degrade(_) => InvHealth(c, s, step);
    case Resync(_) => InvHealth(c, s, step);
    case FailedRaise(n, coordinator) => InvFailedRaise(c, s, n, coordinator);
    case _ => InvClock(c, s, step);
  }

  lemma {:induction false} InvRun(c: Config, s: Sys, steps: seq<Step>)
    requires Strict(c.env) && Inv(c, s) && Legal(c, s, steps)
    ensures Inv(c, After(c, s, steps))
    decreases |steps|
  {
    if steps != [] {
      InvRun(c, s, steps[..|steps| - 1]);
      InvStep(c, After(c, s, steps[..|steps| - 1]), steps[|steps| - 1]);
    }
  }

  // ----- the theorems -----

  /** A ready snapshot holds the same content on every diskful leg. */
  ghost predicate IdenticalLegs(c: Config, s: Sys) {
    s.status.readyToUse ==>
      && c.diskful <= s.cut.Keys
      && forall n <- c.diskful, m <- c.diskful :: s.cut[n].content == s.cut[m].content
  }

  ghost predicate LockstepInEveryRun(c: Config) {
    forall s, steps | Initial(c, s) && Legal(c, s, steps) :: IdenticalLegs(c, After(c, s, steps))
  }

  lemma Lockstep(c: Config)
    requires ValidConfig(c) && Strict(c.env)
    ensures LockstepInEveryRun(c)
  {
    forall s, steps | Initial(c, s) && Legal(c, s, steps)
      ensures IdenticalLegs(c, After(c, s, steps))
    {
      InitialInv(c, s);
      InvRun(c, s, steps);
      var t := After(c, s, steps);
      if t.status.readyToUse {
        assert forall n <- c.diskful :: CutIn(t, n, t.status.suspendedAt.value);
      }
    }
  }

  /** No slot written for one round counts in another: in every run, a raised slot seen
      in the open round was written by its node for that very round. */
  lemma RoundsDoNotMix(c: Config, s: Sys, steps: seq<Step>, n: Node)
    requires ValidConfig(c) && Strict(c.env) && Initial(c, s) && Legal(c, s, steps)
    requires n in c.diskful
    ensures var t := After(c, s, steps);
      t.status.ioSuspended && Raised(Slot(t.status, n)) ==> n in t.origin && OpenAt(t, t.origin[n])
  {
    InitialInv(c, s);
    InvRun(c, s, steps);
  }

  ghost predicate CapturedBy(c: Config, s: Sys, x: Content) {
    s.status.suspendedAt.Some? &&
    forall n <- c.diskful :: CutIn(s, n, s.status.suspendedAt.value) ==> s.cut[n].content == x
  }

  ghost predicate SomeCut(c: Config, s: Sys) {
    s.status.suspendedAt.Some? && exists n :: n in c.diskful && CutIn(s, n, s.status.suspendedAt.value)
  }

  /** The open or sealed round's cuts, if any, all show the volume as it was at one
      instant of the run. */
  lemma {:induction false} OneInstant(c: Config, s: Sys, steps: seq<Step>) returns (k: nat)
    requires ValidConfig(c) && Strict(c.env) && Initial(c, s) && Legal(c, s, steps)
    ensures k <= |steps| && Legal(c, s, steps[..k])
    ensures var t := After(c, s, steps);
      (t.status.ioSuspended || t.status.readyToUse) && SomeCut(c, t)
      ==> CapturedBy(c, t, After(c, s, steps[..k]).current)
    decreases |steps|
  {
    InitialInv(c, s);
    InvRun(c, s, steps);
    var t := After(c, s, steps);
    k := |steps|;
    assert steps[..k] == steps;
    if steps == [] || !(t.status.ioSuspended || t.status.readyToUse) || !SomeCut(c, t) {
      return;
    }
    var before := steps[..|steps| - 1];
    var p := After(c, s, before);
    InvRun(c, s, before);
    if steps[|steps| - 1].TakeCut? && Fresh(t.status, t.now) {
      return;
    }
    k := OneInstant(c, s, before);
    assert before[..k] == steps[..k];
    StepKeepsCapture(c, p, steps[|steps| - 1], After(c, s, steps[..k]).current);
  }

  lemma StepKeepsCapture(c: Config, s: Sys, step: Step, x: Content)
    requires Strict(c.env) && Inv(c, s) && Enabled(c, s, step)
    requires (s.status.ioSuspended || s.status.readyToUse) && SomeCut(c, s) ==> CapturedBy(c, s, x)
    requires !(step.TakeCut? && Fresh(s.status, s.now))
    ensures var t := Apply(c, s, step);
      (t.status.ioSuspended || t.status.readyToUse) && SomeCut(c, t) ==> CapturedBy(c, t, x)
  {
    if step.Act? {
      ActKeepsCapture(c, s, step.n, step.coordinator, step.lifted, x);
    }
  }

  lemma ActKeepsCapture(c: Config, s: Sys, n: Node, coordinator: bool, lifted: bool, x: Content)
    requires Inv(c, s) && Enabled(c, s, Act(n, coordinator, lifted))
    requires (s.status.ioSuspended || s.status.readyToUse) && SomeCut(c, s) ==> CapturedBy(c, s, x)
    ensures var t := Apply(c, s, Act(n, coordinator, lifted));
      (t.status.ioSuspended || t.status.readyToUse) && SomeCut(c, t) ==> CapturedBy(c, t, x)
  {
    match Choice(c, s, n, coordinator)
    case Open => assert !SomeCut(c, DoOpen(c, s, n));
    case Collect => CollectKeepsCapture(c, s, n, lifted, x);
    case _ =>
  }

  lemma CollectKeepsCapture(c: Config, s: Sys, n: Node, lifted: bool, x: Content)
    requires Inv(c, s) && s.status.ioSuspended && (SomeCut(c, s) ==> CapturedBy(c, s, x))
    ensures var t := DoCollect(c, s, n, lifted);
      (t.status.ioSuspended || t.status.readyToUse) && SomeCut(c, t) ==> CapturedBy(c, t, x)
  {
  }

  /** A ready snapshot is the volume's content at one instant of the run, on every leg. */
  lemma ReadyIsOneInstant(c: Config, s: Sys, steps: seq<Step>)
    requires ValidConfig(c) && Strict(c.env) && Initial(c, s) && Legal(c, s, steps)
    requires After(c, s, steps).status.readyToUse
    ensures var t := After(c, s, steps);
      exists k | 0 <= k <= |steps| && Legal(c, s, steps[..k]) ::
        forall n <- c.diskful :: n in t.cut && t.cut[n].content == After(c, s, steps[..k]).current
  {
    InitialInv(c, s);
    InvRun(c, s, steps);
    var t := After(c, s, steps);
    assert forall n <- c.diskful :: CutIn(t, n, t.status.suspendedAt.value);
    var k := OneInstant(c, s, steps);
    var x := After(c, s, steps[..k]).current;
    assert CapturedBy(c, t, x);
  }

  /** No stranded freeze.  Once the round is closed or expired, a leg node whose barrier
      is up and whose agent is not mid-cut lifts it in its own next pass exactly when the
      snapshot is ready or its published status does not stop the pass early (no disk
      state yet, or split-brain); and whatever the pass does, the sweep lifts it. */
  lemma NoStrandedFreeze(c: Config, s: Sys, n: Node, coordinator: bool)
    requires Inv(c, s) && n in c.diskful + c.diskless && n in s.barrier && n !in s.cutting
    requires MayCoordinate(c, s, n, coordinator)
    requires !s.status.ioSuspended || Expired(s.status, s.now)
    ensures Enabled(c, s, Act(n, coordinator, true))
    ensures n !in Apply(c, s, Act(n, coordinator, true)).barrier <==> s.status.readyToUse || n !in s.gated
    ensures Enabled(c, s, Sweep(n)) && n !in Apply(c, s, Sweep(n)).barrier
  {
    assert Choice(c, s, n, coordinator) in {Collect, Lift} <==> s.status.readyToUse || n !in s.gated;
  }
}
