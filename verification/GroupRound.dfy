/** The shared write-barrier round of a snapshot group, as a state machine.

    One round spans every diskful leg of every member volume; its slots are kept per leg.
    Diskless legs come and go with the spec; one that is Primary when the round opens is
    expected in it by a Pending slot.  Slot writes are plain merge patches: nothing fences
    them to a round.  The content model, the two-step cut and the sibling rounds are those
    of `SnapshotRound`; here an agent cuts its legs one after another and reports them in
    one write. */
module GroupRound {
  import opened BarrierTypes

  type Content = int

  datatype GroupStatus = GroupStatus(
    readyToUse: bool,
    ioSuspended: bool,
    suspendedAt: Option<Seconds>,
    perLeg: map<Leg, SlotState>)

  function SlotOf(st: GroupStatus, l: Leg): SlotState {
    if l in st.perLeg then st.perLeg[l] else Unset
  }

  predicate ExpiredGroup(st: GroupStatus, now: Seconds) {
    st.suspendedAt.Some? && now - st.suspendedAt.value > SUSPEND_DEADLINE
  }

  predicate FreshGroup(st: GroupStatus, now: Seconds) {
    st.ioSuspended && st.suspendedAt.Some? && now - st.suspendedAt.value < SUSPEND_DEADLINE
  }

  predicate AllLegs(st: GroupStatus, legs: set<Leg>, x: SlotState) {
    forall l <- legs :: SlotOf(st, l) == x || (x == Suspended && SlotOf(st, l) == Done)
  }

  /** The cut gate: every diskful leg raised, no live diskless leg still expected. */
  predicate AllSlotsSuspended(st: GroupStatus, legs: set<Leg>, thin: set<Leg>) {
    AllLegs(st, legs, Suspended) && forall l <- thin :: SlotOf(st, l) != Pending
  }

  /** The opening write: every diskful slot and every expected diskless one starts over,
      and the driver's own legs are raised. */
  function OpenGroup(st: GroupStatus, legs: set<Leg>, expected: set<Leg>, raise: set<Leg>, now: Seconds): GroupStatus {
    st.(ioSuspended := true,
        suspendedAt := Some(now),
        perLeg := st.perLeg + (map l | l in legs + expected :: Pending) + (map l | l in raise :: Suspended))
  }

  function SealGroup(st: GroupStatus): GroupStatus {
    st.(ioSuspended := false, readyToUse := true)
  }

  function VoidedSlot(st: GroupStatus, legs: set<Leg>, own: set<Leg>, l: Leg): SlotState {
    if l in own then Error
    else if l in legs then Pending
    else if SlotOf(st, l) == Pending then Error
    else SlotOf(st, l)
  }

  function VoidGroup(st: GroupStatus, legs: set<Leg>, thin: set<Leg>, own: set<Leg>, now: Seconds): GroupStatus {
    st.(ioSuspended := false,
        suspendedAt := Some(now),
        perLeg := map l | l in st.perLeg.Keys + legs ::
          if l in legs + thin && (l in legs || l in st.perLeg) then VoidedSlot(st, legs, own, l) else SlotOf(st, l))
  }

  datatype Env = Env(
    lateCut: bool,            // a cut may be taken at the deadline second itself
    overlappingRecut: bool,   // legs may be cut again while their earlier Done is in flight
    liftOverRaise: bool,      // a failed raise may lift what a recorded or sent Suspended vouches for
    unseenPrimary: bool,      // a diskless Primary may be missing from the open round
    staleLanding: bool)       // a slot write may land after its round was reopened

  predicate Strict(e: Env) {
    !e.lateCut && !e.overlappingRecut && !e.liftOverRaise && !e.unseenPrimary && !e.staleLanding
  }

  datatype Config = Config(members: set<Volume>, legs: set<Leg>, env: Env)

  ghost predicate ValidConfig(c: Config) {
    c.legs != {} && forall l <- c.legs :: l.vol in c.members
  }

  datatype LegsWrite = LegsWrite(node: Node, round: Seconds, legs: set<Leg>, state: SlotState)

  datatype LegCut = LegCut(round: Seconds, content: Content)

  datatype Progress = Progress(round: Seconds, todo: set<Leg>)

  datatype Sys = Sys(
    now: Seconds,
    status: GroupStatus,
    origin: map<Leg, Seconds>,       // history: the round each slot was last written for
    barrier: set<Leg>,
    thin: set<Leg>,                  // diskless legs in the live spec
    primary: map<Volume, Node>,
    current: map<Volume, Content>,
    data: map<Leg, Content>,
    inSync: set<Leg>,
    cut: map<Leg, LegCut>,
    cutting: map<Node, Progress>,
    writes: set<LegsWrite>)

  datatype Step =
    | Tick(d: nat)
    | Promote(v: Volume, n: Node)
    | Demote(v: Volume)
    | Write(v: Volume, content: Content)
    | Degrade(l: Leg)
    | Resync(l: Leg)
    | Stage(l: Leg)
    | Unstage(l: Leg)
    | Open(n: Node, published: set<Leg>)
    | Raise(n: Node)
    | FailedRaise(n: Node)
    | AdmitCut(n: Node)
    | TakeCut(n: Node, l: Leg)
    | SendDone(n: Node)
    | Collect(n: Node, lifted: set<Leg>)
    | Lift(l: Leg)
    | Crash(n: Node)
    | Land(w: LegsWrite)
    | Lose(w: LegsWrite)
    | Sweep(l: Leg)
    | SiblingRaise(l: Leg)
    | SiblingLift(l: Leg)

  function Mine(c: Config, n: Node): set<Leg> {
    set l | l in c.legs && l.node == n
  }

  function ThinOn(s: Sys, n: Node): set<Leg> {
    set l | l in s.thin && l.node == n
  }

  predicate IsPrimary(primary: map<Volume, Node>, l: Leg) {
    l.vol in primary && primary[l.vol] == l.node
  }

  function ThinPrimaries(s: Sys): set<Leg> {
    set l | l in s.thin && IsPrimary(s.primary, l)
  }

  function PendingThin(s: Sys, n: Node): set<Leg> {
    set l | l in ThinOn(s, n) && SlotOf(s.status, l) == Pending
  }

  function RaisedBy(c: Config, s: Sys, n: Node): set<Leg> {
    Mine(c, n) + PendingThin(s, n)
  }

  /** The diskless legs of a node that take part: those with a slot.  One published Primary
      takes part without; to leave it out only lets more happen. */
  function ActiveThin(s: Sys, n: Node): set<Leg> {
    set l | l in ThinOn(s, n) && SlotOf(s.status, l) != Unset
  }

  /** The health gate of one node: every member volume it takes part in is in sync. */
  ghost predicate Healthy(c: Config, s: Sys, n: Node) {
    forall l, m | l in Mine(c, n) + ActiveThin(s, n) && m in c.legs && m.vol == l.vol :: m in s.inSync
  }

  ghost predicate Outstanding(s: Sys, n: Node, x: SlotState) {
    exists w <- s.writes :: w.node == n && w.state == x && s.status.suspendedAt == Some(w.round)
  }

  ghost predicate RaiseDue(c: Config, s: Sys, n: Node) {
    && s.status.ioSuspended && !ExpiredGroup(s.status, s.now) && Healthy(c, s, n) && n !in s.cutting
    && (!AllLegs(s.status, Mine(c, n), Suspended) || PendingThin(s, n) != {})
  }

  ghost predicate CutDue(c: Config, s: Sys, n: Node) {
    && s.status.ioSuspended && !ExpiredGroup(s.status, s.now) && Healthy(c, s, n) && n !in s.cutting
    && AllSlotsSuspended(s.status, c.legs, s.thin) && !AllLegs(s.status, Mine(c, n), Done)
  }

  ghost predicate Enabled(c: Config, s: Sys, step: Step) {
    match step
    case Tick(_) => true
    case Promote(v, n) =>
      && v in c.members && Leg(v, n) in c.legs + s.thin
      && (Leg(v, n) in s.thin && !IsPrimary(s.primary, Leg(v, n)) && s.status.ioSuspended ==> c.env.unseenPrimary)
    case Demote(v) => true
    case Write(v, _) => v in s.primary && Leg(v, s.primary[v]) !in s.barrier
    case Degrade(l) => true
    case Resync(l) => l in c.legs && l.vol in s.current
    case Stage(l) => l.vol in c.members && l !in c.legs
    case Unstage(l) => !IsPrimary(s.primary, l)
    case Open(n, published) =>
      && !s.status.ioSuspended && !s.status.readyToUse && Healthy(c, s, n) && n !in s.cutting
      && (forall l <- Mine(c, n) + ActiveThin(s, n) :: l !in s.barrier)
      && published <= s.thin && (forall l <- published :: l.node != n)
      && (c.env.unseenPrimary || forall l <- ThinPrimaries(s) :: l.node != n ==> l in published)
    case Raise(n) => RaiseDue(c, s, n)
    case FailedRaise(n) =>
      && RaiseDue(c, s, n)
      && (c.env.liftOverRaise
          || (!Outstanding(s, n, Suspended) && forall l <- Mine(c, n) :: !Raised(SlotOf(s.status, l))))
    case AdmitCut(n) => CutDue(c, s, n) && (Outstanding(s, n, Done) ==> c.env.overlappingRecut)
    case TakeCut(n, l) =>
      && n in s.cutting && l in s.cutting[n].todo
      && (s.now - s.cutting[n].round < SUSPEND_DEADLINE
          || (c.env.lateCut && s.now - s.cutting[n].round <= SUSPEND_DEADLINE))
    case SendDone(n) => n in s.cutting && s.cutting[n].todo == {}
    case Collect(n, lifted) => s.status.ioSuspended && n !in s.cutting && forall l <- lifted :: l.node == n
    case Lift(l) => l.node !in s.cutting && (!s.status.ioSuspended || ExpiredGroup(s.status, s.now))
    case Crash(n) => true
    case Land(w) =>
      w in s.writes && (s.status.ioSuspended ==> s.status.suspendedAt == Some(w.round) || c.env.staleLanding)
    case Lose(w) => w in s.writes
    case Sweep(l) => !FreshGroup(s.status, s.now)
    case SiblingRaise(l) => true
    case SiblingLift(l) => !s.status.ioSuspended
  }

  ghost function DoOpen(c: Config, s: Sys, n: Node, published: set<Leg>): Sys {
    var raise := Mine(c, n) + set l | l in ThinPrimaries(s) && l.node == n;
    s.(barrier := s.barrier + raise,
       status := OpenGroup(s.status, c.legs, published, raise, s.now),
       origin := s.origin + map l | l in raise :: s.now)
  }

  ghost function DoRaise(c: Config, s: Sys, n: Node): Sys
    requires s.status.suspendedAt.Some?
  {
    s.(barrier := s.barrier + RaisedBy(c, s, n),
       writes := s.writes + {LegsWrite(n, s.status.suspendedAt.value, RaisedBy(c, s, n), Suspended)})
  }

  /** The legs' barriers are re-asserted and any leftover snapshots deleted. */
  ghost function DoAdmitCut(c: Config, s: Sys, n: Node): Sys
    requires s.status.suspendedAt.Some?
  {
    s.(barrier := s.barrier + Mine(c, n),
       cut := s.cut - Mine(c, n),
       cutting := s.cutting[n := Progress(s.status.suspendedAt.value, Mine(c, n))])
  }

  ghost function DoTakeCut(s: Sys, n: Node, l: Leg): Sys
    requires n in s.cutting && l in s.data
  {
    var p := s.cutting[n];
    s.(cut := s.cut[l := LegCut(p.round, s.data[l])],
       cutting := s.cutting[n := p.(todo := p.todo - {l})])
  }

  ghost function DoSendDone(c: Config, s: Sys, n: Node): Sys
    requires n in s.cutting
  {
    s.(writes := s.writes + {LegsWrite(n, s.cutting[n].round, Mine(c, n), Done)},
       cutting := s.cutting - {n})
  }

  ghost function DoCollect(c: Config, s: Sys, n: Node, lifted: set<Leg>): Sys {
    if AllLegs(s.status, c.legs, Done) then
      s.(status := SealGroup(s.status), barrier := s.barrier - lifted)
    else if ExpiredGroup(s.status, s.now) then
      s.(status := VoidGroup(s.status, c.legs, s.thin, Mine(c, n) + ThinOn(s, n), s.now), barrier := s.barrier - lifted)
    else s
  }

  ghost function DoLand(s: Sys, w: LegsWrite): Sys {
    s.(writes := s.writes - {w},
       status := s.status.(perLeg := s.status.perLeg + map l | l in w.legs :: w.state),
       origin := s.origin + map l | l in w.legs :: w.round)
  }

  ghost function DoWrite(s: Sys, v: Volume, x: Content): Sys {
    s.(current := s.current[v := x],
       data := map l | l in s.data :: if l.vol == v && l in s.inSync then x else s.data[l])
  }

  ghost function Apply(c: Config, s: Sys, step: Step): Sys
    requires Enabled(c, s, step)
  {
    match step
    case Tick(d) => s.(now := s.now + d)
    case Promote(v, n) => s.(primary := s.primary[v := n])
    case Demote(v) => s.(primary := s.primary - {v})
    case Write(v, x) => DoWrite(s, v, x)
    case Degrade(l) => s.(inSync := s.inSync - {l})
    case Resync(l) => s.(inSync := s.inSync + {l}, data := s.data[l := s.current[l.vol]])
    case Stage(l) => s.(thin := s.thin + {l})
    case Unstage(l) => s.(thin := s.thin - {l})
    case Open(n, published) => DoOpen(c, s, n, published)
    case Raise(n) => if s.status.suspendedAt.Some? then DoRaise(c, s, n) else s
    case FailedRaise(n) => s.(barrier := s.barrier - RaisedBy(c, s, n))
    case AdmitCut(n) => if s.status.suspendedAt.Some? then DoAdmitCut(c, s, n) else s
    case TakeCut(n, l) => if l in s.data then DoTakeCut(s, n, l) else s
    case SendDone(n) => DoSendDone(c, s, n)
    case Collect(n, lifted) => DoCollect(c, s, n, lifted)
    case Lift(l) => s.(barrier := s.barrier - {l})
    case Crash(n) => s.(cutting := s.cutting - {n})
    case Land(w) => DoLand(s, w)
    case Lose(w) => s.(writes := s.writes - {w})
    case Sweep(l) => s.(barrier := s.barrier - {l})
    case SiblingRaise(l) => s.(barrier := s.barrier + {l})
    case SiblingLift(l) => s.(barrier := s.barrier - {l})
  }

  // ----- the invariant -----
  // Each part names the components it speaks of, so that a step elsewhere keeps it.

  predicate OpenAt(st: GroupStatus, round: Seconds) {
    st.ioSuspended && st.suspendedAt == Some(round)
  }

  predicate Past(st: GroupStatus, now: Seconds, round: Seconds) {
    && (st.ioSuspended && st.suspendedAt.Some? ==> round <= st.suspendedAt.value)
    && (!st.ioSuspended && !st.readyToUse ==> round < now)
  }

  ghost predicate CutIn(cut: map<Leg, LegCut>, l: Leg, round: Seconds) {
    l in cut && cut[l].round == round
  }

  ghost predicate Replicated(c: Config, current: map<Volume, Content>, data: map<Leg, Content>, inSync: set<Leg>) {
    && ValidConfig(c) && current.Keys == c.members && data.Keys == c.legs
    && forall l <- c.legs :: l in inSync ==> data[l] == current[l.vol]
  }

  ghost predicate Roles(c: Config, thin: set<Leg>, primary: map<Volume, Node>) {
    && thin !! c.legs && (forall l <- thin :: l.vol in c.members)
    && forall v <- primary :: v in c.members && Leg(v, primary[v]) in c.legs + thin
  }

  ghost predicate Stamped(st: GroupStatus, now: Seconds) {
    st.ioSuspended ==> !st.readyToUse && st.suspendedAt.Some? && st.suspendedAt.value <= now
  }

  /** A node reports all of its diskful legs, and only its own, in one write. */
  ghost predicate WellFormed(c: Config, w: LegsWrite) {
    && Raised(w.state) && Mine(c, w.node) <= w.legs
    && (forall l <- w.legs :: l.node == w.node && (w.state == Done ==> l in c.legs))
  }

  ghost predicate Agents(
    c: Config, st: GroupStatus, now: Seconds, cutting: map<Node, Progress>, writes: set<LegsWrite>)
  {
    && (forall w <- writes :: WellFormed(c, w) && Past(st, now, w.round))
    && (forall n <- cutting ::
          && cutting[n].todo <= Mine(c, n) && Past(st, now, cutting[n].round)
          && (OpenAt(st, cutting[n].round) || now - cutting[n].round > SUSPEND_DEADLINE))
  }

  ghost predicate OldCuts(st: GroupStatus, now: Seconds, cut: map<Leg, LegCut>) {
    forall l <- cut :: Past(st, now, cut[l].round)
  }

  /** Slots raised in the open round were written for it, all legs of a node together. */
  ghost predicate Fenced(c: Config, st: GroupStatus, origin: map<Leg, Seconds>) {
    st.ioSuspended ==>
      && (forall l <- c.legs :: Raised(SlotOf(st, l)) ==> l in origin && OpenAt(st, origin[l]))
      && (forall l <- c.legs, m <- c.legs :: l.node == m.node ==> SlotOf(st, l) == SlotOf(st, m))
  }

  /** While the round is fresh, whatever is raised, about to be reported, or mid-cut has
      its kernel flag up, and a diskless Primary is flagged or still expected. */
  ghost predicate Held(c: Config, st: GroupStatus, now: Seconds, barrier: set<Leg>, writes: set<LegsWrite>,
                       cutting: map<Node, Progress>, thin: set<Leg>, primary: map<Volume, Node>) {
    FreshGroup(st, now) ==>
      && (forall l <- c.legs :: Raised(SlotOf(st, l)) ==> l in barrier)
      && (forall w <- writes :: OpenAt(st, w.round) ==> w.legs <= barrier)
      && (forall n <- cutting :: OpenAt(st, cutting[n].round) ==> Mine(c, n) <= barrier)
      && (forall l <- thin :: IsPrimary(primary, l) ==> SlotOf(st, l) == Pending || l in barrier)
  }

  ghost predicate Closed(c: Config, st: GroupStatus, thin: set<Leg>, primary: map<Volume, Node>) {
    && AllLegs(st, c.legs, Suspended)
    && forall l <- thin :: IsPrimary(primary, l) ==> SlotOf(st, l) != Pending
  }

  ghost predicate Cutting(c: Config, st: GroupStatus, cut: map<Leg, LegCut>, cutting: map<Node, Progress>,
                          writes: set<LegsWrite>) {
    forall n <- cutting :: OpenAt(st, cutting[n].round) ==>
      && Mine(c, n) != {}
      && (forall w <- writes :: w.node == n && w.round == cutting[n].round ==> w.state != Done)
      && (forall l <- Mine(c, n) ::
            SlotOf(st, l) == Suspended && (l !in cutting[n].todo ==> CutIn(cut, l, cutting[n].round)))
  }

  /** From the first admitted cut on, the round is closed to writers. */
  ghost predicate Quiet(c: Config, st: GroupStatus, cut: map<Leg, LegCut>, cutting: map<Node, Progress>,
                        thin: set<Leg>, primary: map<Volume, Node>) {
    st.ioSuspended ==>
      && (forall l <- cut :: l in c.legs && OpenAt(st, cut[l].round) ==> Closed(c, st, thin, primary))
      && (forall n <- cutting :: OpenAt(st, cutting[n].round) ==> Closed(c, st, thin, primary))
  }

  /** While the round is fresh, each leg cut or being cut carries its volume's content. */
  ghost predicate Frozen(c: Config, st: GroupStatus, now: Seconds, cut: map<Leg, LegCut>, cutting: map<Node, Progress>,
                         current: map<Volume, Content>, data: map<Leg, Content>) {
    FreshGroup(st, now) ==>
      && (forall l <- cut :: l in c.legs && OpenAt(st, cut[l].round) && l.vol in current ==>
            cut[l].content == current[l.vol])
      && (forall n, l | n in cutting && OpenAt(st, cutting[n].round) && l in Mine(c, n) ::
            l in data && l.vol in current ==> data[l] == current[l.vol])
  }

  ghost predicate DoneMeansCut(c: Config, st: GroupStatus, cut: map<Leg, LegCut>, writes: set<LegsWrite>) {
    st.ioSuspended && st.suspendedAt.Some? ==>
      var round := st.suspendedAt.value;
      && (forall l <- c.legs :: SlotOf(st, l) == Done ==> CutIn(cut, l, round))
      && (forall w <- writes :: w.state == Done && w.round == round ==> forall l <- w.legs :: CutIn(cut, l, round))
  }

  ghost predicate Agree(c: Config, st: GroupStatus, cut: map<Leg, LegCut>) {
    st.suspendedAt.Some? && (st.ioSuspended || st.readyToUse) ==>
      var round := st.suspendedAt.value;
      forall l, m | l in c.legs && m in c.legs && l.vol == m.vol && CutIn(cut, l, round) && CutIn(cut, m, round) ::
        cut[l].content == cut[m].content
  }

  ghost predicate Sealed(c: Config, st: GroupStatus, now: Seconds, cut: map<Leg, LegCut>) {
    st.readyToUse ==>
      && st.suspendedAt.Some? && st.suspendedAt.value <= now
      && (forall l <- c.legs :: CutIn(cut, l, st.suspendedAt.value))
  }

  ghost predicate Inv(c: Config, s: Sys) {
    && Replicated(c, s.current, s.data, s.inSync) && Roles(c, s.thin, s.primary) && Stamped(s.status, s.now)
    && Agents(c, s.status, s.now, s.cutting, s.writes) && OldCuts(s.status, s.now, s.cut)
    && Fenced(c, s.status, s.origin)
    && Held(c, s.status, s.now, s.barrier, s.writes, s.cutting, s.thin, s.primary)
    && Cutting(c, s.status, s.cut, s.cutting, s.writes)
    && Quiet(c, s.status, s.cut, s.cutting, s.thin, s.primary)
    && Frozen(c, s.status, s.now, s.cut, s.cutting, s.current, s.data)
    && DoneMeansCut(c, s.status, s.cut, s.writes) && Agree(c, s.status, s.cut)
    && Sealed(c, s.status, s.now, s.cut)
  }

  lemma OpenFences(c: Config, s: Sys, n: Node, published: set<Leg>)
    requires Inv(c, s) && Enabled(c, s, Open(n, published))
    ensures var t := DoOpen(c, s, n, published); Fenced(c, t.status, t.origin)
  {
    OpenSlots(c, s, n, published);
  }

  lemma OpenHolds(c: Config, s: Sys, n: Node, published: set<Leg>)
    requires Strict(c.env) && Inv(c, s) && Enabled(c, s, Open(n, published))
    ensures var t := DoOpen(c, s, n, published);
      Held(c, t.status, t.now, t.barrier, t.writes, t.cutting, t.thin, t.primary)
  {
    OpenSlots(c, s, n, published);
    NothingOfTheNewRound(c, s, n, published);
  }

  lemma NothingOfTheNewRound(c: Config, s: Sys, n: Node, published: set<Leg>)
    requires Inv(c, s) && !s.status.ioSuspended && !s.status.readyToUse
    ensures var t := DoOpen(c, s, n, published);
      && (forall m <- t.cutting :: !OpenAt(t.status, t.cutting[m].round))
      && (forall l <- t.cut :: !OpenAt(t.status, t.cut[l].round))
      && (forall w <- t.writes :: !OpenAt(t.status, w.round))
  {
  }

  lemma OpenUncut(c: Config, s: Sys, n: Node, published: set<Leg>)
    requires Inv(c, s) && Enabled(c, s, Open(n, published))
    ensures var t := DoOpen(c, s, n, published);
      && Cutting(c, t.status, t.cut, t.cutting, t.writes)
      && Frozen(c, t.status, t.now, t.cut, t.cutting, t.current, t.data)
      && DoneMeansCut(c, t.status, t.cut, t.writes) && Agree(c, t.status, t.cut)
  {
    OpenSlots(c, s, n, published);
    NothingOfTheNewRound(c, s, n, published);
  }

  lemma OpenStamps(c: Config, s: Sys, n: Node, published: set<Leg>)
    requires Inv(c, s) && Enabled(c, s, Open(n, published))
    ensures var t := DoOpen(c, s, n, published);
      && Stamped(t.status, t.now) && Agents(c, t.status, t.now, t.cutting, t.writes)
      && OldCuts(t.status, t.now, t.cut) && Sealed(c, t.status, t.now, t.cut)
  {
  }

  lemma InvOpen(c: Config, s: Sys, n: Node, published: set<Leg>)
    requires Strict(c.env) && Inv(c, s) && Enabled(c, s, Open(n, published))
    ensures Inv(c, DoOpen(c, s, n, published))
  {
    OpenSlots(c, s, n, published);
    OpenFences(c, s, n, published);
    OpenHolds(c, s, n, published);
    OpenStamps(c, s, n, published);
    OpenUncut(c, s, n, published);
    NothingOfTheNewRound(c, s, n, published);
  }

  lemma OpenSlots(c: Config, s: Sys, n: Node, published: set<Leg>)
    requires Roles(c, s.thin, s.primary) && published <= s.thin
    ensures var t := DoOpen(c, s, n, published);
      && (forall l <- c.legs :: SlotOf(t.status, l) == if l.node == n then Suspended else Pending)
      && (forall l <- published :: l.node != n ==> SlotOf(t.status, l) == Pending)
  {
    var raise := Mine(c, n) + set l | l in ThinPrimaries(s) && l.node == n;
    forall l | l in c.legs + published
      ensures SlotOf(DoOpen(c, s, n, published).status, l) == if l in raise then Suspended else Pending
    {
      OpenSlot(s.status, c.legs, published, raise, s.now, l);
    }
  }

  lemma OpenSlot(st: GroupStatus, legs: set<Leg>, expected: set<Leg>, raise: set<Leg>, now: Seconds, l: Leg)
    requires l in legs + expected
    ensures SlotOf(OpenGroup(st, legs, expected, raise, now), l) == if l in raise then Suspended else Pending
  {
  }

  lemma InvRaise(c: Config, s: Sys, n: Node)
    requires Inv(c, s) && RaiseDue(c, s, n)
    ensures s.status.suspendedAt.Some? && Inv(c, DoRaise(c, s, n))
  {
    RaiseHolds(c, s, n);
  }

  lemma RaiseHolds(c: Config, s: Sys, n: Node)
    requires Inv(c, s) && RaiseDue(c, s, n)
    ensures s.status.suspendedAt.Some?
    ensures var t := DoRaise(c, s, n);
      && Agents(c, t.status, t.now, t.cutting, t.writes)
      && Held(c, t.status, t.now, t.barrier, t.writes, t.cutting, t.thin, t.primary)
  {
  }

  lemma InvFailedRaise(c: Config, s: Sys, n: Node)
    requires !c.env.liftOverRaise && Inv(c, s) && Enabled(c, s, FailedRaise(n))
    ensures Inv(c, s.(barrier := s.barrier - RaisedBy(c, s, n)))
  {
  }

  lemma AdmitCutSlots(c: Config, s: Sys, n: Node)
    requires Inv(c, s) && CutDue(c, s, n)
    ensures s.status.suspendedAt.Some? && Mine(c, n) != {} && forall l <- Mine(c, n) :: SlotOf(s.status, l) == Suspended
  {
  }

  lemma AdmitCutCuts(c: Config, s: Sys, n: Node)
    requires Cutting(c, s.status, s.cut, s.cutting, s.writes) && s.status.suspendedAt.Some? && Mine(c, n) != {}
    requires (forall l <- Mine(c, n) :: SlotOf(s.status, l) == Suspended) && !Outstanding(s, n, Done)
    ensures var t := DoAdmitCut(c, s, n); Cutting(c, t.status, t.cut, t.cutting, t.writes)
  {
  }

  lemma AdmitCutDone(c: Config, s: Sys, n: Node)
    requires Inv(c, s) && CutDue(c, s, n) && !Outstanding(s, n, Done)
    ensures s.status.suspendedAt.Some?
    ensures var t := DoAdmitCut(c, s, n); DoneMeansCut(c, t.status, t.cut, t.writes)
  {
    assert forall l <- Mine(c, n) :: SlotOf(s.status, l) == Suspended;
  }

  lemma InvAdmitCut(c: Config, s: Sys, n: Node)
    requires Inv(c, s) && CutDue(c, s, n) && !Outstanding(s, n, Done)
    ensures s.status.suspendedAt.Some? && Inv(c, DoAdmitCut(c, s, n))
  {
    AdmitCutSlots(c, s, n);
    AdmitCutCuts(c, s, n);
    AdmitCutDone(c, s, n);
    AdmitCutHolds(c, s, n);
    AdmitCutQuiet(c, s, n);
  }

  lemma AdmitCutHolds(c: Config, s: Sys, n: Node)
    requires Inv(c, s) && CutDue(c, s, n) && !Outstanding(s, n, Done)
    ensures s.status.suspendedAt.Some?
    ensures var t := DoAdmitCut(c, s, n);
      && Agents(c, t.status, t.now, t.cutting, t.writes)
      && Held(c, t.status, t.now, t.barrier, t.writes, t.cutting, t.thin, t.primary)
  {
  }

  lemma AdmitCutQuiet(c: Config, s: Sys, n: Node)
    requires Inv(c, s) && CutDue(c, s, n) && !Outstanding(s, n, Done)
    ensures s.status.suspendedAt.Some?
    ensures var t := DoAdmitCut(c, s, n);
      && Quiet(c, t.status, t.cut, t.cutting, t.thin, t.primary)
      && Frozen(c, t.status, t.now, t.cut, t.cutting, t.current, t.data)
  {
    assert forall l <- Mine(c, n) :: l in s.inSync;
  }

  lemma TakeCutIsCurrent(c: Config, s: Sys, n: Node, l: Leg)
    requires !c.env.lateCut && Inv(c, s) && Enabled(c, s, TakeCut(n, l))
    ensures l in Mine(c, n) && OpenAt(s.status, s.cutting[n].round) && FreshGroup(s.status, s.now)
    ensures s.data[l] == s.current[l.vol]
  {
  }

  lemma TakeCutProgress(c: Config, s: Sys, n: Node, l: Leg)
    requires !c.env.lateCut && Inv(c, s) && Enabled(c, s, TakeCut(n, l))
    ensures l in s.data
    ensures var t := DoTakeCut(s, n, l);
      && Agents(c, t.status, t.now, t.cutting, t.writes) && OldCuts(t.status, t.now, t.cut)
      && Held(c, t.status, t.now, t.barrier, t.writes, t.cutting, t.thin, t.primary)
  {
    TakeCutIsCurrent(c, s, n, l);
  }

  lemma TakeCutQuiet(c: Config, s: Sys, n: Node, l: Leg)
    requires !c.env.lateCut && Inv(c, s) && Enabled(c, s, TakeCut(n, l))
    ensures l in s.data
    ensures var t := DoTakeCut(s, n, l);
      Quiet(c, t.status, t.cut, t.cutting, t.thin, t.primary)
  {
    TakeCutIsCurrent(c, s, n, l);
  }

  lemma TakeCutCuts(c: Config, s: Sys, n: Node, l: Leg)
    requires Cutting(c, s.status, s.cut, s.cutting, s.writes) && n in s.cutting && l in s.data && l in Mine(c, n)
    ensures var t := DoTakeCut(s, n, l); Cutting(c, t.status, t.cut, t.cutting, t.writes)
  {
  }

  lemma TakeCutAgrees(c: Config, s: Sys, n: Node, l: Leg)
    requires !c.env.lateCut && Inv(c, s) && Enabled(c, s, TakeCut(n, l))
    ensures l in s.data
    ensures var t := DoTakeCut(s, n, l); Agree(c, t.status, t.cut)
  {
    TakeCutIsCurrent(c, s, n, l);
  }

  lemma TakeCutDone(c: Config, s: Sys, n: Node, l: Leg)
    requires !c.env.lateCut && Inv(c, s) && Enabled(c, s, TakeCut(n, l))
    ensures l in s.data
    ensures var t := DoTakeCut(s, n, l); DoneMeansCut(c, t.status, t.cut, t.writes)
  {
    TakeCutIsCurrent(c, s, n, l);
  }

  lemma TakeCutFrozen(c: Config, s: Sys, n: Node, l: Leg)
    requires !c.env.lateCut && Inv(c, s) && Enabled(c, s, TakeCut(n, l))
    ensures l in s.data
    ensures var t := DoTakeCut(s, n, l);
      Frozen(c, t.status, t.now, t.cut, t.cutting, t.current, t.data)
  {
    TakeCutIsCurrent(c, s, n, l);
  }

  lemma InvTakeCut(c: Config, s: Sys, n: Node, l: Leg)
    requires !c.env.lateCut && Inv(c, s) && Enabled(c, s, TakeCut(n, l))
    ensures l in s.data && Inv(c, DoTakeCut(s, n, l))
  {
    TakeCutProgress(c, s, n, l);
    TakeCutQuiet(c, s, n, l);
    TakeCutIsCurrent(c, s, n, l);
    TakeCutCuts(c, s, n, l);
    TakeCutFrozen(c, s, n, l);
    TakeCutDone(c, s, n, l);
    TakeCutAgrees(c, s, n, l);
  }

  lemma InvSendDone(c: Config, s: Sys, n: Node)
    requires Inv(c, s) && Enabled(c, s, SendDone(n))
    ensures Inv(c, DoSendDone(c, s, n))
  {
    SendDoneCuts(c, s, n);
    SendDoneHolds(c, s, n);
  }

  lemma SendDoneCuts(c: Config, s: Sys, n: Node)
    requires Inv(c, s) && Enabled(c, s, SendDone(n))
    ensures var t := DoSendDone(c, s, n);
      Cutting(c, t.status, t.cut, t.cutting, t.writes) && DoneMeansCut(c, t.status, t.cut, t.writes)
  {
  }

  lemma SendDoneHolds(c: Config, s: Sys, n: Node)
    requires Inv(c, s) && Enabled(c, s, SendDone(n))
    ensures var t := DoSendDone(c, s, n);
      && Agents(c, t.status, t.now, t.cutting, t.writes)
      && Held(c, t.status, t.now, t.barrier, t.writes, t.cutting, t.thin, t.primary)
  {
  }

  lemma InvCollect(c: Config, s: Sys, n: Node, lifted: set<Leg>)
    requires Inv(c, s) && Enabled(c, s, Collect(n, lifted))
    ensures Inv(c, DoCollect(c, s, n, lifted))
  {
    if AllLegs(s.status, c.legs, Done) {
      InvSeal(c, s, lifted);
    }
  }

  lemma InvSeal(c: Config, s: Sys, lifted: set<Leg>)
    requires Inv(c, s) && s.status.ioSuspended && AllLegs(s.status, c.legs, Done)
    ensures Inv(c, s.(status := SealGroup(s.status), barrier := s.barrier - lifted))
  {
  }

  lemma LandRaises(c: Config, s: Sys, w: LegsWrite)
    requires !c.env.staleLanding && Inv(c, s) && Enabled(c, s, Land(w))
    ensures var t := DoLand(s, w);
      Held(c, t.status, t.now, t.barrier, t.writes, t.cutting, t.thin, t.primary)
  {
    LandSlots(s, w);
  }

  lemma LandOrigins(c: Config, s: Sys, w: LegsWrite)
    requires !c.env.staleLanding && Inv(c, s) && Enabled(c, s, Land(w))
    ensures var t := DoLand(s, w);
      Agents(c, t.status, t.now, t.cutting, t.writes) && Fenced(c, t.status, t.origin)
  {
    LandSlots(s, w);
  }

  lemma LandCuts(c: Config, s: Sys, w: LegsWrite)
    requires !c.env.staleLanding && Inv(c, s) && Enabled(c, s, Land(w))
    ensures var t := DoLand(s, w);
      && Cutting(c, t.status, t.cut, t.cutting, t.writes)
      && Quiet(c, t.status, t.cut, t.cutting, t.thin, t.primary)
      && DoneMeansCut(c, t.status, t.cut, t.writes)
  {
    LandSlots(s, w);
    var t := DoLand(s, w);
    assert s.status.ioSuspended && Closed(c, s.status, s.thin, s.primary) ==> Closed(c, t.status, t.thin, t.primary);
  }

  lemma InvLand(c: Config, s: Sys, w: LegsWrite)
    requires !c.env.staleLanding && Inv(c, s) && Enabled(c, s, Land(w))
    ensures Inv(c, DoLand(s, w))
  {
    LandRaises(c, s, w);
    LandOrigins(c, s, w);
    LandCuts(c, s, w);
  }

  lemma LandSlots(s: Sys, w: LegsWrite)
    ensures forall l :: SlotOf(DoLand(s, w).status, l) == if l in w.legs then w.state else SlotOf(s.status, l)
  {
  }

  lemma InvWrite(c: Config, s: Sys, v: Volume, x: Content)
    requires Inv(c, s) && Enabled(c, s, Write(v, x))
    ensures Inv(c, DoWrite(s, v, x))
  {
  }

  lemma InvPromote(c: Config, s: Sys, v: Volume, n: Node)
    requires !c.env.unseenPrimary && Inv(c, s) && Enabled(c, s, Promote(v, n))
    ensures Inv(c, s.(primary := s.primary[v := n]))
  {
  }

  lemma InvDemote(c: Config, s: Sys, v: Volume)
    requires Inv(c, s)
    ensures Inv(c, s.(primary := s.primary - {v}))
  {
  }

  lemma InvMembership(c: Config, s: Sys, step: Step)
    requires Inv(c, s) && Enabled(c, s, step)
    requires step.Stage? || step.Unstage?
    ensures Inv(c, Apply(c, s, step))
  {
    ThinHolds(c, s, step);
    ThinQuiet(c, s, step);
  }

  lemma ThinHolds(c: Config, s: Sys, step: Step)
    requires Inv(c, s) && Enabled(c, s, step) && (step.Stage? || step.Unstage?)
    ensures var t := Apply(c, s, step);
      Held(c, t.status, t.now, t.barrier, t.writes, t.cutting, t.thin, t.primary)
  {
  }

  lemma ThinQuiet(c: Config, s: Sys, step: Step)
    requires Inv(c, s) && Enabled(c, s, step) && (step.Stage? || step.Unstage?)
    ensures var t := Apply(c, s, step); Quiet(c, t.status, t.cut, t.cutting, t.thin, t.primary)
  {
    var t := Apply(c, s, step);
    assert Closed(c, s.status, s.thin, s.primary) ==> Closed(c, t.status, t.thin, t.primary);
  }

  lemma InvClock(c: Config, s: Sys, step: Step)
    requires Inv(c, s) && Enabled(c, s, step)
    requires step.Tick?
    ensures Inv(c, Apply(c, s, step))
  {
  }

  lemma InvHealth(c: Config, s: Sys, step: Step)
    requires Inv(c, s) && Enabled(c, s, step)
    requires step.Degrade? || step.Resync?
    ensures Inv(c, Apply(c, s, step))
  {
  }

  lemma InvLoss(c: Config, s: Sys, step: Step)
    requires Inv(c, s) && Enabled(c, s, step)
    requires step.Crash? || step.Lose?
    ensures Inv(c, Apply(c, s, step))
  {
  }

  lemma InvBarrier(c: Config, s: Sys, step: Step)
    requires Inv(c, s) && Enabled(c, s, step)
    requires step.Lift? || step.Sweep? || step.SiblingRaise? || step.SiblingLift?
    ensures Inv(c, Apply(c, s, step))
  {
    var t := Apply(c, s, step);
    BarrierHolds(c, s, step);
    assert t == s.(barrier := t.barrier);
  }

  lemma BarrierHolds(c: Config, s: Sys, step: Step)
    requires Held(c, s.status, s.now, s.barrier, s.writes, s.cutting, s.thin, s.primary) && Enabled(c, s, step)
    requires step.Lift? || step.Sweep? || step.SiblingRaise? || step.SiblingLift?
    ensures var t := Apply(c, s, step);
      Held(c, t.status, t.now, t.barrier, t.writes, t.cutting, t.thin, t.primary)
  {
  }

  lemma InvRaises(c: Config, s: Sys, step: Step)
    requires Strict(c.env) && Inv(c, s) && Enabled(c, s, step)
    requires step.Open? || step.Raise? || step.FailedRaise? || step.Collect?
    ensures Inv(c, Apply(c, s, step))
  {
    match step
    case Open(n, published) => InvOpen(c, s, n, published);
    case Raise(n) => InvRaise(c, s, n);
    case FailedRaise(n) => InvFailedRaise(c, s, n);
    case Collect(n, lifted) => InvCollect(c, s, n, lifted);
  }

  lemma InvCuts(c: Config, s: Sys, step: Step)
    requires Strict(c.env) && Inv(c, s) && Enabled(c, s, step)
    requires step.AdmitCut? || step.TakeCut? || step.SendDone?
    ensures Inv(c, Apply(c, s, step))
  {
    match step
    case AdmitCut(n) => InvAdmitCut(c, s, n);
    case TakeCut(n, l) => InvTakeCut(c, s, n, l);
    case SendDone(n) => InvSendDone(c, s, n);
  }

  lemma InvEnvironment(c: Config, s: Sys, step: Step)
    requires Strict(c.env) && Inv(c, s) && Enabled(c, s, step)
    requires step.Tick? || step.Promote? || step.Demote? || step.Write? || step.Degrade? || step.Resync?
             || step.Stage? || step.Unstage?
    ensures Inv(c, Apply(c, s, step))
  {
    if step.Tick? {
      InvClock(c, s, step);
    } else if step.Promote? {
      InvPromote(c, s, step.v, step.n);
    } else if step.Demote? {
      InvDemote(c, s, step.v);
    } else if step.Write? {
      InvWrite(c, s, step.v, step.content);
    } else if step.Degrade? || step.Resync? {
      InvHealth(c, s, step);
    } else {
      InvMembership(c, s, step);
    }
  }

  lemma InvStep(c: Config, s: Sys, step: Step)
    requires Strict(c.env) && Inv(c, s) && Enabled(c, s, step)
    ensures Inv(c, Apply(c, s, step))
  {
    if step.Open? || step.Raise? || step.FailedRaise? || step.Collect? {
      InvRaises(c, s, step);
    } else if step.AdmitCut? || step.TakeCut? || step.SendDone? {
      InvCuts(c, s, step);
    } else if step.Crash? || step.Lose? {
      InvLoss(c, s, step);
    } else if step.Land? {
      InvLand(c, s, step.w);
    } else if step.Lift? || step.Sweep? || step.SiblingRaise? || step.SiblingLift? {
      InvBarrier(c, s, step);
    } else {
      InvEnvironment(c, s, step);
    }
  }

  // ----- runs -----

  ghost predicate Initial(c: Config, s: Sys) {
    && s.status == GroupStatus(false, false, None, map[])
    && s.current.Keys == c.members && s.data.Keys == c.legs && s.inSync == c.legs
    && (forall l <- c.legs :: l.vol in c.members && s.data[l] == s.current[l.vol])
    && Roles(c, s.thin, s.primary)
    && s.cut == map[] && s.cutting == map[] && s.writes == {} && s.origin == map[]
  }

  ghost predicate Legal(c: Config, s: Sys, steps: seq<Step>)
    decreases |steps|, 0
  {
    steps == [] ||
    (var before := steps[..|steps| - 1];
     Legal(c, s, before) && Enabled(c, After(c, s, before), steps[|steps| - 1]))
  }

  ghost function After(c: Config, s: Sys, steps: seq<Step>): Sys
    requires Legal(c, s, steps)
    decreases |steps|, 1
  {
    if steps == [] then s
    else Apply(c, After(c, s, steps[..|steps| - 1]), steps[|steps| - 1])
  }

  lemma {:induction false} InvRun(c: Config, s: Sys, steps: seq<Step>)
    requires Strict(c.env) && ValidConfig(c) && Initial(c, s) && Legal(c, s, steps)
    ensures Inv(c, After(c, s, steps))
    decreases |steps|
  {
    if steps != [] {
      InvRun(c, s, steps[..|steps| - 1]);
      InvStep(c, After(c, s, steps[..|steps| - 1]), steps[|steps| - 1]);
    }
  }

  // ----- the theorems -----

  /** Every leg cut in the round shows its volume as `content` has it. */
  ghost predicate CapturedBy(c: Config, s: Sys, content: map<Volume, Content>) {
    s.status.suspendedAt.Some? &&
    forall l <- c.legs :: CutIn(s.cut, l, s.status.suspendedAt.value) && l.vol in content ==>
      s.cut[l].content == content[l.vol]
  }

  ghost predicate SomeCut(c: Config, s: Sys) {
    s.status.suspendedAt.Some? && exists l :: l in c.legs && CutIn(s.cut, l, s.status.suspendedAt.value)
  }

  ghost predicate Live(s: Sys) {
    s.status.ioSuspended || s.status.readyToUse
  }

  lemma OpenKeepsCapture(c: Config, s: Sys, n: Node, published: set<Leg>)
    requires Strict(c.env) && Inv(c, s) && Enabled(c, s, Open(n, published))
    ensures !SomeCut(c, DoOpen(c, s, n, published))
  {
    NothingOfTheNewRound(c, s, n, published);
  }

  lemma CollectKeepsCapture(c: Config, s: Sys, n: Node, lifted: set<Leg>, content: map<Volume, Content>)
    requires Inv(c, s) && Enabled(c, s, Collect(n, lifted))
    requires Live(s) && SomeCut(c, s) ==> CapturedBy(c, s, content)
    ensures var t := DoCollect(c, s, n, lifted); Live(t) && SomeCut(c, t) ==> CapturedBy(c, t, content)
  {
  }

  lemma StepKeepsCapture(c: Config, s: Sys, step: Step, content: map<Volume, Content>)
    requires Strict(c.env) && Inv(c, s) && Enabled(c, s, step)
    requires Live(s) && SomeCut(c, s) ==> CapturedBy(c, s, content)
    requires !step.TakeCut?
    ensures var t := Apply(c, s, step); Live(t) && SomeCut(c, t) ==> CapturedBy(c, t, content)
  {
    if step.Open? {
      OpenKeepsCapture(c, s, step.n, step.published);
    } else if step.Collect? {
      CollectKeepsCapture(c, s, step.n, step.lifted, content);
    } else {
      OtherKeepsCapture(c, s, step, content);
    }
  }

  lemma OtherKeepsCapture(c: Config, s: Sys, step: Step, content: map<Volume, Content>)
    requires Enabled(c, s, step) && !step.Open? && !step.Collect? && !step.TakeCut?
    requires Live(s) && SomeCut(c, s) ==> CapturedBy(c, s, content)
    ensures var t := Apply(c, s, step); Live(t) && SomeCut(c, t) ==> CapturedBy(c, t, content)
  {
    var t := Apply(c, s, step);
    assert Live(t) == Live(s) && t.status.suspendedAt == s.status.suspendedAt;
    assert step.AdmitCut? || t.cut == s.cut;
  }

  lemma {:induction false} OneInstant(c: Config, s: Sys, steps: seq<Step>) returns (k: nat)
    requires Strict(c.env) && ValidConfig(c) && Initial(c, s) && Legal(c, s, steps)
    ensures k <= |steps| && Legal(c, s, steps[..k])
    ensures var t := After(c, s, steps);
      Live(t) && SomeCut(c, t) ==> CapturedBy(c, t, After(c, s, steps[..k]).current)
    decreases |steps|
  {
    InvRun(c, s, steps);
    k := |steps|;
    assert steps[..k] == steps;
    if steps == [] {
      return;
    }
    var before := steps[..|steps| - 1];
    var p, step := After(c, s, before), steps[|steps| - 1];
    InvRun(c, s, before);
    if step.TakeCut? {
      TakeCutIsCurrent(c, p, step.n, step.l);
      return;
    }
    k := OneInstant(c, s, before);
    assert before[..k] == steps[..k];
    StepKeepsCapture(c, p, step, After(c, s, steps[..k]).current);
  }

  /** The consistent cut: when the group is ready there is one instant of the run at which
      every diskful leg's snapshot of every member equals that member's content. */
  ghost predicate ConsistentCut(c: Config, s: Sys, steps: seq<Step>)
    requires Legal(c, s, steps)
  {
    var t := After(c, s, steps);
    t.status.readyToUse ==>
      exists k | 0 <= k <= |steps| && Legal(c, s, steps[..k]) ::
        forall l <- c.legs ::
          l in t.cut && l.vol in After(c, s, steps[..k]).current
          && t.cut[l].content == After(c, s, steps[..k]).current[l.vol]
  }

  lemma GroupConsistentCut(c: Config, s: Sys, steps: seq<Step>)
    requires Strict(c.env) && ValidConfig(c) && Initial(c, s) && Legal(c, s, steps)
    ensures ConsistentCut(c, s, steps)
  {
    InvRun(c, s, steps);
    var t := After(c, s, steps);
    if t.status.readyToUse {
      assert forall l <- c.legs :: CutIn(t.cut, l, t.status.suspendedAt.value);
      var k := OneInstant(c, s, steps);
      assert steps[..k][..] == steps[..k];
      InvRun(c, s, steps[..k]);
    }
  }
}
