/** Any number of snapshot and group rounds over shared volumes, and the one kernel flag
    per leg they all share.

    A suspend and the slot that records it are one step here, and so are a sibling check
    and the resume it guards; a closing round's resume and its closing patch are two.
    Nothing stops rounds over one volume from being open at the same time.  Diskless legs
    come and go with the spec; a group round expects some of them by Pending slots, and a
    node with such a slot raises all its legs again, recorded ones included.  A group covers
    a volume, as far as its siblings see, through the member's snapshot object; with one of
    those gone the group's own agents stand still. */
module BarrierOwnership {
  import opened BarrierTypes

  datatype RoundId = OfSnapshot(name: nat) | OfGroup(name: nat)

  datatype Round = Round(
    open: bool,
    sealed: bool,
    deleting: bool,
    at: Seconds,
    members: set<Volume>,
    missing: set<Volume>,        // members whose snapshot object is gone
    legs: set<Leg>,              // the diskful legs it spans
    slots: map<Leg, SlotState>)

  datatype Env = Env(
    restage: bool,      // a diskless leg may be staged while a slot of it is still Pending
    deleteOpen: bool,   // a round may be deleted while it is open
    lostReply: bool,    // a group's slot patch may land and be reported failed
    memberGone: bool)   // a member's snapshot may go while the group's round is open

  predicate Strict(e: Env) {
    !e.restage && !e.deleteOpen && !e.lostReply && !e.memberGone
  }

  datatype Sys = Sys(
    now: Seconds,
    rounds: map<RoundId, Round>,
    thin: set<Leg>,              // diskless legs in the live specs
    barrier: set<Leg>)

  datatype Step =
    | Tick(d: nat)
    | Stage(l: Leg)
    | Unstage(l: Leg)
    | Open(r: RoundId, n: Node, own: set<Leg>, expected: set<Leg>)
    | Raise(r: RoundId, n: Node)
    | FailedRaise(r: RoundId, n: Node, lifted: set<Leg>)
    | LostReply(r: RoundId, n: Node, lifted: set<Leg>)
    | Cut(r: RoundId, n: Node)
    | CloseLift(r: RoundId, l: Leg)
    | Close(r: RoundId, n: Node)
    | StrayLift(r: RoundId, l: Leg)
    | Delete(r: RoundId)
    | Gone(r: RoundId)
    | MemberGone(r: RoundId, v: Volume)
    | Sweep(l: Leg)

  function SlotOf(round: Round, l: Leg): SlotState {
    if l in round.slots then round.slots[l] else Unset
  }

  function Mine(round: Round, n: Node): set<Leg> {
    set l | l in round.legs && l.node == n
  }

  function ThinOn(s: Sys, round: Round, n: Node): set<Leg> {
    set l | l in s.thin && l.node == n && l.vol in round.members
  }

  function PendingThin(s: Sys, round: Round, n: Node): set<Leg> {
    set l | l in ThinOn(s, round, n) && SlotOf(round, l) == Pending
  }

  /** What a raise of node n fences: all its diskful legs, and its expected diskless ones. */
  function RaisedBy(s: Sys, r: RoundId, n: Node): set<Leg>
    requires r in s.rounds
  {
    Mine(s.rounds[r], n) + if r.OfGroup? then PendingThin(s, s.rounds[r], n) else {}
  }

  predicate ExpiredRound(round: Round, now: Seconds) {
    now - round.at > SUSPEND_DEADLINE
  }

  predicate FreshRound(round: Round, now: Seconds) {
    round.open && now - round.at < SUSPEND_DEADLINE
  }

  ghost predicate AllDone(round: Round) {
    forall l <- round.legs :: SlotOf(round, l) == Done
  }

  ghost predicate CutGate(s: Sys, round: Round) {
    && (forall l <- round.legs :: Raised(SlotOf(round, l)))
    && (forall l <- s.thin :: l.vol in round.members ==> SlotOf(round, l) != Pending)
  }

  /** The volumes a sibling finds the round on. */
  function Visible(round: Round): set<Volume> {
    round.members - round.missing
  }

  /** The round's agents act: it is whole and not being deleted. */
  predicate Working(round: Round) {
    !round.deleting && round.missing == {}
  }

  /** The sibling check: a round other than the caller's own is recorded open over v. */
  ghost predicate OtherActive(s: Sys, own: RoundId, v: Volume) {
    exists q <- s.rounds :: q != own && s.rounds[q].open && v in Visible(s.rounds[q])
  }

  /** May round r take down the flag of l, as far as its siblings are concerned? */
  ghost predicate MayLift(s: Sys, r: RoundId, l: Leg)
    requires r in s.rounds
  {
    l.vol in s.rounds[r].members && !OtherActive(s, r, l.vol)
  }

  ghost predicate RaiseDue(s: Sys, r: RoundId, n: Node)
    requires r in s.rounds
  {
    var round := s.rounds[r];
    && round.open && Working(round) && !ExpiredRound(round, s.now)
    && ((exists l <- Mine(round, n) :: !Raised(SlotOf(round, l)))
        || (r.OfGroup? && PendingThin(s, round, n) != {}))
  }

  /** Done, or out of time: the round's own agents end it. */
  ghost predicate Ending(round: Round, now: Seconds) {
    round.open && Working(round) && (AllDone(round) || ExpiredRound(round, now))
  }

  function SetSlots(round: Round, legs: set<Leg>, x: SlotState): Round {
    round.(slots := round.slots + map l | l in legs :: x)
  }

  ghost predicate Enabled(e: Env, s: Sys, step: Step) {
    (step.Tick? || step.Stage? || step.Unstage? || step.Sweep? || step.r in s.rounds) &&
    match step
    case Tick(_) => true
    case Stage(l) =>
      forall r <- s.rounds :: l !in s.rounds[r].legs && (SlotOf(s.rounds[r], l) == Pending ==> e.restage)
    case Unstage(_) => true
    case Open(r, n, own, expected) =>
      && !s.rounds[r].open && !s.rounds[r].sealed && Working(s.rounds[r])
      && own <= ThinOn(s, s.rounds[r], n)
      && (forall l <- expected :: r.OfGroup? && l.node != n && l in s.thin && l.vol in s.rounds[r].members)
    case Raise(r, n) => RaiseDue(s, r, n)
    case FailedRaise(r, n, lifted) =>
      RaiseDue(s, r, n) && lifted <= RaisedBy(s, r, n) && forall l <- lifted :: MayLift(s, r, l)
    case LostReply(r, n, lifted) =>
      && e.lostReply && r.OfGroup? && s.rounds[r].open && !s.rounds[r].deleting
      && (forall l <- Mine(s.rounds[r], n) :: SlotOf(s.rounds[r], l) == Suspended)
      && (forall l <- lifted :: l.node == n && MayLift(s, r, l))
    case Cut(r, n) =>
      && s.rounds[r].open && Working(s.rounds[r]) && !ExpiredRound(s.rounds[r], s.now)
      && CutGate(s, s.rounds[r])
    case CloseLift(r, l) => Ending(s.rounds[r], s.now) && MayLift(s, r, l)
    case Close(r, n) => Ending(s.rounds[r], s.now)
    case StrayLift(r, l) =>
      && (s.rounds[r].deleting
          || (Working(s.rounds[r]) && (!s.rounds[r].open || ExpiredRound(s.rounds[r], s.now))))
      && MayLift(s, r, l)
    case Delete(r) => s.rounds[r].open ==> e.deleteOpen
    case Gone(r) => s.rounds[r].deleting
    case MemberGone(r, v) => r.OfGroup? && (s.rounds[r].open ==> e.memberGone)
    case Sweep(l) => forall q <- s.rounds :: FreshRound(s.rounds[q], s.now) ==> l.vol !in s.rounds[q].members
  }

  ghost function DoOpen(s: Sys, r: RoundId, n: Node, own: set<Leg>, expected: set<Leg>): Sys
    requires r in s.rounds
  {
    var round := s.rounds[r];
    var reset := SetSlots(SetSlots(round, round.legs + expected, Pending), Mine(round, n) + own, Suspended);
    s.(rounds := s.rounds[r := reset.(open := true, at := s.now)], barrier := s.barrier + Mine(round, n) + own)
  }

  /** A void resets the diskful slots, ends the live expectations and marks the driver's own. */
  ghost function Voided(s: Sys, round: Round, n: Node): Round {
    var ended := set l | l in s.thin && l.vol in round.members && SlotOf(round, l) == Pending;
    SetSlots(SetSlots(SetSlots(round, round.legs, Pending), ended, Error), Mine(round, n), Error)
  }

  ghost function DoClose(s: Sys, r: RoundId, n: Node): Sys
    requires r in s.rounds
  {
    var round := s.rounds[r];
    s.(rounds := s.rounds[r := if AllDone(round) then round.(open := false, sealed := true)
                               else Voided(s, round, n).(open := false, at := s.now)])
  }

  ghost function Apply(e: Env, s: Sys, step: Step): Sys
    requires Enabled(e, s, step)
  {
    match step
    case Tick(d) => s.(now := s.now + d)
    case Stage(l) => s.(thin := s.thin + {l})
    case Unstage(l) => s.(thin := s.thin - {l})
    case Open(r, n, own, expected) => DoOpen(s, r, n, own, expected)
    case Raise(r, n) =>
      s.(rounds := s.rounds[r := SetSlots(s.rounds[r], RaisedBy(s, r, n), Suspended)],
         barrier := s.barrier + RaisedBy(s, r, n))
    case FailedRaise(_, _, lifted) => s.(barrier := s.barrier - lifted)
    case LostReply(_, _, lifted) => s.(barrier := s.barrier - lifted)
    case Cut(r, n) =>
      s.(rounds := s.rounds[r := SetSlots(s.rounds[r], Mine(s.rounds[r], n), Done)],
         barrier := s.barrier + Mine(s.rounds[r], n))
    case CloseLift(_, l) => s.(barrier := s.barrier - {l})
    case Close(r, n) => DoClose(s, r, n)
    case StrayLift(_, l) => s.(barrier := s.barrier - {l})
    case Delete(r) => s.(rounds := s.rounds[r := s.rounds[r].(deleting := true)])
    case Gone(r) => s.(rounds := s.rounds - {r})
    case MemberGone(r, v) => s.(rounds := s.rounds[r := s.rounds[r].(missing := s.rounds[r].missing + {v})])
    case Sweep(l) => s.(barrier := s.barrier - {l})
  }

  // ----- ownership -----

  /** A raised diskful slot in an open round of age d or less has its kernel flag up, unless
      the round is only waiting to be sealed. */
  ghost predicate OwnedUpTo(s: Sys, d: Seconds) {
    forall r <- s.rounds, l <- s.rounds[r].legs ::
      s.rounds[r].open && s.now - s.rounds[r].at <= d && !AllDone(s.rounds[r]) && Raised(SlotOf(s.rounds[r], l))
      ==> l in s.barrier
  }

  ghost predicate Owned(s: Sys) {
    OwnedUpTo(s, SUSPEND_DEADLINE - 1)
  }

  /** All legs of a node move together within a round. */
  ghost predicate Together(round: Round) {
    forall l <- round.legs, m <- round.legs :: l.node == m.node ==> SlotOf(round, l) == SlotOf(round, m)
  }

  /** An expected diskless leg of a node stands beside unraised diskful ones, and the
      expectations of a round that may reopen have ended with it. */
  ghost predicate Expectations(thin: set<Leg>, round: Round) {
    forall l <- thin :: l.vol in round.members && SlotOf(round, l) == Pending ==>
      && (round.open || round.sealed)
      && (round.open ==> forall m <- round.legs :: m.node == l.node ==> !Raised(SlotOf(round, m)))
  }

  /** A snapshot round expects no diskless leg. */
  ghost predicate NoExpectations(round: Round) {
    forall l <- round.slots :: round.slots[l] == Pending ==> l in round.legs
  }

  ghost predicate WellFormed(round: Round, now: Seconds) {
    && (forall l <- round.legs :: l.vol in round.members)
    && (round.open ==> round.at <= now && Together(round))
  }

  ghost predicate Rounds(s: Sys) {
    forall r <- s.rounds :: WellFormed(s.rounds[r], s.now) && s.thin !! s.rounds[r].legs
  }

  /** What the strict environment keeps besides. */
  ghost predicate Settled(s: Sys) {
    forall r <- s.rounds ::
      && Expectations(s.thin, s.rounds[r]) && (s.rounds[r].open ==> Working(s.rounds[r]))
      && (r.OfSnapshot? ==> NoExpectations(s.rounds[r]))
  }

  ghost predicate Initial(s: Sys) {
    forall r <- s.rounds ::
      && !s.rounds[r].open && s.rounds[r].slots == map[]
      && (forall l <- s.rounds[r].legs :: l.vol in s.rounds[r].members && l !in s.thin)
  }

  lemma AfterOpen(s: Sys, r: RoundId, n: Node, own: set<Leg>, expected: set<Leg>, l: Leg)
    requires r in s.rounds
    ensures SlotOf(DoOpen(s, r, n, own, expected).rounds[r], l) ==
            if l in Mine(s.rounds[r], n) + own then Suspended
            else if l in s.rounds[r].legs + expected then Pending
            else SlotOf(s.rounds[r], l)
  {
  }

  lemma AfterVoid(s: Sys, round: Round, n: Node, l: Leg)
    ensures SlotOf(Voided(s, round, n), l) ==
            if l in Mine(round, n) then Error
            else if l in s.thin && l.vol in round.members && SlotOf(round, l) == Pending then Error
            else if l in round.legs then Pending
            else SlotOf(round, l)
  {
  }

  ghost predicate OnRound(step: Step) {
    step.Open? || step.Raise? || step.Cut? || step.Close?
  }

  lemma RoundsOpen(e: Env, s: Sys, r: RoundId, n: Node, own: set<Leg>, expected: set<Leg>)
    requires Rounds(s) && Enabled(e, s, Open(r, n, own, expected))
    ensures Rounds(Apply(e, s, Open(r, n, own, expected)))
  {
    var round, after := s.rounds[r], DoOpen(s, r, n, own, expected).rounds[r];
    forall l <- round.legs ensures SlotOf(after, l) == if l.node == n then Suspended else Pending {
      AfterOpen(s, r, n, own, expected, l);
    }
  }

  lemma RoundsRaise(e: Env, s: Sys, r: RoundId, n: Node)
    requires Rounds(s) && Enabled(e, s, Raise(r, n))
    ensures Rounds(Apply(e, s, Raise(r, n)))
  {
    var round, after := s.rounds[r], Apply(e, s, Raise(r, n)).rounds[r];
    assert forall l <- round.legs :: SlotOf(after, l) == if l.node == n then Suspended else SlotOf(round, l);
  }

  lemma RoundsCut(e: Env, s: Sys, r: RoundId, n: Node)
    requires Rounds(s) && Enabled(e, s, Cut(r, n))
    ensures Rounds(Apply(e, s, Cut(r, n)))
  {
    var round, after := s.rounds[r], Apply(e, s, Cut(r, n)).rounds[r];
    assert forall l <- round.legs :: SlotOf(after, l) == if l.node == n then Done else SlotOf(round, l);
  }

  /** In any environment: stamps, slots by node, and which legs are diskless. */
  lemma RoundsStep(e: Env, s: Sys, step: Step)
    requires Rounds(s) && Enabled(e, s, step)
    ensures Rounds(Apply(e, s, step))
  {
    match step
    case Open(r, n, own, expected) => RoundsOpen(e, s, r, n, own, expected);
    case Raise(r, n) => RoundsRaise(e, s, r, n);
    case Cut(r, n) => RoundsCut(e, s, r, n);
    case _ =>
  }

  lemma SettledOpen(e: Env, s: Sys, r: RoundId, n: Node, own: set<Leg>, expected: set<Leg>)
    requires Rounds(s) && Settled(s) && Enabled(e, s, Open(r, n, own, expected))
    ensures Settled(Apply(e, s, Open(r, n, own, expected)))
  {
    OpenExpects(e, s, r, n, own, expected);
    if r.OfSnapshot? {
      OpenExpectsNone(e, s, r, n, own, expected);
    }
  }

  lemma OpenExpects(e: Env, s: Sys, r: RoundId, n: Node, own: set<Leg>, expected: set<Leg>)
    requires Rounds(s) && Settled(s) && Enabled(e, s, Open(r, n, own, expected))
    ensures Expectations(s.thin, DoOpen(s, r, n, own, expected).rounds[r])
  {
    var round, after := s.rounds[r], DoOpen(s, r, n, own, expected).rounds[r];
    forall l ensures SlotOf(after, l) ==
        if l in Mine(round, n) + own then Suspended
        else if l in round.legs + expected then Pending
        else SlotOf(round, l)
    {
      AfterOpen(s, r, n, own, expected, l);
    }
  }

  lemma OpenExpectsNone(e: Env, s: Sys, r: RoundId, n: Node, own: set<Leg>, expected: set<Leg>)
    requires Settled(s) && Enabled(e, s, Open(r, n, own, expected)) && r.OfSnapshot?
    ensures NoExpectations(DoOpen(s, r, n, own, expected).rounds[r])
  {
    assert expected == {};
  }

  lemma SettledRaise(e: Env, s: Sys, r: RoundId, n: Node)
    requires Rounds(s) && Settled(s) && Enabled(e, s, Raise(r, n))
    ensures Settled(Apply(e, s, Raise(r, n)))
  {
    var round, after := s.rounds[r], Apply(e, s, Raise(r, n)).rounds[r];
    assert forall l :: SlotOf(after, l) == if l in RaisedBy(s, r, n) then Suspended else SlotOf(round, l);
    assert Expectations(s.thin, after);
  }

  lemma SettledCut(e: Env, s: Sys, r: RoundId, n: Node)
    requires Rounds(s) && Settled(s) && Enabled(e, s, Cut(r, n))
    ensures Settled(Apply(e, s, Cut(r, n)))
  {
    var round, after := s.rounds[r], Apply(e, s, Cut(r, n)).rounds[r];
    assert forall l :: SlotOf(after, l) == if l in Mine(round, n) then Done else SlotOf(round, l);
  }

  lemma SettledClose(e: Env, s: Sys, r: RoundId, n: Node)
    requires Rounds(s) && Settled(s) && Enabled(e, s, Close(r, n))
    ensures Settled(Apply(e, s, Close(r, n)))
  {
    if !AllDone(s.rounds[r]) {
      VoidSettles(s, s.rounds[r], n);
    }
  }

  /** A void leaves no live diskless leg expected, and no slot Pending but diskful ones. */
  lemma VoidSettles(s: Sys, round: Round, n: Node)
    ensures var after := Voided(s, round, n).(open := false, at := s.now);
      && (forall l <- s.thin :: l.vol in round.members && l !in round.legs ==> SlotOf(after, l) != Pending)
      && (NoExpectations(round) ==> NoExpectations(after))
  {
    var after := Voided(s, round, n).(open := false, at := s.now);
    forall l ensures SlotOf(after, l) == SlotOf(Voided(s, round, n), l) {
    }
    forall l {
      AfterVoid(s, round, n, l);
    }
  }

  lemma SettledStep(e: Env, s: Sys, step: Step)
    requires Strict(e) && Rounds(s) && Settled(s) && Enabled(e, s, step)
    ensures Settled(Apply(e, s, step))
  {
    match step
    case Open(r, n, own, expected) => SettledOpen(e, s, r, n, own, expected);
    case Raise(r, n) => SettledRaise(e, s, r, n);
    case Cut(r, n) => SettledCut(e, s, r, n);
    case Close(r, n) => SettledClose(e, s, r, n);
    case _ =>
  }

  lemma OwnedOpening(e: Env, s: Sys, step: Step)
    requires Rounds(s) && Settled(s) && Owned(s) && Enabled(e, s, step) && step.Open?
    ensures Owned(Apply(e, s, step))
  {
    forall l {
      AfterOpen(s, step.r, step.n, step.own, step.expected, l);
    }
  }

  lemma OwnedSlots(e: Env, s: Sys, step: Step)
    requires Rounds(s) && Settled(s) && Owned(s) && Enabled(e, s, step) && OnRound(step) && !step.Open?
    ensures Owned(Apply(e, s, step))
  {
  }

  /** A failed raise lifts no recorded leg: one that is due finds its node's legs unraised. */
  lemma OwnedLifts(e: Env, s: Sys, step: Step)
    requires Strict(e) && Rounds(s) && Settled(s) && Owned(s) && Enabled(e, s, step)
    requires step.FailedRaise? || step.CloseLift? || step.StrayLift? || step.Sweep?
    ensures Owned(Apply(e, s, step))
  {
  }

  lemma OwnedStep(e: Env, s: Sys, step: Step)
    requires Strict(e) && Rounds(s) && Settled(s) && Owned(s) && Enabled(e, s, step)
    ensures Owned(Apply(e, s, step))
  {
    if step.Open? {
      OwnedOpening(e, s, step);
    } else if OnRound(step) {
      OwnedSlots(e, s, step);
    } else if step.FailedRaise? || step.CloseLift? || step.StrayLift? || step.Sweep? {
      OwnedLifts(e, s, step);
    }
  }

  // ----- runs -----

  ghost predicate Legal(e: Env, s: Sys, steps: seq<Step>)
    decreases |steps|, 0
  {
    steps == [] ||
    (var before := steps[..|steps| - 1];
     Legal(e, s, before) && Enabled(e, After(e, s, before), steps[|steps| - 1]))
  }

  ghost function After(e: Env, s: Sys, steps: seq<Step>): Sys
    requires Legal(e, s, steps)
    decreases |steps|, 1
  {
    if steps == [] then s else Apply(e, After(e, s, steps[..|steps| - 1]), steps[|steps| - 1])
  }

  lemma Extend(e: Env, s: Sys, steps: seq<Step>, step: Step)
    requires Legal(e, s, steps) && Enabled(e, After(e, s, steps), step)
    ensures Legal(e, s, steps + [step]) && After(e, s, steps + [step]) == Apply(e, After(e, s, steps), step)
  {
    assert (steps + [step])[..|steps|] == steps;
  }

  lemma {:induction false} RoundsRun(e: Env, s: Sys, steps: seq<Step>)
    requires Initial(s) && Legal(e, s, steps)
    ensures Rounds(After(e, s, steps))
    decreases |steps|
  {
    if steps != [] {
      RoundsRun(e, s, steps[..|steps| - 1]);
      RoundsStep(e, After(e, s, steps[..|steps| - 1]), steps[|steps| - 1]);
    }
  }

  lemma {:induction false} OwnedRun(e: Env, s: Sys, steps: seq<Step>)
    requires Strict(e) && Initial(s) && Legal(e, s, steps)
    ensures Settled(After(e, s, steps)) && Owned(After(e, s, steps))
    decreases |steps|
  {
    if steps != [] {
      var before := steps[..|steps| - 1];
      RoundsRun(e, s, before);
      OwnedRun(e, s, before);
      SettledStep(e, After(e, s, before), steps[|steps| - 1]);
      OwnedStep(e, After(e, s, before), steps[|steps| - 1]);
    }
  }

  /** Barrier ownership, in every run of any set of rounds. */
  lemma BarrierOwned(e: Env, s: Sys, steps: seq<Step>, r: RoundId, l: Leg)
    requires Strict(e) && Initial(s) && Legal(e, s, steps)
    requires var t := After(e, s, steps);
      && r in t.rounds && l in t.rounds[r].legs && FreshRound(t.rounds[r], t.now)
      && Raised(SlotOf(t.rounds[r], l)) && l !in t.barrier
    ensures AllDone(After(e, s, steps).rounds[r])
  {
    OwnedRun(e, s, steps);
  }

  /** A flag under an open round falls only by that round's own step, or by a sweep that no
      longer finds the round fresh: siblings never lift it. */
  lemma OnlyOwnerLifts(e: Env, s: Sys, step: Step, r: RoundId, l: Leg)
    requires Enabled(e, s, step) && r in s.rounds && s.rounds[r].open && l.vol in Visible(s.rounds[r])
    requires l in s.barrier && l !in Apply(e, s, step).barrier
    ensures (step == Sweep(l) && !FreshRound(s.rounds[r], s.now)) || (OwnStep(step) && step.r == r)
  {
  }

  // ----- exactly when -----

  ghost predicate OwnedInEveryRun(e: Env, d: Seconds) {
    forall s, steps | Initial(s) && Legal(e, s, steps) :: OwnedUpTo(After(e, s, steps), d)
  }

  const G := OfGroup(0)
  const A := Leg(0, 0)
  const B := Leg(0, 1)
  const C := Leg(1, 0)
  const T := Leg(1, 1)

  const S := OfSnapshot(0)

  /** A group of two volumes: legs A and B of the first, C of the second, and the second
      has a diskless leg T beside B.  The first has a snapshot of its own as well. */
  const START: Sys := Sys(
    0,
    map[G := Round(false, false, false, 0, {0, 1}, {}, {A, B, C}, map[]),
        S := Round(false, false, false, 0, {0}, {}, {A, B}, map[])],
    {T}, {})

  ghost predicate Reaches(e: Env, t: Sys) {
    exists steps :: Legal(e, START, steps) && After(e, START, steps) == t
  }

  lemma Advance(e: Env, s: Sys, step: Step) returns (t: Sys)
    requires Reaches(e, s) && Enabled(e, s, step)
    ensures t == Apply(e, s, step) && Reaches(e, t)
  {
    var steps :| Legal(e, START, steps) && After(e, START, steps) == s;
    Extend(e, START, steps, step);
    t := Apply(e, s, step);
  }

  /** A flag is down under a recorded leg of the open round. */
  lemma Breaks(e: Env, t: Sys, l: Leg, d: Seconds)
    requires Reaches(e, t) && G in t.rounds && t.rounds[G].open && t.now - t.rounds[G].at <= d
    requires l in t.rounds[G].legs && SlotOf(t.rounds[G], l) == Suspended && l !in t.barrier
    ensures !OwnedInEveryRun(e, d)
  {
    var steps :| Legal(e, START, steps) && After(e, START, steps) == t;
    assert Initial(START);
    assert !OwnedUpTo(After(e, START, steps), d);
  }

  predicate Opened(s: Sys) {
    && G in s.rounds && s.rounds[G].members == {0, 1} && s.rounds[G].legs == {A, B, C}
    && s.rounds[G].open && Working(s.rounds[G])
    && s.rounds.Keys == {G, S} && s.rounds[S] == START.rounds[S]
    && SlotOf(s.rounds[G], A) == SlotOf(s.rounds[G], C) == Suspended && s.rounds[G].at == 0
  }

  lemma OpenRun(e: Env) returns (t: Sys)
    ensures Reaches(e, t) && Opened(t) && t.now == 0 && t.thin == {T}
    ensures SlotOf(t.rounds[G], B) == SlotOf(t.rounds[G], T) == Pending
  {
    assert Legal(e, START, []) && After(e, START, []) == START;
    assert Reaches(e, START);
    t := Advance(e, START, Open(G, 0, {}, {T}));
    forall l {
      AfterOpen(START, G, 0, {}, {T}, l);
    }
    assert Mine(START.rounds[G], 0) == {A, C};
  }

  /** Node 1 raises while its diskless leg is unstaged: its expectation stays. */
  lemma RaisedWithout(e: Env) returns (t: Sys)
    ensures Reaches(e, t) && Opened(t) && t.now == 0 && t.thin == {}
    ensures SlotOf(t.rounds[G], B) == Suspended && SlotOf(t.rounds[G], T) == Pending
  {
    var s := OpenRun(e);
    s := Advance(e, s, Unstage(T));
    assert Mine(s.rounds[G], 1) == {B} == RaisedBy(s, G, 1);
    t := Advance(e, s, Raise(G, 1));
  }

  /** It raises again once the leg is back: that raise fails and lifts the leg the first
      one recorded. */
  lemma RestageBreaks(e: Env, d: nat)
    requires e.restage
    ensures !OwnedInEveryRun(e, d)
  {
    var s := RaisedWithout(e);
    s := Advance(e, s, Stage(T));
    assert T in PendingThin(s, s.rounds[G], 1) && B in Mine(s.rounds[G], 1);
    s := Advance(e, s, FailedRaise(G, 1, {B}));
    Breaks(e, s, B, d);
  }

  /** A round deleted while open takes its flags down under slots that still say Suspended. */
  lemma DeletionBreaks(e: Env, d: nat)
    requires e.deleteOpen
    ensures !OwnedInEveryRun(e, d)
  {
    var s := OpenRun(e);
    s := Advance(e, s, Delete(G));
    s := Advance(e, s, StrayLift(G, A));
    Breaks(e, s, A, d);
  }

  /** A raise that was recorded but reported failed is taken back by its agent. */
  lemma LostReplyBreaks(e: Env, d: nat)
    requires e.lostReply
    ensures !OwnedInEveryRun(e, d)
  {
    var s := OpenRun(e);
    s := Advance(e, s, LostReply(G, 0, {A}));
    Breaks(e, s, A, d);
  }

  /** With the member's snapshot gone, another snapshot's agent finds no round over the volume
      and lifts a leg the group's open round has recorded. */
  lemma MemberGoneBreaks(e: Env, d: nat)
    requires e.memberGone
    ensures !OwnedInEveryRun(e, d)
  {
    var s := OpenRun(e);
    s := Advance(e, s, MemberGone(G, 0));
    assert 0 !in Visible(s.rounds[G]);
    s := Advance(e, s, StrayLift(S, A));
    Breaks(e, s, A, d);
  }

  /** At the deadline second the sweep lifts a leg of a round no node yet reads as expired. */
  lemma DeadlineBreaks(e: Env, d: nat)
    requires d >= SUSPEND_DEADLINE
    ensures !OwnedInEveryRun(e, d)
  {
    var s := OpenRun(e);
    s := Advance(e, s, Tick(SUSPEND_DEADLINE));
    s := Advance(e, s, Sweep(A));
    Breaks(e, s, A, d);
  }

  /** Rounds of age d or less own their flags in every run, exactly when d is short of the
      deadline and the environment takes none of the four liberties. */
  lemma OwnershipExactly(e: Env, d: nat)
    ensures OwnedInEveryRun(e, d) <==> Strict(e) && d < SUSPEND_DEADLINE
  {
    if d >= SUSPEND_DEADLINE {
      DeadlineBreaks(e, d);
    } else if e.restage {
      RestageBreaks(e, d);
    } else if e.deleteOpen {
      DeletionBreaks(e, d);
    } else if e.lostReply {
      LostReplyBreaks(e, d);
    } else if e.memberGone {
      MemberGoneBreaks(e, d);
    } else {
      forall s, steps | Initial(s) && Legal(e, s, steps)
        ensures OwnedUpTo(After(e, s, steps), d)
      {
        OwnedRun(e, s, steps);
      }
    }
  }

  // ----- no stranded freeze -----

  predicate OwnStep(step: Step) {
    !step.Tick? && !step.Stage? && !step.Unstage? && !step.Sweep?
  }

  ghost predicate Lowers(e: Env, s: Sys, step: Step, l: Leg) {
    Enabled(e, s, step) && l in s.barrier && l !in Apply(e, s, step).barrier
  }

  /** Two open rounds over a volume defer to each other: no step of any round, not even a
      failed raise, lifts a leg of it. */
  lemma MutualDeferral(e: Env, s: Sys, q: RoundId, r: RoundId, l: Leg)
    requires q in s.rounds && r in s.rounds && q != r && s.rounds[q].open && s.rounds[r].open
    requires l.vol in Visible(s.rounds[q]) && l.vol in Visible(s.rounds[r])
    ensures forall step :: Lowers(e, s, step, l) ==> step == Sweep(l)
  {
    forall step | Lowers(e, s, step, l)
      ensures step == Sweep(l)
    {
      if OwnStep(step) {
        assert OtherActive(s, step.r, l.vol) by {
          assert s.rounds[q].open && s.rounds[r].open;
        }
      }
    }
  }

  /** The round has come to where its own agent on the leg's node may lower the flag. */
  ghost predicate Releasing(s: Sys, r: RoundId, l: Leg)
    requires r in s.rounds
  {
    var round := s.rounds[r];
    || round.deleting
    || (Working(round) && (!round.open || AllDone(round) || ExpiredRound(round, s.now)))
    || (RaiseDue(s, r, l.node) && l in RaisedBy(s, r, l.node))
  }

  lemma LiftReleases(e: Env, s: Sys, step: Step, l: Leg)
    requires !e.lostReply && OwnStep(step) && Lowers(e, s, step, l)
    ensures step.r in s.rounds && MayLift(s, step.r, l) && Releasing(s, step.r, l)
  {
  }

  lemma ReleaseLifts(e: Env, s: Sys, r: RoundId, l: Leg) returns (step: Step)
    requires r in s.rounds && l in s.barrier && MayLift(s, r, l) && Releasing(s, r, l)
    ensures OwnStep(step) && Lowers(e, s, step, l)
  {
    var round := s.rounds[r];
    if round.deleting || (Working(round) && (!round.open || ExpiredRound(round, s.now))) {
      step := StrayLift(r, l);
    } else if Working(round) && AllDone(round) {
      step := CloseLift(r, l);
    } else {
      step := FailedRaise(r, l.node, {l});
    }
  }

  /** With replies never lost, some round's own step lowers a flag exactly when a round over
      its volume is releasing it and no other round over the volume is open. */
  lemma OwnLiftExactly(e: Env, s: Sys, l: Leg)
    requires !e.lostReply && l in s.barrier
    ensures (exists step :: OwnStep(step) && Lowers(e, s, step, l)) <==>
            exists r <- s.rounds ::
              && l.vol in s.rounds[r].members && Releasing(s, r, l)
              && forall q <- s.rounds :: s.rounds[q].open && l.vol in Visible(s.rounds[q]) ==> q == r
  {
    if step :| OwnStep(step) && Lowers(e, s, step, l) {
      LiftReleases(e, s, step, l);
    }
    if r :| r in s.rounds && l.vol in s.rounds[r].members && Releasing(s, r, l)
            && forall q <- s.rounds :: s.rounds[q].open && l.vol in Visible(s.rounds[q]) ==> q == r {
      var step := ReleaseLifts(e, s, r, l);
    }
  }

  /** No freeze is stranded: in any environment, whatever the rounds have come to, a raised
      flag is down after one deadline and a sweep. */
  lemma AlwaysALift(e: Env, s: Sys, steps: seq<Step>, l: Leg)
    requires Initial(s) && Legal(e, s, steps) && l in After(e, s, steps).barrier
    ensures var rest := [Tick(SUSPEND_DEADLINE), Sweep(l)];
            Legal(e, s, steps + rest) && After(e, s, steps + rest).barrier == After(e, s, steps).barrier - {l}
  {
    RoundsRun(e, s, steps);
    var waited := steps + [Tick(SUSPEND_DEADLINE)];
    Extend(e, s, steps, Tick(SUSPEND_DEADLINE));
    Extend(e, s, waited, Sweep(l));
    assert steps + [Tick(SUSPEND_DEADLINE), Sweep(l)] == waited + [Sweep(l)];
  }
}
