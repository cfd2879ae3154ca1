/** Why the group's consistent cut needs each of its five environment assumptions: with any
    one of them dropped, every group with a member of two diskful legs has a run that seals a
    torn cut.

    The runs open a round at second 0 with every leg in sync and content 0, and tear the two
    legs x and y of one volume: one is cut before a write of 7 and the other after it. */
module GroupLiberties {
  import opened BarrierTypes
  import opened GroupRound

  ghost predicate ConsistentInEveryRun(c: Config) {
    forall s, steps | Initial(c, s) && Legal(c, s, steps) :: ConsistentCut(c, s, steps)
  }

  function NodesOf(c: Config): set<Node> {
    set l | l in c.legs :: l.node
  }

  function LegsOn(c: Config, nodes: set<Node>): set<Leg> {
    set l | l in c.legs && l.node in nodes
  }

  lemma LegsJoin(c: Config, all: set<Node>, done: set<Node>, n: Node)
    requires n in all - done
    ensures LegsOn(c, all - done) == Mine(c, n) + LegsOn(c, all - (done + {n}))
  {
  }

  lemma FlagsJoin(flags: set<Leg>, first: set<Leg>, rest: set<Leg>, all: set<Leg>, after: set<Leg>)
    requires all == first + rest && after == flags + first + rest
    ensures after == flags + all
  {
  }

  /** Two diskful legs of one member. */
  ghost predicate Pair(c: Config, x: Leg, y: Leg) {
    ValidConfig(c) && x in c.legs && y in c.legs && x.vol == y.vol && x.node != y.node
  }

  function StartAt(c: Config, x: Leg): Sys {
    Sys(0, GroupStatus(false, false, None, map[]), map[], {}, {}, map[x.vol := x.node],
        map v | v in c.members :: 0, map l | l in c.legs :: 0, c.legs, map[], map[], {})
  }

  ghost predicate Reaches(c: Config, t: Sys) {
    exists x, steps :: x in c.legs && Legal(c, StartAt(c, x), steps) && After(c, StartAt(c, x), steps) == t
  }

  lemma Advance(c: Config, s: Sys, step: Step) returns (t: Sys)
    requires Reaches(c, s) && Enabled(c, s, step)
    ensures Reaches(c, t) && t == Apply(c, s, step)
  {
    t := Apply(c, s, step);
    var x, steps :| x in c.legs && Legal(c, StartAt(c, x), steps) && After(c, StartAt(c, x), steps) == s;
    var start := StartAt(c, x);
    assert (steps + [step])[..|steps|] == steps;
    assert Legal(c, start, steps + [step]) && After(c, start, steps + [step]) == t;
  }

  // ----- an open round -----

  /** Every leg holds the content of its volume, and no slot names a diskless leg. */
  ghost predicate Level(c: Config, s: Sys) {
    && s.inSync == c.legs && s.data.Keys == c.legs && s.current.Keys == c.members
    && (forall l <- c.legs :: l.vol in c.members && s.data[l] == s.current[l.vol])
    && s.status.perLeg.Keys <= c.legs && s.thin !! c.legs
  }

  /** The round of second r is open and in its first second; nobody is mid-cut. */
  ghost predicate InRound(c: Config, s: Sys, r: Seconds) {
    && OpenAt(s.status, r) && !s.status.readyToUse && s.now == r && s.cutting == map[] && Level(c, s)
  }

  /** Which nodes are done and which are raised; the rest are pending. */
  ghost predicate Slots(c: Config, s: Sys, raised: set<Node>, done: set<Node>) {
    forall l <- c.legs ::
      SlotOf(s.status, l) == if l.node in done then Done else if l.node in raised then Suspended else Pending
  }

  lemma LevelSame(c: Config, s: Sys, t: Sys)
    requires Level(c, s) && t.status == s.status && t.thin == s.thin
    requires t.inSync == s.inSync && t.data == s.data && t.current == s.current
    ensures Level(c, t)
  {
  }

  lemma HealthyHere(c: Config, s: Sys, n: Node)
    requires Level(c, s)
    ensures Healthy(c, s, n) && ActiveThin(s, n) == {} && PendingThin(s, n) == {}
  {
  }

  lemma OpenedSlots(c: Config, st: GroupStatus, n: Node, now: Seconds)
    requires st.perLeg.Keys <= c.legs
    ensures var t := OpenGroup(st, c.legs, {}, Mine(c, n), now);
      && t.perLeg.Keys <= c.legs
      && forall l <- c.legs :: SlotOf(t, l) == if l.node == n then Suspended else Pending
  {
  }

  lemma NothingThin(c: Config, s: Sys, n: Node)
    requires s.thin == {}
    ensures Mine(c, n) + (set l | l in ThinPrimaries(s) && l.node == n) == Mine(c, n)
  {
  }

  lemma Opens(c: Config, s: Sys, n: Node) returns (t: Sys)
    requires Reaches(c, s) && Level(c, s) && s.thin == {} && s.cutting == map[]
    requires !s.status.ioSuspended && !s.status.readyToUse && (forall l <- Mine(c, n) :: l !in s.barrier)
    ensures Reaches(c, t) && InRound(c, t, s.now) && Slots(c, t, {n}, {})
    ensures t == s.(status := t.status, barrier := s.barrier + Mine(c, n), origin := t.origin)
  {
    HealthyHere(c, s, n);
    assert Enabled(c, s, Open(n, {}));
    t := Advance(c, s, Open(n, {}));
    NothingThin(c, s, n);
    OpenedSlots(c, s.status, n, s.now);
    assert t.status == OpenGroup(s.status, c.legs, {}, Mine(c, n), s.now);
  }

  /** A node raises the barriers of all its legs; the write that says so is in flight. */
  lemma StillDue(c: Config, s: Sys, r: Seconds, raised: set<Node>, done: set<Node>, l: Leg)
    requires InRound(c, s, r) && Slots(c, s, raised, done) && l in c.legs && l.node !in raised + done
    ensures RaiseDue(c, s, l.node) && RaisedBy(c, s, l.node) == Mine(c, l.node) && l in Mine(c, l.node)
  {
    HealthyHere(c, s, l.node);
    assert l in Mine(c, l.node) && SlotOf(s.status, l) == Pending;
  }

  lemma Raises(c: Config, s: Sys, r: Seconds, raised: set<Node>, done: set<Node>, n: Node) returns (t: Sys)
    requires Reaches(c, s) && InRound(c, s, r) && Slots(c, s, raised, done) && n in NodesOf(c) && n !in raised + done
    ensures Reaches(c, t) && RaiseDue(c, s, n)
    ensures t == s.(barrier := s.barrier + Mine(c, n), writes := s.writes + {LegsWrite(n, r, Mine(c, n), Suspended)})
  {
    var l :| l in c.legs && l.node == n;
    StillDue(c, s, r, raised, done, l);
    t := Advance(c, s, Raise(n));
  }

  lemma LandedSlots(c: Config, s: Sys, t: Sys, n: Node, x: SlotState)
    requires t == s.(status := t.status, origin := t.origin, writes := t.writes)
    requires t.status == s.status.(perLeg := s.status.perLeg + map l | l in Mine(c, n) :: x)
    ensures forall l <- c.legs :: SlotOf(t.status, l) == if l.node == n then x else SlotOf(s.status, l)
    ensures Level(c, s) ==> Level(c, t)
  {
  }

  /** A slot write lands, in its own round or, if need be, a later one. */
  lemma Lands(c: Config, s: Sys, n: Node, round: Seconds, x: SlotState) returns (t: Sys)
    requires Reaches(c, s) && s.writes == {LegsWrite(n, round, Mine(c, n), x)}
    requires s.status.suspendedAt == Some(round) || c.env.staleLanding
    ensures Reaches(c, t) && t == s.(status := t.status, origin := t.origin, writes := {})
    ensures t.status == s.status.(perLeg := s.status.perLeg + map l | l in Mine(c, n) :: x)
    ensures forall l <- c.legs :: SlotOf(t.status, l) == if l.node == n then x else SlotOf(s.status, l)
    ensures Level(c, s) ==> Level(c, t)
  {
    t := Advance(c, s, Land(LegsWrite(n, round, Mine(c, n), x)));
    assert t == DoLand(s, LegsWrite(n, round, Mine(c, n), x));
    LandedSlots(c, s, t, n, x);
  }

  lemma RaiseOne(c: Config, s: Sys, r: Seconds, raised: set<Node>, done: set<Node>, n: Node) returns (t: Sys)
    requires Reaches(c, s) && InRound(c, s, r) && Slots(c, s, raised, done) && s.writes == {}
    requires n in NodesOf(c) && n !in raised + done
    ensures Reaches(c, t) && InRound(c, t, r) && Slots(c, t, raised + {n}, done) && t.writes == {}
    ensures t == s.(status := t.status, barrier := s.barrier + Mine(c, n), origin := t.origin)
  {
    var u := Raises(c, s, r, raised, done, n);
    LevelSame(c, s, u);
    t := Lands(c, u, n, r, Suspended);
    SlotsMove(c, s, t, n, raised, done, raised + {n}, done);
  }

  lemma SlotsMove(
    c: Config, s: Sys, t: Sys, n: Node, raised: set<Node>, done: set<Node>, raised2: set<Node>, done2: set<Node>)
    requires Slots(c, s, raised, done)
    requires (raised2 == raised + {n} && done2 == done && n !in done) || (raised2 == raised && done2 == done + {n})
    requires var x := if n in done2 then Done else Suspended;
      forall l <- c.legs :: SlotOf(t.status, l) == if l.node == n then x else SlotOf(s.status, l)
    ensures Slots(c, t, raised2, done2)
  {
  }

  lemma FewerLeft(all: set<Node>, some: set<Node>, n: Node)
    requires n in all - some && some <= all
    ensures some + {n} <= all && |all - (some + {n})| < |all - some|
  {
    assert all - (some + {n}) == all - some - {n};
  }

  /** Nodes raise, one after the other, until all of a set have. */
  /** One raise and the rest are all the raises. */
  lemma RaisesJoin(c: Config, s: Sys, u: Sys, t: Sys, raised: set<Node>, n: Node, all: set<Node>)
    requires n in all - raised
    requires u == s.(status := u.status, barrier := s.barrier + Mine(c, n), origin := u.origin)
    requires t == u.(status := t.status, barrier := t.barrier, origin := t.origin)
    requires t.barrier == u.barrier + LegsOn(c, all - (raised + {n}))
    ensures t == s.(status := t.status, barrier := t.barrier, origin := t.origin)
    ensures s.barrier + LegsOn(c, all - raised) == t.barrier
  {
    LegsJoin(c, all, raised, n);
    FlagsJoin(s.barrier, Mine(c, n), LegsOn(c, all - (raised + {n})), LegsOn(c, all - raised), t.barrier);
  }

  lemma {:induction false} RaiseMany(c: Config, s: Sys, r: Seconds, raised: set<Node>, done: set<Node>, all: set<Node>)
    returns (t: Sys)
    requires Reaches(c, s) && InRound(c, s, r) && Slots(c, s, raised, done) && s.writes == {}
    requires raised <= all <= NodesOf(c) && all !! done
    ensures Reaches(c, t) && InRound(c, t, r) && Slots(c, t, all, done) && t.writes == {}
    ensures t == s.(status := t.status, barrier := t.barrier, origin := t.origin)
    ensures s.barrier + LegsOn(c, all - raised) == t.barrier
    decreases |all - raised|
  {
    if all - raised == {} {
      assert raised == all;
      t := s;
    } else {
      var n :| n in all - raised;
      var u := RaiseOne(c, s, r, raised, done, n);
      FewerLeft(all, raised, n);
      t := RaiseMany(c, u, r, raised + {n}, done, all);
      RaisesJoin(c, s, u, t, raised, n, all);
    }
  }

  // ----- cuts -----

  /** Everyone is raised; a node that is not done goes into its cuts. */
  lemma Admits(c: Config, s: Sys, r: Seconds, done: set<Node>, n: Node) returns (t: Sys)
    requires Reaches(c, s) && InRound(c, s, r) && Slots(c, s, NodesOf(c), done)
    requires n in NodesOf(c) && n !in done && (Outstanding(s, n, Done) ==> c.env.overlappingRecut)
    ensures Reaches(c, t) && t == DoAdmitCut(c, s, n)
  {
    HealthyHere(c, s, n);
    var l :| l in c.legs && l.node == n;
    assert l in Mine(c, n) && SlotOf(s.status, l) == Suspended;
    t := Advance(c, s, AdmitCut(n));
  }

  /** Which cuts there are: of the legs taken, what they hold; of the others, what there was. */
  ghost predicate CutsOf(c: Config, data: map<Leg, Content>, before: map<Leg, LegCut>, after: map<Leg, LegCut>,
                         taken: set<Leg>) {
    forall l <- c.legs ::
      if l in taken then l in data && l in after && after[l].content == data[l]
      else (l in before <==> l in after) && (l in before ==> after[l] == before[l])
  }

  lemma CutsJoin(c: Config, data: map<Leg, Content>, a: map<Leg, LegCut>, b: map<Leg, LegCut>, d: map<Leg, LegCut>,
                 first: set<Leg>, rest: set<Leg>, all: set<Leg>)
    requires CutsOf(c, data, a, b, first) && CutsOf(c, data, b, d, rest) && all == first + rest
    ensures CutsOf(c, data, a, d, all)
  {
  }

  lemma TakesOne(c: Config, s: Sys, n: Node, round: Seconds, todo: set<Leg>, l: Leg) returns (t: Sys)
    requires Reaches(c, s) && s.cutting == map[n := Progress(round, todo)] && l in todo && l in s.data
    requires s.now - round < SUSPEND_DEADLINE || (c.env.lateCut && s.now - round <= SUSPEND_DEADLINE)
    ensures Reaches(c, t) && t == s.(cut := t.cut, cutting := map[n := Progress(round, todo - {l})])
    ensures CutsOf(c, s.data, s.cut, t.cut, {l})
  {
    t := Advance(c, s, TakeCut(n, l));
  }

  /** A node takes the cuts it has left, one after the other. */
  lemma {:induction false} TakeAll(c: Config, s: Sys, n: Node, round: Seconds, todo: set<Leg>) returns (t: Sys)
    requires Reaches(c, s) && s.cutting == map[n := Progress(round, todo)] && todo <= s.data.Keys
    requires s.now - round < SUSPEND_DEADLINE || (c.env.lateCut && s.now - round <= SUSPEND_DEADLINE)
    ensures Reaches(c, t) && t == s.(cut := t.cut, cutting := map[n := Progress(round, {})])
    ensures CutsOf(c, s.data, s.cut, t.cut, todo)
    decreases |todo|
  {
    if todo == {} {
      t := s;
    } else {
      var l :| l in todo;
      var u := TakesOne(c, s, n, round, todo, l);
      t := TakeAll(c, u, n, round, todo - {l});
      CutsJoin(c, s.data, s.cut, u.cut, t.cut, {l}, todo - {l}, todo);
    }
  }

  lemma Reports(c: Config, s: Sys, n: Node, round: Seconds) returns (t: Sys)
    requires Reaches(c, s) && s.cutting == map[n := Progress(round, {})]
    ensures Reaches(c, t)
    ensures t == s.(cutting := map[], writes := s.writes + {LegsWrite(n, round, Mine(c, n), Done)})
  {
    t := Advance(c, s, SendDone(n));
    assert t.cutting == map[];
  }

  /** From an admitted cut to a Done that has been sent. */
  lemma CutsAndReports(c: Config, s: Sys, n: Node, round: Seconds) returns (t: Sys)
    requires Reaches(c, s) && s.cutting == map[n := Progress(round, Mine(c, n))] && s.data.Keys == c.legs
    requires s.now - round < SUSPEND_DEADLINE || (c.env.lateCut && s.now - round <= SUSPEND_DEADLINE)
    ensures Reaches(c, t)
    ensures t == s.(cut := t.cut, cutting := map[], writes := s.writes + {LegsWrite(n, round, Mine(c, n), Done)})
    ensures CutsOf(c, s.data, s.cut, t.cut, Mine(c, n))
  {
    t := TakeAll(c, s, n, round, Mine(c, n));
    t := Reports(c, t, n, round);
  }

  /** Admitting deletes cuts of the node's legs only, and those it takes anew. */
  lemma AfterDeletion(c: Config, data: map<Leg, Content>, a: map<Leg, LegCut>, d: map<Leg, LegCut>, n: Node)
    requires CutsOf(c, data, a - Mine(c, n), d, Mine(c, n))
    ensures CutsOf(c, data, a, d, Mine(c, n))
  {
  }

  lemma CutSent(c: Config, s: Sys, r: Seconds, done: set<Node>, n: Node) returns (t: Sys)
    requires Reaches(c, s) && InRound(c, s, r) && Slots(c, s, NodesOf(c), done) && s.writes == {}
    requires n in NodesOf(c) && n !in done
    ensures Reaches(c, t)
    ensures t == s.(barrier := s.barrier + Mine(c, n), cut := t.cut, writes := {LegsWrite(n, r, Mine(c, n), Done)})
    ensures CutsOf(c, s.data, s.cut, t.cut, Mine(c, n))
  {
    var u := Admitted(c, s, r, done, n);
    t := CutsOver(c, s, u, n, r);
  }

  /** Cuts taken and reported after an admission in the same second. */
  lemma CutsOver(c: Config, s: Sys, u: Sys, n: Node, r: Seconds) returns (t: Sys)
    requires Reaches(c, u) && s.cutting == map[] && s.writes == {} && s.data.Keys == c.legs && s.now == r
    requires u == s.(barrier := s.barrier + Mine(c, n), cut := s.cut - Mine(c, n),
                     cutting := map[n := Progress(r, Mine(c, n))])
    ensures Reaches(c, t)
    ensures t == s.(barrier := s.barrier + Mine(c, n), cut := t.cut, writes := {LegsWrite(n, r, Mine(c, n), Done)})
    ensures CutsOf(c, s.data, s.cut, t.cut, Mine(c, n))
  {
    t := CutsAndReports(c, u, n, r);
    AfterDeletion(c, s.data, s.cut, t.cut, n);
  }

  lemma Admitted(c: Config, s: Sys, r: Seconds, done: set<Node>, n: Node) returns (t: Sys)
    requires Reaches(c, s) && InRound(c, s, r) && Slots(c, s, NodesOf(c), done)
    requires n in NodesOf(c) && n !in done && (Outstanding(s, n, Done) ==> c.env.overlappingRecut)
    ensures Reaches(c, t)
    ensures t == s.(barrier := s.barrier + Mine(c, n), cut := s.cut - Mine(c, n),
                    cutting := map[n := Progress(r, Mine(c, n))])
  {
    t := Admits(c, s, r, done, n);
    assert t.cutting == map[n := Progress(r, Mine(c, n))];
  }

  lemma CutOne(c: Config, s: Sys, r: Seconds, done: set<Node>, n: Node) returns (t: Sys)
    requires Reaches(c, s) && InRound(c, s, r) && Slots(c, s, NodesOf(c), done) && s.writes == {}
    requires n in NodesOf(c) && n !in done
    ensures Reaches(c, t) && InRound(c, t, r) && Slots(c, t, NodesOf(c), done + {n}) && t.writes == {}
    ensures t == s.(status := t.status, barrier := s.barrier + Mine(c, n), origin := t.origin, cut := t.cut)
    ensures CutsOf(c, s.data, s.cut, t.cut, Mine(c, n))
  {
    var u := CutSent(c, s, r, done, n);
    LevelSame(c, s, u);
    t := Lands(c, u, n, r, Done);
    SlotsMove(c, s, t, n, NodesOf(c), done, NodesOf(c), done + {n});
  }

  /** One node's cuts and the rest are all the cuts. */
  lemma CutsFollow(c: Config, s: Sys, u: Sys, t: Sys, done: set<Node>, n: Node, all: set<Node>)
    requires n in all - done && CutsOf(c, s.data, s.cut, u.cut, Mine(c, n))
    requires u == s.(status := u.status, barrier := s.barrier + Mine(c, n), origin := u.origin, cut := u.cut)
    requires t == u.(status := t.status, barrier := t.barrier, origin := t.origin, cut := t.cut)
    requires u.barrier <= t.barrier <= u.barrier + LegsOn(c, all - (done + {n}))
    requires CutsOf(c, u.data, u.cut, t.cut, LegsOn(c, all - (done + {n})))
    ensures t == s.(status := t.status, barrier := t.barrier, origin := t.origin, cut := t.cut)
    ensures s.barrier <= t.barrier <= s.barrier + LegsOn(c, all - done)
    ensures CutsOf(c, s.data, s.cut, t.cut, LegsOn(c, all - done))
  {
    LegsJoin(c, all, done, n);
    CutsJoin(c, s.data, s.cut, u.cut, t.cut, Mine(c, n), LegsOn(c, all - (done + {n})), LegsOn(c, all - done));
  }

  lemma {:induction false} CutMany(c: Config, s: Sys, r: Seconds, done: set<Node>, all: set<Node>) returns (t: Sys)
    requires Reaches(c, s) && InRound(c, s, r) && Slots(c, s, NodesOf(c), done) && s.writes == {}
    requires done <= all <= NodesOf(c)
    ensures Reaches(c, t) && InRound(c, t, r) && Slots(c, t, NodesOf(c), all) && t.writes == {}
    ensures t == s.(status := t.status, barrier := t.barrier, origin := t.origin, cut := t.cut)
    ensures s.barrier <= t.barrier <= s.barrier + LegsOn(c, all - done)
    ensures CutsOf(c, s.data, s.cut, t.cut, LegsOn(c, all - done))
    decreases |all - done|
  {
    if all - done == {} {
      assert done == all;
      t := s;
    } else {
      var n :| n in all - done;
      var u := CutOne(c, s, r, done, n);
      FewerLeft(all, done, n);
      t := CutMany(c, u, r, done + {n}, all);
      CutsFollow(c, s, u, t, done, n, all);
    }
  }

  // ----- one leg to go -----

  /** The state every run starts from: content 0 everywhere, x's node Primary of its volume. */
  lemma Starts(c: Config, x: Leg) returns (s: Sys)
    requires ValidConfig(c) && x in c.legs
    ensures Reaches(c, s) && s == StartAt(c, x) && Level(c, s)
  {
    s := StartAt(c, x);
    assert Legal(c, s, []) && After(c, s, []) == s;
  }

  /** Opened by x's node at second 0, and the nodes of a set raised. */
  lemma RaisedUpTo(c: Config, x: Leg, all: set<Node>) returns (s: Sys)
    requires ValidConfig(c) && x in c.legs && x.node in all && all <= NodesOf(c)
    ensures Reaches(c, s) && InRound(c, s, 0) && Slots(c, s, all, {}) && s.writes == {}
    ensures s == StartAt(c, x).(status := s.status, barrier := LegsOn(c, all), origin := s.origin)
  {
    var start := Starts(c, x);
    var first := Opens(c, start, x.node);
    s := RaiseMany(c, first, 0, {x.node}, {}, all);
    FirstAndRest(c, x.node, all);
  }

  lemma FirstAndRest(c: Config, n: Node, all: set<Node>)
    requires n in all
    ensures {} + Mine(c, n) + LegsOn(c, all - {n}) == LegsOn(c, all)
  {
  }

  lemma AllRaised(c: Config, x: Leg) returns (s: Sys)
    requires ValidConfig(c) && x in c.legs
    ensures Reaches(c, s) && InRound(c, s, 0) && Slots(c, s, NodesOf(c), {}) && s.writes == {}
    ensures s == StartAt(c, x).(status := s.status, barrier := c.legs, origin := s.origin)
  {
    s := RaisedUpTo(c, x, NodesOf(c));
    assert LegsOn(c, NodesOf(c)) == c.legs;
  }

  lemma WasCut(
    c: Config, data: map<Leg, Content>, before: map<Leg, LegCut>, after: map<Leg, LegCut>, nodes: set<Node>, x: Leg)
    requires CutsOf(c, data, before, after, LegsOn(c, nodes)) && x in c.legs && x.node in nodes
    ensures x in data && x in after && after[x].content == data[x]
  {
  }

  lemma AllFlags(c: Config, flags: set<Leg>, nodes: set<Node>)
    requires c.legs <= flags <= c.legs + LegsOn(c, nodes)
    ensures flags == c.legs
  {
  }

  /** Every node but y's is done at content 0; y's is raised; all flags are up. */
  lemma AllButOne(c: Config, x: Leg, y: Leg) returns (s: Sys)
    requires Pair(c, x, y)
    ensures Reaches(c, s) && InRound(c, s, 0) && Slots(c, s, NodesOf(c), NodesOf(c) - {y.node}) && s.writes == {}
    ensures s == StartAt(c, x).(status := s.status, barrier := c.legs, origin := s.origin, cut := s.cut)
    ensures x in s.cut && s.cut[x].content == 0
  {
    var u := AllRaised(c, x);
    s := CutMany(c, u, 0, {}, NodesOf(c) - {y.node});
    WasCut(c, u.data, u.cut, s.cut, NodesOf(c) - {y.node} - {}, x);
    AllFlags(c, s.barrier, NodesOf(c) - {y.node} - {});
  }

  // ----- the torn end -----

  lemma Writes(c: Config, s: Sys, v: Volume) returns (t: Sys)
    requires Reaches(c, s) && Level(c, s) && v in s.primary && Leg(v, s.primary[v]) !in s.barrier && v in c.members
    ensures Reaches(c, t) && t == s.(current := s.current[v := 7], data := t.data) && Level(c, t)
    ensures forall l <- c.legs :: t.data[l] == if l.vol == v then 7 else s.data[l]
  {
    t := Advance(c, s, Write(v, 7));
  }

  /** Sealed, with x and y cut at different contents, or y not cut at all. */
  lemma Torn(c: Config, t: Sys, x: Leg, y: Leg)
    requires Reaches(c, t) && Pair(c, x, y) && t.status.readyToUse
    requires x !in t.cut || y !in t.cut || t.cut[x].content != t.cut[y].content
    ensures !ConsistentInEveryRun(c)
  {
    var z, steps :| z in c.legs && Legal(c, StartAt(c, z), steps) && After(c, StartAt(c, z), steps) == t;
    var start := StartAt(c, z);
    assert Initial(c, start);
    assert !ConsistentCut(c, start, steps);
  }

  lemma Seals(c: Config, s: Sys, n: Node, lifted: set<Leg>) returns (t: Sys)
    requires Reaches(c, s) && s.status.ioSuspended && n !in s.cutting && (forall l <- lifted :: l.node == n)
    requires forall l <- c.legs :: SlotOf(s.status, l) == Done
    ensures Reaches(c, t) && t == s.(status := SealGroup(s.status), barrier := s.barrier - lifted)
  {
    t := Advance(c, s, Collect(n, lifted));
  }

  /** All but y's node are done, it is mid-cut, and y holds what x was not cut at: the round
      seals all the same. */
  lemma TornSeal(c: Config, s: Sys, x: Leg, y: Leg)
    requires Reaches(c, s) && Pair(c, x, y) && OpenAt(s.status, 0) && s.data.Keys == c.legs
    requires Slots(c, s, NodesOf(c), NodesOf(c) - {y.node}) && s.writes == {}
    requires s.cutting == map[y.node := Progress(0, Mine(c, y.node))]
    requires s.now < SUSPEND_DEADLINE || (c.env.lateCut && s.now <= SUSPEND_DEADLINE)
    requires x in s.cut && s.cut[x].content != s.data[y]
    ensures !ConsistentInEveryRun(c)
  {
    var t := CutsAndReports(c, s, y.node, 0);
    assert x !in Mine(c, y.node) && y in Mine(c, y.node);
    DoneSeals(c, t, x, y);
  }

  /** A write gets past the flags after all but y's node are done: y is cut behind it. */
  lemma WriteBetween(c: Config, s: Sys, x: Leg, y: Leg)
    requires Reaches(c, s) && Pair(c, x, y) && InRound(c, s, 0) && s.writes == {}
    requires Slots(c, s, NodesOf(c), NodesOf(c) - {y.node}) && x in s.cut && s.cut[x].content == 0
    requires x.vol in s.primary && Leg(x.vol, s.primary[x.vol]) !in s.barrier
    ensures !ConsistentInEveryRun(c)
  {
    var t := Writes(c, s, x.vol);
    var u := Admitted(c, t, 0, NodesOf(c) - {y.node}, y.node);
    assert x !in Mine(c, y.node) && y in c.legs;
    TornSeal(c, u, x, y);
  }

  // ----- the five departures -----

  /** The sweep already treats the deadline second as past it; a cut taken in that second
      still counts. */
  lemma LateCutTears(c: Config, x: Leg, y: Leg)
    requires Pair(c, x, y) && c.env.lateCut
    ensures !ConsistentInEveryRun(c)
  {
    var s := AllButOne(c, x, y);
    var t := Admitted(c, s, 0, NodesOf(c) - {y.node}, y.node);
    assert x !in Mine(c, y.node);
    t := Advance(c, t, Tick(SUSPEND_DEADLINE));
    t := Advance(c, t, Sweep(x));
    var u := Writes(c, t, x.vol);
    TornSeal(c, u, x, y);
  }

  /** y's node cuts again while its first Done is in flight: the Done seals the round over
      cuts that were just deleted. */
  lemma OverlappingRecutTears(c: Config, x: Leg, y: Leg)
    requires Pair(c, x, y) && c.env.overlappingRecut
    ensures !ConsistentInEveryRun(c)
  {
    var s := AllButOne(c, x, y);
    var t := CutSent(c, s, 0, NodesOf(c) - {y.node}, y.node);
    var u := Admitted(c, t, 0, NodesOf(c) - {y.node}, y.node);
    assert y in Mine(c, y.node);
    DoneSeals(c, u, x, y);
  }

  /** The last Done lands and the round seals, though y is not cut as x is. */
  lemma DoneSeals(c: Config, s: Sys, x: Leg, y: Leg)
    requires Reaches(c, s) && Pair(c, x, y) && OpenAt(s.status, 0) && x.node !in s.cutting
    requires Slots(c, s, NodesOf(c), NodesOf(c) - {y.node})
    requires s.writes == {LegsWrite(y.node, 0, Mine(c, y.node), Done)}
    requires x !in s.cut || y !in s.cut || s.cut[x].content != s.cut[y].content
    ensures !ConsistentInEveryRun(c)
  {
    var t := Lands(c, s, y.node, 0, Done);
    t := Seals(c, t, x.node, {});
    Torn(c, t, x, y);
  }

  /** y's node retries a raise whose Suspended is still in flight, a suspend fails, and the
      barriers it lifts are those the late Suspended vouches for. */
  lemma LiftOverRaiseTears(c: Config, x: Leg, y: Leg)
    requires Pair(c, x, y) && c.env.liftOverRaise
    ensures !ConsistentInEveryRun(c)
  {
    var s := RaisedUnflagged(c, x, y);
    var t := Advance(c, s, Promote(y.vol, y.node));
    var u := CutMany(c, t, 0, {}, NodesOf(c) - {y.node});
    assert x in LegsOn(c, NodesOf(c) - {y.node} - {}) && y !in LegsOn(c, NodesOf(c) - {y.node} - {});
    WriteBetween(c, u, x, y);
  }

  lemma RaisedUnflagged(c: Config, x: Leg, y: Leg) returns (s: Sys)
    requires Pair(c, x, y) && c.env.liftOverRaise
    ensures Reaches(c, s) && InRound(c, s, 0) && Slots(c, s, NodesOf(c), {}) && s.writes == {}
    ensures s == StartAt(c, x).(status := s.status, barrier := s.barrier, origin := s.origin) && y !in s.barrier
  {
    var others := NodesOf(c) - {y.node};
    var t := RaisedUpTo(c, x, others);
    s := RaisesInVain(c, t, others, y, NodesOf(c));
  }

  /** A node raises and its second try fails, before the first one's write lands. */
  lemma RaisesInVain(c: Config, s: Sys, others: set<Node>, y: Leg, all: set<Node>) returns (t: Sys)
    requires Reaches(c, s) && InRound(c, s, 0) && Slots(c, s, others, {}) && s.writes == {} && c.env.liftOverRaise
    requires y in c.legs && y.node !in others && y.node in all && others == all - {y.node}
    ensures Reaches(c, t) && InRound(c, t, 0) && Slots(c, t, all, {}) && t.writes == {}
    ensures t == s.(status := t.status, barrier := t.barrier, origin := t.origin) && y !in t.barrier
  {
    var w := RaiseTakenBack(c, s, others, y);
    t := Lands(c, w, y.node, 0, Suspended);
    assert all == others + {y.node};
    SlotsMove(c, s, t, y.node, others, {}, all, {});
  }

  lemma RaiseTakenBack(c: Config, s: Sys, others: set<Node>, y: Leg) returns (w: Sys)
    requires Reaches(c, s) && InRound(c, s, 0) && Slots(c, s, others, {}) && s.writes == {} && c.env.liftOverRaise
    requires y in c.legs && y.node !in others
    ensures Reaches(c, w) && y !in w.barrier && Level(c, w)
    ensures w == s.(barrier := w.barrier, writes := {LegsWrite(y.node, 0, Mine(c, y.node), Suspended)})
  {
    var u := Raises(c, s, 0, others, {}, y.node);
    w := FailsInFlight(c, s, u, others, y);
  }

  /** The raise is in flight and its node tries again. */
  lemma FailsInFlight(c: Config, s: Sys, u: Sys, others: set<Node>, y: Leg) returns (w: Sys)
    requires Reaches(c, u) && InRound(c, s, 0) && Slots(c, s, others, {}) && c.env.liftOverRaise
    requires y in c.legs && y.node !in others
    requires u == s.(barrier := u.barrier, writes := u.writes)
    ensures Reaches(c, w) && w == s.(barrier := w.barrier, writes := u.writes) && y !in w.barrier && Level(c, w)
  {
    LevelSame(c, s, u);
    w := FailsAgain(c, u, others, y);
    LevelSame(c, s, w);
  }

  lemma FailsAgain(c: Config, s: Sys, others: set<Node>, y: Leg) returns (t: Sys)
    requires Reaches(c, s) && InRound(c, s, 0) && Slots(c, s, others, {}) && y in c.legs && y.node !in others
    requires c.env.liftOverRaise
    ensures Reaches(c, t) && t == s.(barrier := s.barrier - Mine(c, y.node)) && y !in t.barrier
  {
    StillDue(c, s, 0, others, {}, y);
    t := Advance(c, s, FailedRaise(y.node));
  }

  /** A node that holds no leg. */
  lemma FreshNode(c: Config, v: Volume) returns (d: Node)
    ensures Leg(v, d) !in c.legs
  {
    d := Above(NodesOf(c));
    assert forall l <- c.legs :: l.node in NodesOf(c);
    assert d !in NodesOf(c);
  }

  lemma {:induction false} Above(nodes: set<Node>) returns (d: Node)
    ensures forall n <- nodes :: n < d
    decreases |nodes|
  {
    if nodes == {} {
      d := 0;
    } else {
      var n :| n in nodes;
      var e := Above(nodes - {n});
      d := if n < e then e else n + 1;
      forall m <- nodes ensures m < d {
        assert m == n || m in nodes - {n};
      }
    }
  }

  /** A diskless leg becomes Primary inside the round and writes past every diskful flag. */
  lemma UnseenPrimaryTears(c: Config, x: Leg, y: Leg)
    requires Pair(c, x, y) && c.env.unseenPrimary
    ensures !ConsistentInEveryRun(c)
  {
    var s := AllButOne(c, x, y);
    var d := FreshNode(c, x.vol);
    var t := Advance(c, s, Stage(Leg(x.vol, d)));
    t := Advance(c, t, Promote(x.vol, d));
    WriteBetween(c, t, x, y);
  }

  // ----- a write that lands a round late -----

  lemma VoidedSlots(c: Config, st: GroupStatus, own: set<Leg>, now: Seconds)
    requires st.perLeg.Keys <= c.legs && own <= c.legs
    ensures var t := VoidGroup(st, c.legs, {}, own, now);
      t.perLeg.Keys <= c.legs && !t.ioSuspended && t.readyToUse == st.readyToUse
  {
  }

  /** Past the deadline x's node voids the round and lifts its own flags. */
  lemma Voids(c: Config, s: Sys, x: Leg, y: Leg) returns (t: Sys)
    requires Reaches(c, s) && Pair(c, x, y) && OpenAt(s.status, 0) && !s.status.readyToUse && Level(c, s)
    requires s.now == SUSPEND_DEADLINE + 1 && s.cutting == map[] && s.thin == {} && SlotOf(s.status, y) != Done
    ensures Reaches(c, t) && Level(c, t) && !t.status.ioSuspended && !t.status.readyToUse
    ensures t == s.(status := t.status, barrier := s.barrier - Mine(c, x.node))
  {
    VoidsIt(c, s, x.node, y);
    t := Advance(c, s, Collect(x.node, Mine(c, x.node)));
    VoidedSlots(c, s.status, Mine(c, x.node), s.now);
  }

  lemma VoidsIt(c: Config, s: Sys, n: Node, y: Leg)
    requires y in c.legs && SlotOf(s.status, y) != Done && s.thin == {} && ExpiredGroup(s.status, s.now)
    ensures DoCollect(c, s, n, Mine(c, n)) ==
            s.(status := VoidGroup(s.status, c.legs, {}, Mine(c, n), s.now), barrier := s.barrier - Mine(c, n))
  {
    assert Mine(c, n) + ThinOn(s, n) == Mine(c, n);
  }

  /** The round of second 0 is voided with the Done of y's node in flight. */
  lemma VoidedOverDone(c: Config, x: Leg, y: Leg) returns (s: Sys)
    requires Pair(c, x, y)
    ensures Reaches(c, s) && Level(c, s) && !s.status.ioSuspended && !s.status.readyToUse
    ensures s == StartAt(c, x).(now := SUSPEND_DEADLINE + 1, status := s.status, barrier := c.legs - Mine(c, x.node),
      origin := s.origin, cut := s.cut, writes := {LegsWrite(y.node, 0, Mine(c, y.node), Done)})
    ensures y in s.cut && s.cut[y].content == 0
  {
    var t := SentAndExpired(c, x, y);
    s := Voids(c, t, x, y);
  }

  lemma SentAndExpired(c: Config, x: Leg, y: Leg) returns (s: Sys)
    requires Pair(c, x, y)
    ensures Reaches(c, s) && OpenAt(s.status, 0) && !s.status.readyToUse && Level(c, s)
    ensures SlotOf(s.status, y) == Suspended
    ensures s == StartAt(c, x).(now := SUSPEND_DEADLINE + 1, status := s.status, barrier := c.legs,
      origin := s.origin, cut := s.cut, writes := {LegsWrite(y.node, 0, Mine(c, y.node), Done)})
    ensures y in s.cut && s.cut[y].content == 0
  {
    var t := AllRaisedOneSent(c, x, y);
    s := Advance(c, t, Tick(SUSPEND_DEADLINE + 1));
  }

  lemma AllRaisedOneSent(c: Config, x: Leg, y: Leg) returns (s: Sys)
    requires Pair(c, x, y)
    ensures Reaches(c, s) && OpenAt(s.status, 0) && !s.status.readyToUse && Level(c, s)
    ensures SlotOf(s.status, y) == Suspended
    ensures s == StartAt(c, x).(status := s.status, barrier := c.legs, origin := s.origin, cut := s.cut,
      writes := {LegsWrite(y.node, 0, Mine(c, y.node), Done)})
    ensures y in s.cut && s.cut[y].content == 0
  {
    var u := AllRaised(c, x);
    s := SentOver(c, u, y);
    assert c.legs + Mine(c, y.node) == c.legs;
  }

  lemma SentOver(c: Config, u: Sys, y: Leg) returns (s: Sys)
    requires Reaches(c, u) && InRound(c, u, 0) && Slots(c, u, NodesOf(c), {}) && u.writes == {} && y in c.legs
    ensures Reaches(c, s) && Level(c, s) && SlotOf(s.status, y) == Suspended
    ensures s == u.(barrier := u.barrier + Mine(c, y.node), cut := s.cut,
                    writes := {LegsWrite(y.node, 0, Mine(c, y.node), Done)})
    ensures y in s.cut && s.cut[y].content == u.data[y]
  {
    s := CutSent(c, u, 0, {}, y.node);
    LevelSame(c, u, s);
    CutHolds(c, u.data, u.cut, s.cut, y);
  }

  lemma CutHolds(c: Config, data: map<Leg, Content>, before: map<Leg, LegCut>, after: map<Leg, LegCut>, y: Leg)
    requires CutsOf(c, data, before, after, Mine(c, y.node)) && y in c.legs
    ensures y in data && y in after && after[y].content == data[y]
  {
    assert y in Mine(c, y.node);
  }

  /** After a write x's node opens again, and the late Done counts in the new round. */
  lemma LateDoneCounts(c: Config, x: Leg, y: Leg) returns (s: Sys)
    requires Pair(c, x, y) && c.env.staleLanding
    ensures Reaches(c, s) && InRound(c, s, SUSPEND_DEADLINE + 1) && Slots(c, s, {x.node}, {y.node}) && s.writes == {}
    ensures s.thin == {} && s.data[x] == 7 && y in s.cut && s.cut[y].content == 0
  {
    var t := VoidedOverDone(c, x, y);
    assert x in Mine(c, x.node);
    var u := Writes(c, t, x.vol);
    var w := Opens(c, u, x.node);
    s := Lands(c, w, y.node, 0, Done);
  }

  /** The merge patch carries no round: the old cut of y is paired with the new ones. */
  lemma StaleLandingTears(c: Config, x: Leg, y: Leg)
    requires Pair(c, x, y) && c.env.staleLanding
    ensures !ConsistentInEveryRun(c)
  {
    var r, others := SUSPEND_DEADLINE + 1, NodesOf(c) - {y.node};
    var s := LateDoneCounts(c, x, y);
    var t := RaiseMany(c, s, r, {x.node}, {y.node}, others);
    assert Slots(c, t, NodesOf(c), {y.node});
    var u := CutMany(c, t, r, {y.node}, NodesOf(c));
    assert x in LegsOn(c, NodesOf(c) - {y.node}) && y !in LegsOn(c, NodesOf(c) - {y.node});
    u := Seals(c, u, x.node, {});
    Torn(c, u, x, y);
  }

  // ----- exactly -----

  /** In every group with a member of two or more diskful legs, every run yields a consistent
      cut exactly when the environment takes none of the five liberties. */
  lemma GroupCutExactly(c: Config, x: Leg, y: Leg)
    requires Pair(c, x, y)
    ensures ConsistentInEveryRun(c) <==> Strict(c.env)
  {
    if Strict(c.env) {
      forall s, steps | Initial(c, s) && Legal(c, s, steps)
        ensures ConsistentCut(c, s, steps)
      {
        GroupConsistentCut(c, s, steps);
      }
    } else if c.env.lateCut {
      LateCutTears(c, x, y);
    } else if c.env.overlappingRecut {
      OverlappingRecutTears(c, x, y);
    } else if c.env.liftOverRaise {
      LiftOverRaiseTears(c, x, y);
    } else if c.env.unseenPrimary {
      UnseenPrimaryTears(c, x, y);
    } else {
      StaleLandingTears(c, x, y);
    }
  }
}
