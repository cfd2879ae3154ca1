/** Why the snapshot's lockstep needs each of its four environment assumptions: with any
    one of them dropped, every volume with two diskful legs has a run that seals a torn
    snapshot.

    The runs open a round at second 0 with every leg in sync and content 0, and end with
    one leg cut after a write of 7 that the others were cut before. */
module SnapshotLiberties {
  import opened BarrierTypes
  import opened SnapshotStatus
  import opened SnapshotRound

  function StartAt(c: Config, p: Node): Sys {
    Sys(0, Status(false, false, None, map[]), map[], {}, {}, Some(p), 0, map n | n in c.diskful :: 0, c.diskful,
        map[], map[], {})
  }

  ghost predicate Reaches(c: Config, t: Sys) {
    exists p, steps :: p in c.diskful && Legal(c, StartAt(c, p), steps) && After(c, StartAt(c, p), steps) == t
  }

  lemma Advance(c: Config, s: Sys, step: Step) returns (t: Sys)
    requires Reaches(c, s) && Enabled(c, s, step)
    ensures Reaches(c, t) && t == Apply(c, s, step)
  {
    t := Apply(c, s, step);
    var p, steps :| p in c.diskful && Legal(c, StartAt(c, p), steps) && After(c, StartAt(c, p), steps) == s;
    var start := StartAt(c, p);
    assert (steps + [step])[..|steps|] == steps;
    assert Legal(c, start, steps + [step]) && After(c, start, steps + [step]) == t;
  }

  // ----- a round at second 0 -----

  /** The round of second 0, not yet expired: node p is Primary, nobody is mid-cut, every leg
      holds the current content. */
  ghost predicate InRound(c: Config, s: Sys, p: Node) {
    && s.status.ioSuspended && !s.status.readyToUse && s.status.suspendedAt == Some(0) && s.now == 0
    && s.primary == Some(p) && s.gated == {} && s.inSync == c.diskful && s.leg.Keys == c.diskful
    && s.cutting == map[] && s.barrier <= c.diskful && (forall n <- c.diskful :: s.leg[n] == s.current)
  }

  /** Who is done, at content 0, and who is raised; the rest are pending. */
  ghost predicate Slots(c: Config, s: Sys, raised: set<Node>, done: set<Node>) {
    && (forall n <- c.diskful ::
          Slot(s.status, n) == if n in done then Done else if n in raised then Suspended else Pending)
    && (forall n <- done :: n in s.cut && s.cut[n] == LegCut(0, 0))
  }

  ghost predicate Flags(c: Config, s: Sys, raised: set<Node>) {
    forall n <- c.diskful :: n in s.barrier <==> n in raised
  }

  lemma Opens(c: Config, p: Node) returns (s: Sys)
    requires p in c.diskful
    ensures Reaches(c, s) && InRound(c, s, p) && s.current == 0 && s.writes == {}
    ensures Slots(c, s, {p}, {}) && Flags(c, s, {p}) && s.cut == map[]
  {
    var start := StartAt(c, p);
    assert Legal(c, start, []) && After(c, start, []) == start;
    assert Reaches(c, start);
    assert Choice(c, start, p, true) == Open;
    s := Advance(c, start, Act(p, true, true));
  }

  /** A peer raises its barrier; the write that says so is in flight. */
  lemma Raises(c: Config, s: Sys, p: Node, raised: set<Node>, n: Node) returns (t: Sys)
    requires Reaches(c, s) && InRound(c, s, p) && Slots(c, s, raised, {}) && Flags(c, s, raised) && s.writes == {}
    requires n in c.diskful && n !in raised && n != p
    ensures Reaches(c, t) && t == s.(barrier := s.barrier + {n}, writes := {SlotWrite(n, 0, Suspended)})
  {
    assert Choice(c, s, n, false) == Raise;
    t := Advance(c, s, Act(n, false, true));
  }

  lemma LandsRaised(c: Config, s: Sys, p: Node, raised: set<Node>, n: Node) returns (t: Sys)
    requires Reaches(c, s) && InRound(c, s, p) && Slots(c, s, raised, {}) && n in c.diskful
    requires s.writes == {SlotWrite(n, 0, Suspended)}
    ensures Reaches(c, t) && InRound(c, t, p) && Slots(c, t, raised + {n}, {}) && t.writes == {}
    ensures t == s.(status := t.status, origin := t.origin, writes := {})
  {
    t := Advance(c, s, Land(SlotWrite(n, 0, Suspended)));
  }

  /** Peers raise, one after the other, until all of a set have. */
  lemma {:induction false} RaiseMany(c: Config, s: Sys, p: Node, raised: set<Node>, all: set<Node>) returns (t: Sys)
    requires Reaches(c, s) && InRound(c, s, p) && Slots(c, s, raised, {}) && Flags(c, s, raised) && s.writes == {}
    requires p in raised && raised <= all <= c.diskful
    ensures Reaches(c, t) && InRound(c, t, p) && Slots(c, t, all, {}) && Flags(c, t, all)
    ensures t.writes == {} && t.current == s.current
    decreases |all - raised|
  {
    if all - raised == {} {
      assert raised == all;
      t := s;
    } else {
      var n :| n in all - raised;
      var u := Raises(c, s, p, raised, n);
      u := LandsRaised(c, u, p, raised, n);
      FewerLeft(all, raised, n);
      t := RaiseMany(c, u, p, raised + {n}, all);
    }
  }

  lemma FewerLeft(all: set<Node>, some: set<Node>, n: Node)
    requires n in all - some
    ensures |all - (some + {n})| < |all - some| && some + {n} <= some + all
  {
    assert all - (some + {n}) == all - some - {n};
  }

  // ----- cuts -----

  /** Everyone is raised, all but `left` are done; node b of `left` goes into its cut. */
  lemma Admits(c: Config, s: Sys, p: Node, done: set<Node>, n: Node) returns (t: Sys)
    requires Reaches(c, s) && InRound(c, s, p) && Slots(c, s, c.diskful, done)
    requires n in c.diskful && n !in done && (Outstanding(s, n, Done) ==> c.env.overlappingRecut)
    ensures Reaches(c, t) && t == DoAdmitCut(s, n)
  {
    assert Choice(c, s, n, n == p) == Cut;
    t := Advance(c, s, Act(n, n == p, true));
  }

  lemma CutOne(c: Config, s: Sys, p: Node, done: set<Node>, n: Node) returns (t: Sys)
    requires Reaches(c, s) && InRound(c, s, p) && Slots(c, s, c.diskful, done) && s.writes == {}
    requires n in c.diskful && n !in done && s.current == 0
    ensures Reaches(c, t) && InRound(c, t, p) && Slots(c, t, c.diskful, done + {n}) && t.writes == {}
    ensures t.current == 0 && t.barrier == s.barrier + {n}
  {
    var u := CutSent(c, s, p, done, n);
    t := LandsDone(c, u, n);
  }

  lemma CutSent(c: Config, s: Sys, p: Node, done: set<Node>, n: Node) returns (t: Sys)
    requires Reaches(c, s) && InRound(c, s, p) && Slots(c, s, c.diskful, done) && s.writes == {}
    requires n in c.diskful && n !in done
    ensures Reaches(c, t)
    ensures t == s.(
      barrier := s.barrier + {n}, cut := s.cut[n := LegCut(0, s.leg[n])], writes := {SlotWrite(n, 0, Done)})
  {
    var u := Admits(c, s, p, done, n);
    t := TakesNow(c, s, u, n);
  }

  /** A cut taken in the second it was admitted. */
  lemma TakesNow(c: Config, s: Sys, u: Sys, n: Node) returns (t: Sys)
    requires Reaches(c, u) && s.status.suspendedAt == Some(0) && s.now == 0 && s.cutting == map[] && s.writes == {}
    requires n in s.leg && u == DoAdmitCut(s, n)
    ensures Reaches(c, t)
    ensures t == s.(
      barrier := s.barrier + {n}, cut := s.cut[n := LegCut(0, s.leg[n])], writes := {SlotWrite(n, 0, Done)})
  {
    t := Advance(c, u, TakeCut(n));
    assert t.cutting == map[];
  }

  lemma LandsDone(c: Config, s: Sys, n: Node) returns (t: Sys)
    requires Reaches(c, s) && OpenAt(s, 0) && s.writes == {SlotWrite(n, 0, Done)}
    ensures Reaches(c, t)
    ensures t == s.(
      status := s.status.(perNode := s.status.perNode[n := Done]), origin := s.origin[n := 0], writes := {})
  {
    t := Advance(c, s, Land(SlotWrite(n, 0, Done)));
    assert t.writes == {};
  }

  lemma {:induction false} CutMany(c: Config, s: Sys, p: Node, done: set<Node>, all: set<Node>) returns (t: Sys)
    requires Reaches(c, s) && InRound(c, s, p) && Slots(c, s, c.diskful, done) && s.writes == {}
    requires done <= all <= c.diskful && s.current == 0
    ensures Reaches(c, t) && InRound(c, t, p) && Slots(c, t, c.diskful, all) && t.writes == {}
    ensures t.current == 0 && s.barrier <= t.barrier <= s.barrier + all
    decreases |all - done|
  {
    if all - done == {} {
      assert done == all;
      t := s;
    } else {
      var n :| n in all - done;
      var u := CutOne(c, s, p, done, n);
      FewerLeft(all, done, n);
      t := CutMany(c, u, p, done + {n}, all);
    }
  }

  /** Everyone but b is done at content 0, b is raised, all behind their flags. */
  lemma AllButOne(c: Config, a: Node, b: Node) returns (s: Sys)
    requires a in c.diskful && b in c.diskful && a != b
    ensures Reaches(c, s) && InRound(c, s, a) && Slots(c, s, c.diskful, c.diskful - {b}) && s.writes == {}
    ensures s.current == 0 && c.diskful <= s.barrier
  {
    s := Opens(c, a);
    s := RaiseMany(c, s, a, {a}, c.diskful);
    s := CutMany(c, s, a, {}, c.diskful - {b});
  }

  // ----- the torn end -----

  lemma Writes(c: Config, s: Sys) returns (t: Sys)
    requires Reaches(c, s) && s.primary.Some? && s.primary.value !in s.barrier && s.inSync == c.diskful == s.leg.Keys
    ensures Reaches(c, t) && t == s.(current := 7, leg := t.leg)
    ensures t.leg.Keys == c.diskful && forall n <- c.diskful :: t.leg[n] == 7
  {
    t := Advance(c, s, Write(7));
  }

  /** Sealed, with legs a and b cut at different contents. */
  lemma Torn(c: Config, t: Sys, a: Node, b: Node)
    requires Reaches(c, t) && t.status.readyToUse && a in c.diskful && b in c.diskful
    requires a in t.cut && b in t.cut && t.cut[a].content != t.cut[b].content
    ensures !LockstepInEveryRun(c)
  {
    var p, steps :| p in c.diskful && Legal(c, StartAt(c, p), steps) && After(c, StartAt(c, p), steps) == t;
    assert Initial(c, StartAt(c, p));
    assert !IdenticalLegs(c, t);
  }

  /** All but b are done at content 0, b is mid-cut and holds 7: the round seals all the
      same. */
  lemma TornSeal(c: Config, s: Sys, p: Node, a: Node, b: Node)
    requires Reaches(c, s) && OpenAt(s, 0) && !s.status.readyToUse && s.gated == {} && s.primary == Some(p)
    requires a in c.diskful && b in c.diskful && a != b && p in c.diskful + c.diskless
    requires Slots(c, s, c.diskful, c.diskful - {b}) && s.cutting == map[b := 0] && s.writes == {}
    requires b in s.leg && s.leg[b] == 7 && Enabled(c, s, TakeCut(b))
    ensures !LockstepInEveryRun(c)
  {
    var t := Advance(c, s, TakeCut(b));
    assert t.writes == {SlotWrite(b, 0, Done)} && t.cutting == map[];
    var u := LandsDone(c, t, b);
    Seals(c, u, p, a, b);
  }

  lemma Seals(c: Config, s: Sys, p: Node, a: Node, b: Node)
    requires Reaches(c, s) && OpenAt(s, 0) && !s.status.readyToUse && s.gated == {} && s.primary == Some(p)
    requires a in c.diskful && b in c.diskful && p in c.diskful + c.diskless && p !in s.cutting
    requires AllDone(s.status, c.diskful)
    requires a in s.cut && b in s.cut && s.cut[a].content != s.cut[b].content
    ensures !LockstepInEveryRun(c)
  {
    assert Choice(c, s, p, true) == Collect;
    var t := Advance(c, s, Act(p, true, true));
    Torn(c, t, a, b);
  }

  /** A write gets past the flags after all but b are done: b is cut behind it. */
  lemma WriteBetween(c: Config, s: Sys, p: Node, a: Node, b: Node)
    requires Reaches(c, s) && InRound(c, s, p) && Slots(c, s, c.diskful, c.diskful - {b}) && s.writes == {}
    requires a in c.diskful && b in c.diskful && a != b && p in c.diskful + c.diskless && p !in s.barrier
    ensures !LockstepInEveryRun(c)
  {
    var t := Writes(c, s);
    t := Admits(c, t, p, c.diskful - {b}, b);
    TornSeal(c, t, p, a, b);
  }

  // ----- the four departures -----

  /** The sweep already treats the deadline second as past it; a cut taken in that second
      still counts. */
  lemma LateCutTears(c: Config, a: Node, b: Node)
    requires c.env.lateCut && a in c.diskful && b in c.diskful && a != b
    ensures !LockstepInEveryRun(c)
  {
    var s := AllButOne(c, a, b);
    s := Admits(c, s, a, c.diskful - {b}, b);
    s := Advance(c, s, Tick(SUSPEND_DEADLINE));
    s := Advance(c, s, Sweep(a));
    s := Writes(c, s);
    TornSeal(c, s, a, a, b);
  }

  /** A second cut of leg b starts while its first Done is in flight: the Done seals the
      round and lets writes in before the second cut is taken. */
  lemma OverlappingRecutTears(c: Config, a: Node, b: Node)
    requires c.env.overlappingRecut && a in c.diskful && b in c.diskful && a != b
    ensures !LockstepInEveryRun(c)
  {
    var s := AllButOne(c, a, b);
    var t := CutTwice(c, s, a, b);
    t := LandsDone(c, t, b);
    SealedMidCut(c, t, a, b);
  }

  lemma CutTwice(c: Config, s: Sys, a: Node, b: Node) returns (t: Sys)
    requires c.env.overlappingRecut && a in c.diskful && b in c.diskful && a != b
    requires Reaches(c, s) && InRound(c, s, a) && Slots(c, s, c.diskful, c.diskful - {b}) && s.writes == {}
    ensures Reaches(c, t) && t.writes == {SlotWrite(b, 0, Done)} && t.cutting == map[b := 0]
    ensures t == s.(barrier := t.barrier, cut := t.cut, cutting := t.cutting, writes := t.writes)
    ensures forall n <- s.cut :: n != b ==> n in t.cut && t.cut[n] == s.cut[n]
  {
    var u := CutHeld(c, s, a, b);
    t := Admits(c, u, a, c.diskful - {b}, b);
  }

  /** b's cut is taken, and its Done is in flight. */
  lemma CutHeld(c: Config, s: Sys, a: Node, b: Node) returns (t: Sys)
    requires a in c.diskful && b in c.diskful && a != b
    requires Reaches(c, s) && InRound(c, s, a) && Slots(c, s, c.diskful, c.diskful - {b}) && s.writes == {}
    ensures Reaches(c, t) && InRound(c, t, a) && Slots(c, t, c.diskful, c.diskful - {b})
    ensures t.writes == {SlotWrite(b, 0, Done)}
    ensures t == s.(barrier := t.barrier, cut := t.cut, writes := t.writes)
    ensures forall n <- s.cut :: n != b ==> n in t.cut && t.cut[n] == s.cut[n]
  {
    var u := Admits(c, s, a, c.diskful - {b}, b);
    t := Advance(c, u, TakeCut(b));
    assert t.cutting == map[];
  }

  lemma SealedMidCut(c: Config, s: Sys, a: Node, b: Node)
    requires Reaches(c, s) && OpenAt(s, 0) && !s.status.readyToUse && s.now == 0 && s.gated == {}
    requires s.primary == Some(a)
    requires a in c.diskful && b in c.diskful && a != b && AllDone(s.status, c.diskful)
    requires s.cutting == map[b := 0] && s.inSync == c.diskful == s.leg.Keys && a in s.cut && s.cut[a].content == 0
    ensures !LockstepInEveryRun(c)
  {
    assert Choice(c, s, a, true) == Collect;
    var t := Advance(c, s, Act(a, true, true));
    t := Writes(c, t);
    t := Advance(c, t, TakeCut(b));
    Torn(c, t, a, b);
  }

  /** Node b retries a raise whose Suspended is still in flight, suspend-io fails, and the
      barrier it lifts is the one the late Suspended vouches for. */
  lemma LiftOverWriteTears(c: Config, a: Node, b: Node)
    requires ValidConfig(c) && c.env.liftOverWrite && a in c.diskful && b in c.diskful && a != b
    ensures !LockstepInEveryRun(c)
  {
    var s := RaisedUnflagged(c, a, b);
    s := Advance(c, s, Promote(Some(b)));
    s := CutMany(c, s, b, {}, c.diskful - {b});
    WriteBetween(c, s, b, a, b);
  }

  lemma RaisedUnflagged(c: Config, a: Node, b: Node) returns (s: Sys)
    requires c.env.liftOverWrite && a in c.diskful && b in c.diskful && a != b
    ensures Reaches(c, s) && InRound(c, s, a) && Slots(c, s, c.diskful, {}) && s.writes == {}
    ensures s.current == 0 && b !in s.barrier
  {
    var others := c.diskful - {b};
    s := Opens(c, a);
    s := RaiseMany(c, s, a, {a}, others);
    s := Raises(c, s, a, others, b);
    assert Choice(c, s, b, false) == Raise;
    s := Advance(c, s, FailedRaise(b, false));
    s := LandsRaised(c, s, a, others, b);
    assert others + {b} == c.diskful;
  }

  /** A diskless leg promoted mid-round writes past every diskful barrier. */
  lemma DisklessPromotionTears(c: Config, a: Node, b: Node, d: Node)
    requires c.env.disklessPromotion && a in c.diskful && b in c.diskful && a != b
    requires d in c.diskless && d !in c.diskful
    ensures !LockstepInEveryRun(c)
  {
    var s := AllButOne(c, a, b);
    s := Advance(c, s, Promote(Some(d)));
    WriteBetween(c, s, d, a, b);
  }

  // ----- exactly -----

  /** The liberties that matter: promoting a diskless leg takes one. */
  predicate StrictFor(c: Config) {
    && !c.env.lateCut && !c.env.overlappingRecut && !c.env.liftOverWrite
    && (c.env.disklessPromotion ==> c.diskless == {})
  }

  function Tightened(c: Config): Config {
    c.(env := c.env.(disklessPromotion := false))
  }

  /** Without diskless legs that liberty changes no run. */
  lemma {:induction false} SameRuns(c: Config, s: Sys, steps: seq<Step>)
    requires c.diskless == {} && Legal(c, s, steps)
    ensures Legal(Tightened(c), s, steps) && After(Tightened(c), s, steps) == After(c, s, steps)
    decreases |steps|
  {
    if steps != [] {
      var before, last := steps[..|steps| - 1], steps[|steps| - 1];
      SameRuns(c, s, before);
      var t := After(c, s, before);
      assert forall n, x :: ViewOf(Tightened(c), t, n, x) == ViewOf(c, t, n, x);
      assert Enabled(Tightened(c), t, last);
    }
  }

  lemma StrictLockstep(c: Config)
    requires ValidConfig(c) && StrictFor(c)
    ensures LockstepInEveryRun(c)
  {
    Lockstep(Tightened(c));
    if c.env.disklessPromotion {
      forall s, steps | Initial(c, s) && Legal(c, s, steps)
        ensures IdenticalLegs(c, After(c, s, steps))
      {
        SameRuns(c, s, steps);
        assert Initial(Tightened(c), s);
        assert IdenticalLegs(Tightened(c), After(c, s, steps));
      }
    } else {
      assert Tightened(c) == c;
    }
  }

  /** On every volume with two or more diskful legs, every run cuts identical legs exactly
      when the environment takes none of the four liberties. */
  lemma LockstepExactly(c: Config)
    requires ValidConfig(c) && |c.diskful| >= 2
    ensures LockstepInEveryRun(c) <==> StrictFor(c)
  {
    var a :| a in c.diskful;
    assert |c.diskful - {a}| >= 1;
    var b :| b in c.diskful - {a};
    if StrictFor(c) {
      StrictLockstep(c);
    } else if c.env.lateCut {
      LateCutTears(c, a, b);
    } else if c.env.overlappingRecut {
      OverlappingRecutTears(c, a, b);
    } else if c.env.liftOverWrite {
      LiftOverWriteTears(c, a, b);
    } else {
      var d :| d in c.diskless;
      DisklessPromotionTears(c, a, b, d);
    }
  }
}
