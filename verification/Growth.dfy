/** Online growth: every leg's agent grows its own backing and reports; the coordinator
    grows the DRBD device once it reads that its peers have.

    An agent acts on the volume object as its cache had it when the pass began, which may
    be long before it acts. */
module Growth {
  import opened BarrierTypes
  import opened Sizes

  datatype View = View(order: seq<Node>, spec: nat, slots: map<Node, nat>)

  datatype Pass = Idle | Begun(view: View) | Grown(view: View) | Reporting(size: nat)

  /** `order` lists the diskful replicas; `device` is the smallest backing at the last DRBD
      resize, which is what DRBD sizes the device to. */
  datatype Sys = Sys(
    order: seq<Node>,
    spec: nat,
    slots: map<Node, nat>,
    backing: map<Node, nat>,
    device: nat,
    cache: map<Node, View>,
    passes: map<Node, Pass>)

  /** What the environment may do besides: replace a backing by a smaller one, take the
      first diskful replica out of the spec. */
  datatype Env = Env(wiped: bool, reelected: bool)

  predicate Strict(e: Env) {
    !e.wiped && !e.reelected
  }

  datatype Config = Config(padded: bool, env: Env)

  datatype Step =
    | Expand(size: nat)
    | Refresh(n: Node)
    | Begin(n: Node)
    | GrowBacking(n: Node, to: nat)
    | ReportSpec(n: Node)
    | Withhold(n: Node)
    | ResizeDevice(n: Node, smallest: nat)
    | Report(n: Node)
    | Crash(n: Node)
    | Wipe(n: Node, to: nat)
    | Drop(i: nat)

  function SlotOf(slots: map<Node, nat>, n: Node): nat {
    if n in slots then slots[n] else 0
  }

  function PassOf(s: Sys, n: Node): Pass {
    if n in s.passes then s.passes[n] else Idle
  }

  function CacheOf(s: Sys, n: Node): View {
    if n in s.cache then s.cache[n] else View(s.order, s.spec, map[])
  }

  /** This node is the first diskful replica and its own slot trails the spec. */
  predicate MustGrow(v: View, n: Node) {
    v.order != [] && v.order[0] == n && SlotOf(v.slots, n) < v.spec
  }

  predicate PeersGrown(v: View, n: Node) {
    forall m <- v.order :: m == n || SlotOf(v.slots, m) >= v.spec
  }

  ghost predicate IsSmallest(order: seq<Node>, backing: map<Node, nat>, x: nat) {
    (forall n <- order :: n in backing && x <= backing[n]) && exists n <- order :: n in backing && x == backing[n]
  }

  ghost predicate Enabled(c: Config, s: Sys, step: Step) {
    match step
    case Expand(size) => size >= s.spec
    case Refresh(_) => true
    case Begin(n) => n in s.order && PassOf(s, n).Idle?
    case GrowBacking(n, to) =>
      && PassOf(s, n).Begun? && n in s.backing
      && to >= s.backing[n] && to >= BackingBytes(c.padded, PassOf(s, n).view.spec)
    case ReportSpec(n) => PassOf(s, n).Grown? && !MustGrow(PassOf(s, n).view, n)
    case Withhold(n) => PassOf(s, n).Grown? && MustGrow(PassOf(s, n).view, n)
    case ResizeDevice(n, smallest) =>
      && PassOf(s, n).Grown? && MustGrow(PassOf(s, n).view, n) && PeersGrown(PassOf(s, n).view, n)
      && IsSmallest(s.order, s.backing, smallest)
    case Report(n) => PassOf(s, n).Reporting?
    case Crash(_) => true
    case Wipe(n, to) => c.env.wiped && n in s.backing
    case Drop(i) => i < |s.order| && |s.order| > 2 && (i == 0 ==> c.env.reelected)
  }

  function Goto(s: Sys, n: Node, p: Pass): Sys {
    s.(passes := s.passes[n := p])
  }

  ghost function Apply(c: Config, s: Sys, step: Step): Sys
    requires Enabled(c, s, step)
  {
    match step
    case Expand(size) => s.(spec := size)
    case Refresh(n) => s.(cache := s.cache[n := View(s.order, s.spec, s.slots)])
    case Begin(n) => Goto(s, n, Begun(CacheOf(s, n)))
    case GrowBacking(n, to) => Goto(s, n, Grown(PassOf(s, n).view)).(backing := s.backing[n := to])
    case ReportSpec(n) => Goto(s, n, Reporting(PassOf(s, n).view.spec))
    case Withhold(n) => Goto(s, n, Reporting(SlotOf(PassOf(s, n).view.slots, n)))
    case ResizeDevice(n, smallest) => Goto(s, n, Reporting(PassOf(s, n).view.spec)).(device := smallest)
    case Report(n) => Goto(s, n, Idle).(slots := s.slots[n := PassOf(s, n).size])
    case Crash(n) => Goto(s, n, Idle)
    case Wipe(n, to) => s.(backing := s.backing[n := to])
    case Drop(i) => s.(order := s.order[..i] + s.order[i + 1..])
  }

  // ----- the invariant -----

  /** Leg n's backing, and the device if n is the coordinator, are grown for size x. */
  ghost predicate Earned(c: Config, s: Sys, n: Node, x: nat) {
    x > 0 && n in s.order ==>
      && n in s.backing && s.backing[n] >= BackingBytes(c.padded, x)
      && (s.order[0] == n ==> s.device >= BackingBytes(c.padded, x))
  }

  ghost predicate SlotsEarned(c: Config, s: Sys, slots: map<Node, nat>) {
    forall n :: Earned(c, s, n, SlotOf(slots, n))
  }

  /** Replicas were taken out, but not the first. */
  ghost predicate Shrunk(before: seq<Node>, after: seq<Node>) {
    before != [] && after != [] && before[0] == after[0] && forall n <- after :: n in before
  }

  ghost predicate ViewSafe(c: Config, s: Sys, v: View) {
    Shrunk(v.order, s.order) && SlotsEarned(c, s, v.slots)
  }

  ghost predicate PassSafe(c: Config, s: Sys, n: Node) {
    match PassOf(s, n)
    case Idle => true
    case Begun(v) => ViewSafe(c, s, v)
    case Grown(v) => ViewSafe(c, s, v) && n in s.backing && s.backing[n] >= BackingBytes(c.padded, v.spec)
    case Reporting(x) => Earned(c, s, n, x)
  }

  ghost predicate Inv(c: Config, s: Sys) {
    && s.order != []
    && (forall n <- s.order :: n in s.backing && s.device <= s.backing[n])
    && SlotsEarned(c, s, s.slots)
    && (forall n <- s.cache :: ViewSafe(c, s, s.cache[n]))
    && (forall n :: PassSafe(c, s, n))
  }

  ghost predicate Initial(s: Sys) {
    s.order != [] && s.slots == map[] && s.cache == map[] && s.passes == map[] && s.device == 0
    && forall n <- s.order :: n in s.backing
  }

  /** Nothing earned is lost while backings and the device only grow and the first replica
      stays. */
  ghost predicate Forward(s: Sys, t: Sys) {
    && Shrunk(s.order, t.order) && s.device <= t.device
    && forall n <- s.backing :: n in t.backing && s.backing[n] <= t.backing[n]
  }

  lemma EarnedForward(c: Config, s: Sys, t: Sys, slots: map<Node, nat>)
    requires Forward(s, t) && SlotsEarned(c, s, slots)
    ensures SlotsEarned(c, t, slots)
  {
    forall n ensures Earned(c, t, n, SlotOf(slots, n)) {
      assert Earned(c, s, n, SlotOf(slots, n));
    }
  }

  lemma PassForward(c: Config, s: Sys, t: Sys, n: Node)
    requires Forward(s, t) && PassSafe(c, s, n) && PassOf(t, n) == PassOf(s, n)
    ensures PassSafe(c, t, n)
  {
    match PassOf(s, n)
    case Begun(v) => EarnedForward(c, s, t, v.slots);
    case Grown(v) => EarnedForward(c, s, t, v.slots);
    case _ =>
  }

  lemma CachesForward(c: Config, s: Sys, t: Sys)
    requires Forward(s, t) && t.cache == s.cache && forall n <- s.cache :: ViewSafe(c, s, s.cache[n])
    ensures forall n <- t.cache :: ViewSafe(c, t, t.cache[n])
  {
    forall n | n in t.cache ensures ViewSafe(c, t, t.cache[n]) {
      EarnedForward(c, s, t, s.cache[n].slots);
    }
  }

  lemma InvQuiet(c: Config, s: Sys, step: Step)
    requires Inv(c, s) && Enabled(c, s, step)
    requires step.Expand? || step.Refresh? || step.Begin? || step.Crash? || (step.Drop? && step.i > 0)
    ensures Inv(c, Apply(c, s, step))
  {
    var t := Apply(c, s, step);
    EarnedForward(c, s, t, s.slots);
    forall n ensures PassSafe(c, t, n) {
      assert PassSafe(c, s, n);
      if PassOf(t, n) == PassOf(s, n) {
        PassForward(c, s, t, n);
      } else if n in s.cache {
        EarnedForward(c, s, t, s.cache[n].slots);
      }
    }
    forall n | n in t.cache ensures ViewSafe(c, t, t.cache[n]) {
      if n in s.cache && t.cache[n] == s.cache[n] {
        EarnedForward(c, s, t, s.cache[n].slots);
      }
    }
  }

  lemma InvGrow(c: Config, s: Sys, n: Node, to: nat)
    requires Inv(c, s) && Enabled(c, s, GrowBacking(n, to))
    ensures Inv(c, Apply(c, s, GrowBacking(n, to)))
  {
    var t := Apply(c, s, GrowBacking(n, to));
    assert PassSafe(c, s, n);
    EarnedForward(c, s, t, s.slots);
    CachesForward(c, s, t);
    EarnedForward(c, s, t, PassOf(s, n).view.slots);
    forall m ensures PassSafe(c, t, m) {
      if m != n {
        PassForward(c, s, t, m);
      }
    }
  }

  lemma ReportEarned(c: Config, s: Sys, n: Node)
    requires Inv(c, s) && PassOf(s, n).Grown?
    ensures !MustGrow(PassOf(s, n).view, n) ==> Earned(c, s, n, PassOf(s, n).view.spec)
    ensures Earned(c, s, n, SlotOf(PassOf(s, n).view.slots, n))
  {
    var v := PassOf(s, n).view;
    assert PassSafe(c, s, n);
    assert Earned(c, s, n, SlotOf(v.slots, n));
    if SlotOf(v.slots, n) >= v.spec {
      BackingMonotone(c.padded, v.spec, SlotOf(v.slots, n));
    }
  }

  lemma InvReport(c: Config, s: Sys, step: Step)
    requires Inv(c, s) && Enabled(c, s, step) && (step.ReportSpec? || step.Withhold? || step.Report?)
    ensures Inv(c, Apply(c, s, step))
  {
    var t := Apply(c, s, step);
    assert PassSafe(c, s, step.n);
    if !step.Report? {
      ReportEarned(c, s, step.n);
    }
    CachesForward(c, s, t);
    forall m ensures PassSafe(c, t, m) {
      if m != step.n {
        PassForward(c, s, t, m);
      }
    }
    forall m ensures Earned(c, t, m, SlotOf(t.slots, m)) {
      assert Earned(c, s, m, SlotOf(s.slots, m));
    }
  }

  /** When the coordinator resizes, every backing has reached the size it read. */
  lemma BackingsReached(c: Config, s: Sys, n: Node, smallest: nat)
    requires Inv(c, s) && Enabled(c, s, ResizeDevice(n, smallest))
    ensures smallest >= BackingBytes(c.padded, PassOf(s, n).view.spec) && smallest >= s.device
  {
    var v := PassOf(s, n).view;
    assert PassSafe(c, s, n);
    var m :| m in s.order && m in s.backing && smallest == s.backing[m];
    if m != n {
      assert Earned(c, s, m, SlotOf(v.slots, m));
      BackingMonotone(c.padded, v.spec, SlotOf(v.slots, m));
    }
  }

  lemma InvResize(c: Config, s: Sys, n: Node, smallest: nat)
    requires Inv(c, s) && Enabled(c, s, ResizeDevice(n, smallest))
    ensures Inv(c, Apply(c, s, ResizeDevice(n, smallest)))
  {
    var t := Apply(c, s, ResizeDevice(n, smallest));
    assert PassSafe(c, s, n);
    BackingsReached(c, s, n, smallest);
    EarnedForward(c, s, t, s.slots);
    CachesForward(c, s, t);
    forall m ensures PassSafe(c, t, m) {
      if m != n {
        PassForward(c, s, t, m);
      }
    }
  }

  lemma InvStep(c: Config, s: Sys, step: Step)
    requires Strict(c.env) && Inv(c, s) && Enabled(c, s, step)
    ensures Inv(c, Apply(c, s, step))
  {
    match step
    case GrowBacking(n, to) => InvGrow(c, s, n, to);
    case ResizeDevice(n, smallest) => InvResize(c, s, n, smallest);
    case ReportSpec(_) => InvReport(c, s, step);
    case Withhold(_) => InvReport(c, s, step);
    case Report(_) => InvReport(c, s, step);
    case _ => InvQuiet(c, s, step);
  }

  ghost predicate Legal(c: Config, s: Sys, steps: seq<Step>)
    decreases |steps|, 0
  {
    steps == [] ||
    (var before := steps[..|steps| - 1];
     Legal(c, s, before) && Enabled(c, After(c, s, before), steps[|steps| - 1]))
  }

  ghost function After(c: Config, s: Sys, steps: seq<Step>): Sys
    requires Legal(c, s, steps)
    decreases |steps|, 1
  {
    if steps == [] then s else Apply(c, After(c, s, steps[..|steps| - 1]), steps[|steps| - 1])
  }

  lemma {:induction false} InvRun(c: Config, s: Sys, steps: seq<Step>)
    requires Strict(c.env) && Initial(s) && Legal(c, s, steps)
    ensures Inv(c, After(c, s, steps))
    decreases |steps|
  {
    if steps != [] {
      InvRun(c, s, steps[..|steps| - 1]);
      InvStep(c, After(c, s, steps[..|steps| - 1]), steps[|steps| - 1]);
    }
  }

  // ----- main results -----

  /** Every diskful slot of a list reports at least the size. */
  ghost predicate AllReport(order: seq<Node>, slots: map<Node, nat>, size: nat) {
    forall n <- order :: SlotOf(slots, n) >= size
  }

  /** The device was resized after every backing had reached the backing size for `size`. */
  ghost predicate DeviceGrown(c: Config, s: Sys, size: nat) {
    s.device >= BackingBytes(c.padded, size)
  }

  lemma ReportedMeansGrown(c: Config, s: Sys, slots: map<Node, nat>, size: nat)
    requires s.order != [] && SlotsEarned(c, s, slots) && AllReport(s.order, slots, size) && size > 0
    ensures DeviceGrown(c, s, size)
  {
    var first := s.order[0];
    assert Earned(c, s, first, SlotOf(slots, first));
    BackingMonotone(c.padded, size, SlotOf(slots, first));
  }

  /** A successful expansion is never early: whichever state of the volume object the CSI
      controller read all slots at `size` from, the device had been grown to it. */
  lemma ExpandNeverEarly(c: Config, s: Sys, steps: seq<Step>, controller: Node, size: nat)
    requires Strict(c.env) && Initial(s) && Legal(c, s, steps) && size > 0
    requires var t := After(c, s, steps);
      controller in t.cache && AllReport(t.cache[controller].order, t.cache[controller].slots, size)
    ensures DeviceGrown(c, After(c, s, steps), size)
  {
    InvRun(c, s, steps);
    var t := After(c, s, steps);
    ReportedMeansGrown(c, t, t.cache[controller].slots, size);
  }

  ghost predicate ReportsAreTrue(c: Config) {
    forall s, steps, size: nat | Initial(s) && Legal(c, s, steps) && size > 0 ::
      AllReport(After(c, s, steps).order, After(c, s, steps).slots, size) ==> DeviceGrown(c, After(c, s, steps), size)
  }

  ghost predicate Reaches(c: Config, s: Sys, t: Sys) {
    Initial(s) && exists steps :: Legal(c, s, steps) && After(c, s, steps) == t
  }

  lemma Advance(c: Config, s: Sys, t: Sys, step: Step) returns (u: Sys)
    requires Reaches(c, s, t) && Enabled(c, t, step)
    ensures u == Apply(c, t, step) && Reaches(c, s, u)
  {
    u := Apply(c, t, step);
    var steps :| Legal(c, s, steps) && After(c, s, steps) == t;
    assert (steps + [step])[..|steps|] == steps;
    assert Legal(c, s, steps + [step]) && After(c, s, steps + [step]) == u;
  }

  lemma Untrue(c: Config, s: Sys, t: Sys)
    requires Reaches(c, s, t) && AllReport(t.order, t.slots, 1) && t.device == 0
    ensures !ReportsAreTrue(c)
  {
    var steps :| Legal(c, s, steps) && After(c, s, steps) == t;
    BackingMonotone(c.padded, 0, 1);
    assert !DeviceGrown(c, t, 1);
  }

  /** A leg other than the first runs one whole pass from a view with no slots. */
  lemma PeerReports(c: Config, s: Sys, t: Sys, n: Node) returns (u: Sys)
    requires Reaches(c, s, t) && t.cache == map[] && t.spec == 1 && t.order != [] && t.order[0] != n && n in t.order
    requires PassOf(t, n).Idle? && n in t.backing
    ensures Reaches(c, s, u) && u.slots == t.slots[n := 1] && PassOf(u, n).Idle?
    ensures u == t.(slots := u.slots, backing := u.backing, passes := u.passes) && n in u.backing
    ensures u.backing == t.backing[n := u.backing[n]] && forall m :: m != n ==> PassOf(u, m) == PassOf(t, m)
  {
    u := PeerGrows(c, s, t, n);
    u := Advance(c, s, u, ReportSpec(n));
    u := Advance(c, s, u, Report(n));
  }

  lemma PeerGrows(c: Config, s: Sys, t: Sys, n: Node) returns (u: Sys)
    requires Reaches(c, s, t) && t.cache == map[] && n in t.order && PassOf(t, n).Idle? && n in t.backing
    ensures Reaches(c, s, u)
    ensures u == t.(backing := u.backing, passes := t.passes[n := Grown(View(t.order, t.spec, map[]))])
    ensures n in u.backing && u.backing == t.backing[n := u.backing[n]]
  {
    u := Advance(c, s, t, Begin(n));
    u := Advance(c, s, u, GrowBacking(n, u.backing[n] + BackingBytes(c.padded, t.spec)));
  }

  /** The peers of the first replica report a growth it has not carried out. */
  lemma PeersAhead(c: Config) returns (s: Sys, t: Sys)
    ensures Reaches(c, s, t) && t.order == [0, 1, 2] && t.spec == 1 && t.device == 0 && t.cache == map[]
    ensures t.slots == map[1 := 1, 2 := 1] && forall n :: PassOf(t, n).Idle?
  {
    s := Sys([0, 1, 2], 1, map[], map[0 := 0, 1 := 0, 2 := 0], 0, map[], map[]);
    assert Legal(c, s, []) && After(c, s, []) == s;
    t := PeerReports(c, s, s, 1);
    t := PeerReports(c, s, t, 2);
  }

  /** The first replica leaves: every slot left reports the size, no device was grown to it,
      and every agent reads that. */
  lemma ReelectionSettles(c: Config) returns (s: Sys, t: Sys)
    requires c.env.reelected
    ensures Reaches(c, s, t) && Settled(t) && t.spec == 1 && t.device == 0
  {
    var ahead;
    s, ahead := PeersAhead(c);
    t := Advance(c, s, ahead, Drop(0));
    assert t.order == [1, 2];
    assert forall n :: PassOf(t, n) == PassOf(ahead, n);
    t := BothRead(c, s, t);
  }

  lemma BothRead(c: Config, s: Sys, t: Sys) returns (u: Sys)
    requires Reaches(c, s, t) && t.order == [1, 2] && AllReport(t.order, t.slots, t.spec)
    requires forall n :: PassOf(t, n).Idle?
    ensures Reaches(c, s, u) && Settled(u) && u.spec == t.spec && u.device == t.device
  {
    u := Advance(c, s, t, Refresh(1));
    u := Advance(c, s, u, Refresh(2));
    assert forall n :: PassOf(u, n) == PassOf(t, n);
  }

  lemma ReelectionFools(c: Config)
    requires c.env.reelected
    ensures !ReportsAreTrue(c)
  {
    var s, t := ReelectionSettles(c);
    Untrue(c, s, t);
  }

  lemma WipeFools(c: Config)
    requires c.env.wiped
    ensures !ReportsAreTrue(c)
  {
    var s := Sys([0, 1], 1, map[], map[0 := 0, 1 := 0], 0, map[], map[]);
    assert Legal(c, s, []) && After(c, s, []) == s;
    var t := PeerReports(c, s, s, 1);
    assert PassOf(t, 0) == PassOf(s, 0);
    t := Advance(c, s, t, Wipe(1, 0));
    t := Advance(c, s, t, Refresh(0));
    t := FirstResizes(c, s, t);
    Untrue(c, s, t);
  }

  lemma FirstResizes(c: Config, s: Sys, t: Sys) returns (u: Sys)
    requires Reaches(c, s, t) && t.order == [0, 1] && t.spec == 1 && t.slots == map[1 := 1] && PassOf(t, 0).Idle?
    requires t.cache == map[0 := View([0, 1], 1, map[1 := 1])] && t.backing == map[0 := 0, 1 := 0]
    ensures Reaches(c, s, u) && u.order == [0, 1] && u.slots == map[0 := 1, 1 := 1] && u.device == 0
  {
    u := Advance(c, s, t, Begin(0));
    assert PassOf(u, 0) == Begun(View([0, 1], 1, map[1 := 1]));
    u := Advance(c, s, u, GrowBacking(0, BackingBytes(c.padded, 1)));
    assert PassOf(u, 0) == Grown(View([0, 1], 1, map[1 := 1]));
    u := ResizesShort(c, s, u);
  }

  lemma ResizesShort(c: Config, s: Sys, t: Sys) returns (u: Sys)
    requires Reaches(c, s, t) && t.order == [0, 1] && t.slots == map[1 := 1]
    requires PassOf(t, 0) == Grown(View([0, 1], 1, map[1 := 1])) && t.backing.Keys == {0, 1} && t.backing[1] == 0
    ensures Reaches(c, s, u) && u.order == [0, 1] && u.slots == map[0 := 1, 1 := 1] && u.device == 0
  {
    assert t.order[1] == 1;
    assert IsSmallest(t.order, t.backing, 0);
    u := Advance(c, s, t, ResizeDevice(0, 0));
    u := Advance(c, s, u, Report(0));
  }

  /** Reports are true in every run exactly when no backing is wiped and the first diskful
      replica is never taken out. */
  lemma ReportsTrueExactly(c: Config)
    ensures ReportsAreTrue(c) <==> Strict(c.env)
  {
    if Strict(c.env) {
      forall s, steps, size: nat | Initial(s) && Legal(c, s, steps) && size > 0
        ensures AllReport(After(c, s, steps).order, After(c, s, steps).slots, size) ==>
                DeviceGrown(c, After(c, s, steps), size)
      {
        InvRun(c, s, steps);
        if AllReport(After(c, s, steps).order, After(c, s, steps).slots, size) {
          ReportedMeansGrown(c, After(c, s, steps), After(c, s, steps).slots, size);
        }
      }
    } else if c.env.reelected {
      ReelectionFools(c);
    } else {
      WipeFools(c);
    }
  }

  // ----- a fooled volume stays short -----

  /** Every view there is, of a volume whose diskful slots all report the spec, says so. */
  ghost predicate Caught(s: Sys, v: View) {
    v.order == s.order && v.spec == s.spec && AllReport(s.order, v.slots, s.spec)
  }

  ghost predicate PassCaught(s: Sys, n: Node) {
    match PassOf(s, n)
    case Idle => true
    case Begun(v) => n in s.order && Caught(s, v)
    case Grown(v) => n in s.order && Caught(s, v)
    case Reporting(x) => n in s.order && x >= s.spec
  }

  ghost predicate Settled(s: Sys) {
    && AllReport(s.order, s.slots, s.spec)
    && (forall n <- s.order :: n in s.cache && Caught(s, s.cache[n]))
    && (forall n :: PassCaught(s, n))
  }

  predicate Routine(step: Step) {
    !step.Expand? && !step.Wipe? && !step.Drop?
  }

  lemma SettledStep(c: Config, s: Sys, step: Step)
    requires Settled(s) && Enabled(c, s, step) && Routine(step)
    ensures Settled(Apply(c, s, step)) && Apply(c, s, step).device == s.device
  {
    var t := Apply(c, s, step);
    assert PassCaught(s, step.n);
    forall n ensures PassCaught(t, n) {
      assert PassCaught(s, n);
    }
  }

  /** Until the next expansion no coordinator finds itself behind: after the first diskful
      replica leaves mid-growth, the device is never resized. */
  lemma {:induction false} SettledForGood(c: Config, s: Sys, steps: seq<Step>)
    requires Settled(s) && Legal(c, s, steps) && forall x <- steps :: Routine(x)
    ensures Settled(After(c, s, steps)) && After(c, s, steps).device == s.device
    decreases |steps|
  {
    if steps != [] {
      var before, last := steps[..|steps| - 1], steps[|steps| - 1];
      assert last in steps && forall x <- before :: x in steps;
      SettledForGood(c, s, before);
      SettledStep(c, After(c, s, before), last);
    }
  }

  /** A growth whose coordinator left is lost: some run reports it done on every leg, and from
      there no run without another expansion grows the device. */
  lemma ReelectionStaysShort(c: Config)
    requires c.env.reelected
    ensures exists s, t :: Reaches(c, s, t) && AllReport(t.order, t.slots, 1) && Stuck(c, t)
  {
    var s, t := ReelectionSettles(c);
    BackingMonotone(c.padded, 0, 1);
    forall steps | Legal(c, t, steps) && forall x <- steps :: Routine(x)
      ensures !DeviceGrown(c, After(c, t, steps), 1)
    {
      SettledForGood(c, t, steps);
    }
  }

  ghost predicate Stuck(c: Config, t: Sys) {
    forall steps | Legal(c, t, steps) && forall x <- steps :: Routine(x) :: !DeviceGrown(c, After(c, t, steps), 1)
  }

  // ----- the decision, as it runs -----

  method PeerBackingsGrown(v: View, n: Node) returns (b: bool)
    ensures b == PeersGrown(v, n)
  {
    for i := 0 to |v.order|
      invariant forall j | 0 <= j < i :: v.order[j] == n || SlotOf(v.slots, v.order[j]) >= v.spec
    {
      if v.order[i] != n && SlotOf(v.slots, v.order[i]) < v.spec {
        return false;
      }
    }
    return true;
  }

  /** The size to report and whether the device was resized.  `held` is a local disk that is
      gone or a resync in flight, `resizeOk` whether the resize succeeds.  Each answer is a
      step of the protocol: reporting the spec, withholding it, or resizing and reporting. */
  method GrowIfCoordinator(v: View, n: Node, held: bool, resizeOk: bool) returns (report: nat, resized: bool)
    ensures resized ==> MustGrow(v, n) && PeersGrown(v, n)
    ensures report == if MustGrow(v, n) && !resized then SlotOf(v.slots, n) else v.spec
    ensures MustGrow(v, n) && PeersGrown(v, n) && !held && resizeOk ==> resized
  {
    if !MustGrow(v, n) {
      return v.spec, false;
    }
    var grown := PeerBackingsGrown(v, n);
    if held || !grown || !resizeOk {
      return SlotOf(v.slots, n), false;
    }
    return v.spec, true;
  }
}
