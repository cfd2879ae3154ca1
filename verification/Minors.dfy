/** DRBD minors on one node: the assignment file, the rendered configs, the kernel and the
    status slots, with crashes between any two of their writes.

    A config's minor is what its text parses to; the text itself is another module's. */
module Minors {

  type Name = nat
  type Minor = int

  const MINOR_BASE: Minor := 1000

  /** How far a volume's pass got.  Assigned has a minor in hand, Downed has stopped the
      resource, Unfiled has removed its config. */
  datatype Pass = Idle | Assigned(minor: Minor) | Rendered(minor: Minor) | Registered(minor: Minor) | Downed | Unfiled

  /** `gone` are the names whose config was removed and whose slot was not dropped since. */
  datatype Sys = Sys(
    owned: set<Name>,
    assign: map<Name, Minor>,
    res: map<Name, Minor>,
    kernel: map<Name, Minor>,
    slot: map<Name, Minor>,
    gone: set<Name>,
    passes: map<Name, Pass>)

  /** Departures: minor.assign is lost while a resource without a config is in the kernel, or
      while a pass holds a minor it has not rendered; a resource held open has its config
      removed with no assignment on record; a volume comes back to the node with the slot of
      its previous stay. */
  datatype Env = Env(lossOverZombie: bool, lossMidPass: bool, reclaimUnrecorded: bool, staleSlot: bool)

  predicate Strict(e: Env) {
    !e.lossOverZombie && !e.lossMidPass && !e.reclaimUnrecorded && !e.staleSlot
  }

  datatype Step =
    | Own(n: Name)
    | Disown(n: Name)
    | Assign(n: Name, minor: Minor)
    | Render(n: Name)
    | Register(n: Name)
    | Publish(n: Name)
    | KernelDown(n: Name)
    | RemoveFiles(n: Name)
    | ReleaseMinor(n: Name)
    | RemoveConfig(n: Name)
    | DropSlot(n: Name)
    | SweepDown(n: Name)
    | SweepFiles(n: Name)
    | SweepAssignment(n: Name)
    | Crash(n: Name)
    | Reboot
    | LoseAssignments

  function PassOf(s: Sys, n: Name): Pass {
    if n in s.passes then s.passes[n] else Idle
  }

  /** The minor a pass carries in memory. */
  predicate Carries(p: Pass, m: Minor) {
    (p.Assigned? || p.Rendered? || p.Registered?) && p.minor == m
  }

  predicate Used(assign: map<Name, Minor>, res: map<Name, Minor>, m: Minor) {
    m in assign.Values || m in res.Values
  }

  ghost predicate LowestFree(assign: map<Name, Minor>, res: map<Name, Minor>, m: Minor) {
    m >= MINOR_BASE && !Used(assign, res, m) && forall k | MINOR_BASE <= k < m :: Used(assign, res, k)
  }

  /** What a volume is handed: its slot's minor, else its assignment, else its config's,
      else the lowest one free. */
  ghost predicate Hands(s: Sys, n: Name, m: Minor) {
    if n in s.slot then m == s.slot[n]
    else if n in s.assign then m == s.assign[n]
    else if n in s.res then m == s.res[n]
    else LowestFree(s.assign, s.res, m)
  }

  ghost predicate Enabled(e: Env, s: Sys, step: Step) {
    match step
    case Own(n) => n !in s.owned
    case Disown(n) => n in s.owned && PassOf(s, n).Idle?
    case Assign(n, m) => n in s.owned && PassOf(s, n).Idle? && Hands(s, n, m) && (n in s.gone ==> e.staleSlot)
    case Render(n) => PassOf(s, n).Assigned?
    case Register(n) => PassOf(s, n).Rendered?
    case Publish(n) => PassOf(s, n).Registered?
    case KernelDown(n) => n in s.owned && PassOf(s, n).Idle? && n in s.res
    case RemoveFiles(n) => PassOf(s, n).Downed?
    case ReleaseMinor(n) => PassOf(s, n).Unfiled?
    case RemoveConfig(n) =>
      n in s.owned && PassOf(s, n).Idle? && (n in s.kernel && n !in s.assign ==> e.reclaimUnrecorded)
    case DropSlot(n) => n in s.owned && PassOf(s, n).Idle?
    case SweepDown(n) => n !in s.owned
    case SweepFiles(n) => n !in s.owned && n !in s.kernel
    case SweepAssignment(n) => n !in s.owned && n !in s.kernel && n !in s.res
    case Crash(_) => true
    case Reboot => true
    case LoseAssignments =>
      && ((exists n :: n in s.kernel && n !in s.res) ==> e.lossOverZombie)
      && ((exists n :: PassOf(s, n).Assigned? && n !in s.res) ==> e.lossMidPass)
  }

  function Goto(s: Sys, n: Name, p: Pass): Sys {
    s.(passes := s.passes[n := p])
  }

  ghost function Apply(e: Env, s: Sys, step: Step): Sys
    requires Enabled(e, s, step)
  {
    match step
    case Own(n) => s.(owned := s.owned + {n})
    case Disown(n) => s.(owned := s.owned - {n}, slot := s.slot - {n}, gone := s.gone - {n})
    case Assign(n, m) =>
      var t := Goto(s, n, Assigned(m));
      if n in s.slot then t else t.(assign := s.assign[n := m])
    case Render(n) =>
      Goto(s, n, Rendered(PassOf(s, n).minor)).(res := s.res[n := PassOf(s, n).minor], gone := s.gone - {n})
    case Register(n) => Goto(s, n, Registered(PassOf(s, n).minor)).(kernel := s.kernel[n := PassOf(s, n).minor])
    case Publish(n) => Goto(s, n, Idle).(slot := s.slot[n := PassOf(s, n).minor])
    case KernelDown(n) => Goto(s, n, Downed).(kernel := s.kernel - {n})
    case RemoveFiles(n) => Goto(s, n, Unfiled).(res := s.res - {n}, gone := s.gone + {n})
    case ReleaseMinor(n) => Goto(s, n, Idle).(assign := s.assign - {n})
    case RemoveConfig(n) => s.(res := s.res - {n}, gone := s.gone + {n})
    case DropSlot(n) => s.(slot := s.slot - {n}, gone := s.gone - {n})
    case SweepDown(n) => s.(kernel := s.kernel - {n})
    case SweepFiles(n) => s.(res := s.res - {n})
    case SweepAssignment(n) => s.(assign := s.assign - {n})
    case Crash(n) => Goto(s, n, Idle)
    case Reboot => s.(kernel := map[], passes := map[])
    case LoseAssignments => s.(assign := map[])
  }

  // ----- claims -----

  /** Minor m is volume n's, by any record, running resource or pass. */
  ghost predicate Claims(s: Sys, n: Name, m: Minor) {
    || (n in s.assign && s.assign[n] == m)
    || (n in s.res && s.res[n] == m)
    || (n in s.kernel && s.kernel[n] == m)
    || (n in s.slot && n !in s.gone && s.slot[n] == m)
    || Carries(PassOf(s, n), m)
  }

  /** No volume has two minors, and no minor two volumes. */
  ghost predicate OneToOne(s: Sys) {
    && (forall n, a, b | Claims(s, n, a) && Claims(s, n, b) :: a == b)
    && (forall n, k, m | Claims(s, n, m) && Claims(s, k, m) :: n == k)
  }

  /** The allocator's scan sees every claim. */
  ghost predicate Covered(s: Sys) {
    forall n, m | Claims(s, n, m) :: (n in s.assign && s.assign[n] == m) || (n in s.res && s.res[n] == m)
  }

  /** A published volume keeps its config until it is gone. */
  ghost predicate SlotsOrderly(s: Sys) {
    && (forall n <- s.slot :: n in s.owned && (n !in s.gone ==> n in s.res))
    && (forall n <- s.gone :: n in s.owned && n !in s.res)
  }

  /** A pass past rendering has a config, one past its down has no resource, and only owned
      volumes have passes. */
  ghost predicate PassOrderly(s: Sys, n: Name) {
    match PassOf(s, n)
    case Idle => true
    case Assigned(_) => n in s.owned && n !in s.gone
    case Rendered(_) => n in s.owned && n in s.res
    case Registered(_) => n in s.owned && n in s.res
    case Downed => n in s.owned && n !in s.kernel
    case Unfiled => n in s.owned && n !in s.kernel && n in s.gone
  }

  ghost predicate PassesOrderly(s: Sys) {
    forall n :: PassOrderly(s, n)
  }

  ghost predicate Orderly(s: Sys) {
    SlotsOrderly(s) && PassesOrderly(s)
  }

  ghost predicate Inv(s: Sys) {
    OneToOne(s) && Covered(s) && Orderly(s)
  }

  ghost predicate Initial(s: Sys) {
    s == Sys({}, map[], map[], map[], map[], {}, map[])
  }

  /** Most steps only drop claims, or move one from a pass to a record. */
  lemma FewerClaims(s: Sys, t: Sys)
    requires OneToOne(s) && forall n, m | Claims(t, n, m) :: Claims(s, n, m)
    ensures OneToOne(t)
  {
  }

  lemma AssignClaims(e: Env, s: Sys, n: Name, m: Minor)
    requires Strict(e) && Inv(s) && Enabled(e, s, Assign(n, m))
    ensures OneToOne(Apply(e, s, Assign(n, m))) && Covered(Apply(e, s, Assign(n, m)))
  {
    var t := Apply(e, s, Assign(n, m));
    assert forall k, x | Claims(t, k, x) :: Claims(s, k, x) || (k == n && x == m);
    if n in s.slot || n in s.assign || n in s.res {
      assert Claims(s, n, m);
      FewerClaims(s, t);
    } else {
      assert forall x :: !Claims(s, n, x);
      forall k ensures !Claims(s, k, m) {
        if k in s.assign {
          assert s.assign[k] in s.assign.Values;
        }
        if k in s.res {
          assert s.res[k] in s.res.Values;
        }
      }
    }
    assert Claims(t, n, m);
  }

  lemma StepClaims(e: Env, s: Sys, step: Step)
    requires Strict(e) && Inv(s) && Enabled(e, s, step) && !step.Assign?
    ensures OneToOne(Apply(e, s, step)) && Covered(Apply(e, s, step))
  {
    var t := Apply(e, s, step);
    forall n, m | Claims(t, n, m) ensures Claims(s, n, m) {
      StepKeeps(e, s, step, n, m);
    }
    FewerClaims(s, t);
    if step.Render? {
      assert Claims(s, step.n, PassOf(s, step.n).minor);
    }
    forall n, m | Claims(t, n, m) ensures (n in t.assign && t.assign[n] == m) || (n in t.res && t.res[n] == m) {
      assert Claims(s, n, m) && PassOrderly(s, n);
      assert n in s.res ==> Claims(s, n, s.res[n]);
      assert n in s.assign ==> Claims(s, n, s.assign[n]);
    }
  }

  lemma StepOrderly(e: Env, s: Sys, step: Step)
    requires Strict(e) && Inv(s) && Enabled(e, s, step)
    ensures Orderly(Apply(e, s, step))
  {
    StepSlots(e, s, step);
    StepPasses(e, s, step);
  }

  lemma StepSlots(e: Env, s: Sys, step: Step)
    requires Strict(e) && Inv(s) && Enabled(e, s, step)
    ensures SlotsOrderly(Apply(e, s, step))
  {
    if !step.Reboot? && !step.LoseAssignments? {
      assert PassOrderly(s, step.n);
    }
  }

  lemma StepPasses(e: Env, s: Sys, step: Step)
    requires Strict(e) && Inv(s) && Enabled(e, s, step)
    ensures PassesOrderly(Apply(e, s, step))
  {
    var t := Apply(e, s, step);
    forall n ensures PassOrderly(t, n) {
      assert PassOrderly(s, n);
    }
  }

  lemma InvStep(e: Env, s: Sys, step: Step)
    requires Strict(e) && Inv(s) && Enabled(e, s, step)
    ensures Inv(Apply(e, s, step))
  {
    StepOrderly(e, s, step);
    if step.Assign? {
      AssignClaims(e, s, step.n, step.minor);
    } else {
      StepClaims(e, s, step);
    }
  }

  // ----- runs -----

  ghost predicate Legal(e: Env, s: Sys, steps: seq<Step>)
    decreases |steps|, 0
  {
    steps == [] ||
    (var before := steps[..|steps| - 1];
     Legal(e, s, before) && Enabled(e, After(e, s, before), steps[|steps| - 1]))
  }

  ghost function After(e: Env, s: Sys, steps: seq<Step>): Sys
    requires Legal(e, s, steps)
    decreases |steps|, 1
  {
    if steps == [] then s else Apply(e, After(e, s, steps[..|steps| - 1]), steps[|steps| - 1])
  }

  lemma {:induction false} InvRun(e: Env, s: Sys, steps: seq<Step>)
    requires Strict(e) && Initial(s) && Legal(e, s, steps)
    ensures Inv(After(e, s, steps))
    decreases |steps|
  {
    if steps != [] {
      InvRun(e, s, steps[..|steps| - 1]);
      InvStep(e, After(e, s, steps[..|steps| - 1]), steps[|steps| - 1]);
    }
  }

  // ----- main results -----

  /** No two registered resources share a minor. */
  ghost predicate NoSharedMinor(s: Sys) {
    forall n <- s.kernel, k <- s.kernel :: s.kernel[n] == s.kernel[k] ==> n == k
  }

  ghost predicate NeverShares(e: Env) {
    forall s, steps | Initial(s) && Legal(e, s, steps) :: NoSharedMinor(After(e, s, steps))
  }

  /** A volume's minor is stable: across any step, what the node claims for it before and
      what it claims after are one minor. */
  lemma MinorStable(e: Env, s: Sys, steps: seq<Step>, step: Step, n: Name, a: Minor, b: Minor)
    requires Strict(e) && Initial(s) && Legal(e, s, steps) && Enabled(e, After(e, s, steps), step)
    requires Claims(After(e, s, steps), n, a) && Claims(Apply(e, After(e, s, steps), step), n, b)
    ensures a == b
  {
    InvRun(e, s, steps);
    var t := After(e, s, steps);
    if step.Assign? {
      AssignClaims(e, t, step.n, step.minor);
      AssignKeeps(e, t, step.n, step.minor, n, a);
    } else {
      StepKeeps(e, t, step, n, b);
    }
  }

  lemma AssignKeeps(e: Env, s: Sys, n: Name, m: Minor, k: Name, a: Minor)
    requires Strict(e) && Inv(s) && Enabled(e, s, Assign(n, m)) && Claims(s, k, a)
    ensures Claims(Apply(e, s, Assign(n, m)), k, a)
  {
    assert n in s.assign ==> Claims(s, n, s.assign[n]);
  }

  lemma StepKeeps(e: Env, s: Sys, step: Step, n: Name, m: Minor)
    requires Inv(s) && Enabled(e, s, step) && !step.Assign? && Claims(Apply(e, s, step), n, m)
    ensures Claims(s, n, m)
  {
    assert PassOrderly(s, n);
  }

  ghost predicate Reaches(e: Env, t: Sys) {
    exists s, steps :: Initial(s) && Legal(e, s, steps) && After(e, s, steps) == t
  }

  lemma Advance(e: Env, s: Sys, step: Step) returns (t: Sys)
    requires Reaches(e, s) && Enabled(e, s, step)
    ensures t == Apply(e, s, step) && Reaches(e, t)
  {
    t := Apply(e, s, step);
    var s0, steps :| Initial(s0) && Legal(e, s0, steps) && After(e, s0, steps) == s;
    assert (steps + [step])[..|steps|] == steps;
    assert Legal(e, s0, steps + [step]) && After(e, s0, steps + [step]) == t;
  }

  lemma Start(e: Env) returns (s: Sys)
    ensures Reaches(e, s) && Initial(s)
  {
    s := Sys({}, map[], map[], map[], map[], {}, map[]);
    assert Initial(s) && Legal(e, s, []) && After(e, s, []) == s;
  }

  lemma Shared(e: Env, s: Sys)
    requires Reaches(e, s) && 0 in s.kernel && 1 in s.kernel && s.kernel[0] == s.kernel[1]
    ensures !NeverShares(e)
  {
    assert !NoSharedMinor(s);
  }

  /** The minor a volume is handed when no file names it. */
  lemma BaseIsFree(assign: map<Name, Minor>, res: map<Name, Minor>)
    requires assign == map[] && res == map[]
    ensures LowestFree(assign, res, MINOR_BASE)
  {
  }

  /** Takes a volume holding a minor in hand into the kernel. */
  lemma BringUp(e: Env, s: Sys, n: Name) returns (t: Sys)
    requires Reaches(e, s) && PassOf(s, n).Assigned?
    ensures Reaches(e, t) && t.kernel == s.kernel[n := PassOf(s, n).minor] && t.res == s.res[n := PassOf(s, n).minor]
    ensures t.assign == s.assign && t.slot == s.slot && t.gone == s.gone - {n} && t.owned == s.owned
    ensures t.passes == s.passes[n := Registered(PassOf(s, n).minor)]
  {
    t := Advance(e, s, Render(n));
    t := Advance(e, t, Register(n));
  }

  /** A first volume, handed the base minor, registered, and its pass done. */
  lemma FirstUp(e: Env) returns (s: Sys)
    ensures Reaches(e, s) && s.owned == {0} && s.passes == map[0 := Idle]
    ensures s.assign == map[0 := MINOR_BASE] == s.res == s.kernel == s.slot && s.gone == {}
  {
    s := Start(e);
    s := Advance(e, s, Own(0));
    BaseIsFree(s.assign, s.res);
    s := Advance(e, s, Assign(0, MINOR_BASE));
    s := BringUp(e, s, 0);
    s := Advance(e, s, Publish(0));
  }

  /** With no file left naming the first volume's minor, the second is handed it too. */
  lemma SecondUp(e: Env, s: Sys) returns (t: Sys)
    requires Reaches(e, s) && 1 !in s.owned && PassOf(s, 1).Idle? && 1 !in s.slot && 1 !in s.gone
    requires s.assign == map[] == s.res
    ensures Reaches(e, t) && t.kernel == s.kernel[1 := MINOR_BASE] && t.slot == s.slot && t.gone == s.gone
    ensures t.owned == s.owned + {1} && forall n | n != 1 :: PassOf(t, n) == PassOf(s, n)
  {
    t := Advance(e, s, Own(1));
    BaseIsFree(t.assign, t.res);
    t := Advance(e, t, Assign(1, MINOR_BASE));
    t := BringUp(e, t, 1);
    assert t.gone == s.gone;
  }

  lemma LossOverZombieShares(e: Env)
    requires e.lossOverZombie
    ensures !NeverShares(e)
  {
    var s := FirstUp(e);
    s := Advance(e, s, RemoveConfig(0));
    s := Advance(e, s, LoseAssignments);
    s := SecondUp(e, s);
    Shared(e, s);
  }

  lemma ReclaimUnrecordedShares(e: Env)
    requires e.reclaimUnrecorded
    ensures !NeverShares(e)
  {
    var s := FirstUp(e);
    s := Advance(e, s, LoseAssignments);
    s := Advance(e, s, RemoveConfig(0));
    s := SecondUp(e, s);
    Shared(e, s);
  }

  lemma StaleSlotShares(e: Env)
    requires e.staleSlot
    ensures !NeverShares(e)
  {
    var s := FirstUp(e);
    s := Advance(e, s, KernelDown(0));
    s := Advance(e, s, RemoveFiles(0));
    s := Advance(e, s, ReleaseMinor(0));
    s := SecondUp(e, s);
    s := Advance(e, s, Assign(0, MINOR_BASE));
    s := BringUp(e, s, 0);
    Shared(e, s);
  }

  lemma LossMidPassShares(e: Env)
    requires e.lossMidPass
    ensures !NeverShares(e)
  {
    var s := Start(e);
    s := Advance(e, s, Own(0));
    BaseIsFree(s.assign, s.res);
    s := Advance(e, s, Assign(0, MINOR_BASE));
    s := Advance(e, s, LoseAssignments);
    s := SecondUp(e, s);
    s := BringUp(e, s, 0);
    Shared(e, s);
  }

  /** Minors are never shared, in any run, exactly when none of the four departures occurs:
      losing the assignment file alone, with every rendered config in place, is harmless. */
  lemma MinorsExactly(e: Env)
    ensures NeverShares(e) <==> Strict(e)
  {
    if Strict(e) {
      forall s, steps | Initial(s) && Legal(e, s, steps) ensures NoSharedMinor(After(e, s, steps)) {
        InvRun(e, s, steps);
        var t := After(e, s, steps);
        assert forall n <- t.kernel :: Claims(t, n, t.kernel[n]);
      }
    } else if e.lossOverZombie {
      LossOverZombieShares(e);
    } else if e.lossMidPass {
      LossMidPassShares(e);
    } else if e.reclaimUnrecorded {
      ReclaimUnrecordedShares(e);
    } else {
      StaleSlotShares(e);
    }
  }
}
