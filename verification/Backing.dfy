/** Finalizers and backing devices: the membership edits of one volume, the reconciler that
    completes them, and every node's agent, interleaved at their API writes.

    The volume is one object with a version.  Spec edits and finalizer updates are checked
    against it; an agent's slot patch is not, and hands the agent the object as it is by
    then, new version included. */
module Backing {
  import opened BarrierTypes

  datatype Entry = Absent | Bare(diskful: bool) | Placed(diskful: bool)

  /** How far an agent is into a pass: Cleared has torn down and holds the version its
      finalizer update will be checked against. */
  datatype Pass = Idle | Realizing(diskful: bool) | Removing | TornDown | Deleting(version: nat) | Cleared(version: nat)

  datatype Sys = Sys(
    entries: map<Node, Entry>,
    finalizers: set<Node>,
    deleting: bool,
    version: nat,
    backing: set<Node>,
    passes: map<Node, Pass>)

  /** What the editors may do: add a node back while its finalizer is still held, have an
      entry completed while its node is between reading the removal and patching its slot
      out, add an entry with its address filled in. */
  datatype Env = Env(readd: bool, midTeardown: bool, addedPlaced: bool)

  ghost predicate Harmless(e: Env) {
    !e.addedPlaced && (!e.readd || !e.midTeardown)
  }

  datatype Step =
    | Add(n: Node, diskful: bool)
    | AddPlaced(n: Node, diskful: bool)
    | Remove(n: Node)
    | Convert(n: Node)
    | CompleteAll
    | MarkDeleted
    | OtherWrite
    | Read(n: Node)
    | Realize(n: Node)
    | Teardown(n: Node)
    | PatchSlot(n: Node)
    | DropFinalizer(n: Node)
    | Abandon(n: Node, gone: bool)

  function EntryOf(s: Sys, n: Node): Entry {
    if n in s.entries then s.entries[n] else Absent
  }

  function PassOf(s: Sys, n: Node): Pass {
    if n in s.passes then s.passes[n] else Idle
  }

  predicate InWindow(p: Pass) {
    p.Removing? || p.TornDown?
  }

  ghost predicate Enabled(e: Env, s: Sys, step: Step) {
    match step
    case Add(n, _) => EntryOf(s, n).Absent? && (e.readd || n !in s.finalizers)
    case AddPlaced(n, _) => EntryOf(s, n).Absent? && e.addedPlaced
    case Remove(n) => !EntryOf(s, n).Absent?
    case Convert(n) => EntryOf(s, n) == Placed(false)
    case CompleteAll =>
      !s.deleting && forall n <- s.entries :: s.entries[n].Bare? && InWindow(PassOf(s, n)) ==> e.midTeardown
    case MarkDeleted => true
    case OtherWrite => true
    case Read(n) => PassOf(s, n).Idle?
    case Realize(n) => PassOf(s, n).Realizing?
    case Teardown(n) => PassOf(s, n).Removing? || PassOf(s, n).Deleting?
    case PatchSlot(n) => PassOf(s, n).TornDown?
    case DropFinalizer(n) => PassOf(s, n).Cleared?
    case Abandon(n, gone) => gone ==> PassOf(s, n).Removing? || PassOf(s, n).Deleting?
  }

  function Write(s: Sys, entries: map<Node, Entry>): Sys {
    s.(entries := entries, version := s.version + 1)
  }

  function Goto(s: Sys, n: Node, p: Pass): Sys {
    s.(passes := s.passes[n := p])
  }

  function CompletedEntries(s: Sys): map<Node, Entry> {
    map n | n in s.entries :: if s.entries[n].Bare? then Placed(s.entries[n].diskful) else s.entries[n]
  }

  function PresentNodes(s: Sys): set<Node> {
    set n | n in s.entries && !s.entries[n].Absent?
  }

  function DoRead(s: Sys, n: Node): Sys {
    if s.deleting then
      if EntryOf(s, n).Absent? && n !in s.finalizers then s else Goto(s, n, Deleting(s.version))
    else
      match EntryOf(s, n)
      case Absent => if n in s.finalizers then Goto(s, n, Removing) else s
      case Bare(_) => s
      case Placed(diskful) => Goto(s, n, Realizing(diskful))
  }

  function DoDrop(s: Sys, n: Node, v: nat): Sys {
    var idle := Goto(s, n, Idle);
    if v == s.version then idle.(finalizers := s.finalizers - {n}, version := s.version + 1) else idle
  }

  ghost function Apply(e: Env, s: Sys, step: Step): Sys
    requires Enabled(e, s, step)
  {
    match step
    case Add(n, diskful) => Write(s, s.entries[n := Bare(diskful)])
    case AddPlaced(n, diskful) => Write(s, s.entries[n := Placed(diskful)])
    case Remove(n) => Write(s, s.entries[n := Absent])
    case Convert(n) => Write(s, s.entries[n := Placed(true)])
    case CompleteAll => Write(s, CompletedEntries(s)).(finalizers := s.finalizers + PresentNodes(s))
    case MarkDeleted => s.(deleting := true, version := s.version + 1)
    case OtherWrite => s.(version := s.version + 1)
    case Read(n) => DoRead(s, n)
    case Realize(n) =>
      Goto(s, n, Idle).(backing := if PassOf(s, n).diskful then s.backing + {n} else s.backing)
    case Teardown(n) =>
      Goto(s, n, if PassOf(s, n).Removing? then TornDown else Cleared(PassOf(s, n).version))
      .(backing := s.backing - {n})
    case PatchSlot(n) => Goto(s, n, Cleared(s.version + 1)).(version := s.version + 1)
    case DropFinalizer(n) => DoDrop(s, n, PassOf(s, n).version)
    case Abandon(n, gone) => Goto(s, n, Idle).(backing := if gone then s.backing - {n} else s.backing)
  }

  // ----- the invariant -----

  /** A node holding a backing device holds its teardown finalizer. */
  ghost predicate NoLeak(s: Sys) {
    s.backing <= s.finalizers
  }

  /** What an agent's half-done pass may rely on. */
  ghost predicate PassSafe(e: Env, s: Sys, n: Node) {
    match PassOf(s, n)
    case Idle => true
    case Realizing(_) => n in s.finalizers
    case Removing => n in s.finalizers && !EntryOf(s, n).Placed? && (e.readd || EntryOf(s, n).Absent?)
    case TornDown =>
      n in s.finalizers && n !in s.backing && !EntryOf(s, n).Placed? && (e.readd || EntryOf(s, n).Absent?)
    case Deleting(v) => s.deleting && v <= s.version
    case Cleared(v) =>
      n !in s.backing && v <= s.version && (v == s.version && !s.deleting ==> !EntryOf(s, n).Placed?)
  }

  ghost predicate Inv(e: Env, s: Sys) {
    && NoLeak(s)
    && (forall n :: EntryOf(s, n).Placed? && !s.deleting ==> n in s.finalizers)
    && (forall n :: PassSafe(e, s, n))
  }

  ghost predicate Initial(s: Sys) {
    && s.backing == {} && s.passes == map[] && !s.deleting
    && forall n <- s.entries :: s.entries[n].Placed? ==> n in s.finalizers
  }

  lemma InvEdits(e: Env, s: Sys, step: Step)
    requires Harmless(e) && Inv(e, s) && Enabled(e, s, step)
    requires step.Add? || step.Remove? || step.Convert? || step.MarkDeleted? || step.OtherWrite?
    ensures Inv(e, Apply(e, s, step))
  {
    var t := Apply(e, s, step);
    forall n ensures PassSafe(e, t, n) {
      assert PassSafe(e, s, n);
    }
    forall n | EntryOf(t, n).Placed? && !t.deleting ensures n in t.finalizers {
      assert EntryOf(s, n).Placed?;
    }
  }

  lemma InvCompleteAll(e: Env, s: Sys)
    requires Harmless(e) && Inv(e, s) && Enabled(e, s, CompleteAll)
    ensures Inv(e, Apply(e, s, CompleteAll))
  {
    var t := Apply(e, s, CompleteAll);
    forall n ensures PassSafe(e, t, n) {
      assert PassSafe(e, s, n);
    }
  }

  lemma InvAgent(e: Env, s: Sys, step: Step)
    requires Harmless(e) && Inv(e, s) && Enabled(e, s, step)
    requires step.Read? || step.Realize? || step.Teardown? || step.PatchSlot? || step.DropFinalizer? || step.Abandon?
    ensures Inv(e, Apply(e, s, step))
  {
    var t := Apply(e, s, step);
    assert PassSafe(e, s, step.n);
    forall n ensures PassSafe(e, t, n) {
      assert PassSafe(e, s, n);
    }
    forall n | EntryOf(t, n).Placed? && !t.deleting ensures n in t.finalizers {
      assert EntryOf(s, n).Placed?;
    }
  }

  lemma InvStep(e: Env, s: Sys, step: Step)
    requires Harmless(e) && Inv(e, s) && Enabled(e, s, step)
    ensures Inv(e, Apply(e, s, step))
  {
    if step.CompleteAll? {
      InvCompleteAll(e, s);
    } else if step.Add? || step.Remove? || step.Convert? || step.MarkDeleted? || step.OtherWrite? {
      InvEdits(e, s, step);
    } else {
      InvAgent(e, s, step);
    }
  }

  ghost predicate Legal(e: Env, s: Sys, steps: seq<Step>)
    decreases |steps|, 0
  {
    steps == [] ||
    (var before := steps[..|steps| - 1];
     Legal(e, s, before) && Enabled(e, After(e, s, before), steps[|steps| - 1]))
  }

  ghost function After(e: Env, s: Sys, steps: seq<Step>): Sys
    requires Legal(e, s, steps)
    decreases |steps|, 1
  {
    if steps == [] then s else Apply(e, After(e, s, steps[..|steps| - 1]), steps[|steps| - 1])
  }

  lemma {:induction false} InvRun(e: Env, s: Sys, steps: seq<Step>)
    requires Harmless(e) && Initial(s) && Legal(e, s, steps)
    ensures Inv(e, After(e, s, steps))
    decreases |steps|
  {
    if steps != [] {
      InvRun(e, s, steps[..|steps| - 1]);
      InvStep(e, After(e, s, steps[..|steps| - 1]), steps[|steps| - 1]);
    }
  }

  ghost predicate NeverLeaks(e: Env) {
    forall s, steps | Initial(s) && Legal(e, s, steps) :: NoLeak(After(e, s, steps))
  }

  /** A run whose last state leaks. */
  ghost predicate Reaches(e: Env, s: Sys, t: Sys) {
    Initial(s) && exists steps :: Legal(e, s, steps) && After(e, s, steps) == t
  }

  lemma Advance(e: Env, s: Sys, t: Sys, step: Step)
    requires Reaches(e, s, t) && Enabled(e, t, step)
    ensures Reaches(e, s, Apply(e, t, step))
  {
    var steps :| Legal(e, s, steps) && After(e, s, steps) == t;
    assert (steps + [step])[..|steps|] == steps;
    assert Legal(e, s, steps + [step]) && After(e, s, steps + [step]) == Apply(e, t, step);
  }

  /** A placed entry appended without its finalizer is realized without it. */
  lemma AddedPlacedLeaks(e: Env)
    requires e.addedPlaced
    ensures !NeverLeaks(e)
  {
    var s := Sys(map[], {}, false, 0, {}, map[]);
    assert Legal(e, s, []) && After(e, s, []) == s;
    Advance(e, s, s, AddPlaced(0, true));
    RealizedUnguarded(e, s, s.(entries := map[0 := Placed(true)], version := 1));
  }

  /** A removal an agent has begun, taken back and completed before its slot patch: the
      patch hands the agent the new version, so it drops the finalizer of a live entry. */
  lemma CompletedMidTeardownLeaks(e: Env)
    requires e.readd && e.midTeardown
    ensures !NeverLeaks(e)
  {
    var s := Sys(map[0 := Placed(true)], {0}, false, 0, {}, map[]);
    assert Legal(e, s, []) && After(e, s, []) == s;
    Advance(e, s, s, Remove(0));
    var t := s.(entries := map[0 := Absent], version := 1);
    Advance(e, s, t, Read(0));
    RemovalBegun(e, s, t.(passes := map[0 := Removing]));
  }

  lemma RemovalBegun(e: Env, s: Sys, t: Sys)
    requires e.readd && e.midTeardown && Reaches(e, s, t)
    requires t == Sys(map[0 := Absent], {0}, false, 1, {}, map[0 := Removing])
    ensures !NeverLeaks(e)
  {
    Advance(e, s, t, Teardown(0));
    TakenBack(e, s, t.(passes := map[0 := TornDown]));
  }

  lemma TakenBack(e: Env, s: Sys, t: Sys)
    requires e.readd && e.midTeardown && Reaches(e, s, t)
    requires t == Sys(map[0 := Absent], {0}, false, 1, {}, map[0 := TornDown])
    ensures !NeverLeaks(e)
  {
    Advance(e, s, t, Add(0, true));
    var u := t.(entries := map[0 := Bare(true)], version := 2);
    Advance(e, s, u, CompleteAll);
    assert PresentNodes(u) == {0} && CompletedEntries(u) == map[0 := Placed(true)];
    CompletedTooSoon(e, s, u.(entries := map[0 := Placed(true)], version := 3));
  }

  lemma CompletedTooSoon(e: Env, s: Sys, t: Sys)
    requires Reaches(e, s, t) && t == Sys(map[0 := Placed(true)], {0}, false, 3, {}, map[0 := TornDown])
    ensures !NeverLeaks(e)
  {
    Advance(e, s, t, PatchSlot(0));
    var u := t.(passes := map[0 := Cleared(4)], version := 4);
    Advance(e, s, u, DropFinalizer(0));
    RealizedUnguarded(e, s, u.(passes := map[0 := Idle], finalizers := {}, version := 5));
  }

  lemma RealizedUnguarded(e: Env, s: Sys, t: Sys)
    requires Reaches(e, s, t) && !t.deleting && EntryOf(t, 0) == Placed(true) && 0 !in t.finalizers
    requires PassOf(t, 0) == Idle
    ensures !NeverLeaks(e)
  {
    Advance(e, s, t, Read(0));
    var u := Goto(t, 0, Realizing(true));
    Advance(e, s, u, Realize(0));
    assert 0 in Apply(e, u, Realize(0)).backing;
  }

  /** No leaked backing, exactly: in every run every backing device is guarded by a finalizer
      if and only if entries are added bare and no entry is both added back under a pending
      finalizer and completed while its removal is being carried out. */
  lemma NoLeakedBackingExactly(e: Env)
    ensures NeverLeaks(e) <==> Harmless(e)
  {
    if Harmless(e) {
      forall s, steps | Initial(s) && Legal(e, s, steps)
        ensures NoLeak(After(e, s, steps))
      {
        InvRun(e, s, steps);
      }
    } else if e.addedPlaced {
      AddedPlacedLeaks(e);
    } else {
      CompletedMidTeardownLeaks(e);
    }
  }
}
