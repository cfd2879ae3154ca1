/** The driver calls of one agent process, interleaved at their host commands: a lock per
    resource, held over a whole disconnect-down-up or adjust sequence, and the node's
    breaker counting children the kernel will not let die. */
module Teardown {
  import opened BarrierTypes
  import opened Sequences

  type Thread = nat
  type Name = nat
  type Pid = nat

  datatype Command =
    | Disconnect(name: Name, peer: nat)
    | Down(name: Name)
    | Detach(name: Name)
    | Up(name: Name)
    | Adjust(name: Name)
    | Connect(name: Name)
    | AdmDisconnect(name: Name)
    | Misc(k: nat)

  /** DownCall also stands for the shutdown sweep's down of a Secondary.  ApplyCall adjusts
      or ups; ResolveCall is the split-brain recovery; the cycles reconnect one peer, the
      stalled one forcing a disconnect that was refused. */
  datatype Call = DownCall | RestartCall | DetachCall | ApplyCall | ResolveCall | CycleCall | StalledCycleCall

  /** How far a call got: Locked has not looked at the breaker yet, Severing has begun to
      disconnect, Severed may connect again, Downed has seen its down succeed. */
  datatype Stage = Locked | Checked | Severing | Severed | Downed

  /** How a command ends for the call: a stuck one outlived its kill. */
  datatype Ending = Worked | Erred | Stuck

  datatype Pc =
    | Idle
    | Waiting(call: Call, name: Name)
    | Holding(call: Call, name: Name, stage: Stage)
    | Running(call: Call, name: Name, stage: Stage, cmd: Command)
    | Loose(cmd: Command)

  datatype Config = Config(threads: set<Thread>, limit: nat)

  datatype Sys = Sys(
    pcs: map<Thread, Pc>,
    locks: map<Name, Thread>,
    stranded: map<Pid, Command>,
    latched: bool)

  datatype Step =
    | Call(t: Thread, call: Call, name: Name)
    | GiveUp(t: Thread)
    | Acquire(t: Thread)
    | Check(t: Thread)
    | Issue(t: Thread, cmd: Command)
    | RunLoose(t: Thread, k: nat)
    | Exit(t: Thread, ok: bool)
    | Strand(t: Thread, pid: Pid)
    | Release(t: Thread)
    | Drain(pid: Pid)
    | Latch

  ghost predicate DownStranded(stranded: map<Pid, Command>, r: Name) {
    exists p <- stranded :: stranded[p] == Down(r)
  }

  ghost predicate DisconnectStranded(stranded: map<Pid, Command>, r: Name) {
    exists p <- stranded :: stranded[p].Disconnect? && stranded[p].name == r
  }

  predicate Tripped(c: Config, s: Sys) {
    s.latched || (c.limit > 0 && |s.stranded| >= c.limit)
  }

  predicate Connecting(cmd: Command) {
    cmd.Up? || cmd.Adjust? || cmd.Connect?
  }

  /** The calls that reconnect peers, and look for a stranded disconnect first. */
  predicate Live(call: Call) {
    call.ApplyCall? || call.ResolveCall? || call.CycleCall? || call.StalledCycleCall?
  }

  predicate Severs(cmd: Command, r: Name) {
    cmd.Disconnect? && cmd.name == r
  }

  /** Which command a call may run next on its resource. */
  predicate Follows(call: Call, r: Name, stage: Stage, cmd: Command) {
    match call
    case ApplyCall => stage == Checked && (cmd == Adjust(r) || cmd == Up(r))
    case ResolveCall => (stage == Checked && cmd == AdmDisconnect(r)) || (stage == Severed && cmd == Connect(r))
    case CycleCall => (stage == Checked && Severs(cmd, r)) || (stage == Severed && cmd == Connect(r))
    case StalledCycleCall =>
      ((stage == Checked || stage == Severing) && Severs(cmd, r)) || (stage == Severed && cmd == Connect(r))
    case _ =>
      || ((stage == Checked || stage == Severing) && Severs(cmd, r))
      || ((stage == Checked || stage == Severing) && cmd == (if call.DetachCall? then Detach(r) else Down(r)))
      || (call.RestartCall? && stage == Downed && cmd == Up(r))
  }

  /** Where a call stands after a command; it ends at none.  The recovery ignores how its
      disconnect ended, the stalled cycle forces one that failed in whatever way, and a
      teardown goes on past any that was not killed. */
  function Onward(call: Call, stage: Stage, cmd: Command, end: Ending): Option<Stage> {
    match call
    case ApplyCall => Some(Checked)
    case ResolveCall => if cmd.AdmDisconnect? then Some(Severed) else None
    case CycleCall => if cmd.Disconnect? && end.Worked? then Some(Severed) else None
    case StalledCycleCall =>
      if cmd.Disconnect? && end.Worked? then Some(Severed)
      else if cmd.Disconnect? && stage == Checked then Some(Severing)
      else None
    case _ =>
      if cmd.Disconnect? && !end.Stuck? then Some(Severing)
      else if cmd.Down? && end.Worked? then Some(Downed)
      else None
  }

  /** The check under the lock: every call refuses a stranded down; those that reconnect
      peers refuse a stranded drbdsetup disconnect too. */
  ghost predicate Clear(stranded: map<Pid, Command>, call: Call, r: Name) {
    !DownStranded(stranded, r) && (Live(call) ==> !DisconnectStranded(stranded, r))
  }

  ghost predicate Enabled(c: Config, s: Sys, step: Step) {
    match step
    case Call(t, _, _) => t in s.pcs && s.pcs[t].Idle?
    case GiveUp(t) => t in s.pcs && s.pcs[t].Waiting?
    case Acquire(t) => t in s.pcs && s.pcs[t].Waiting? && s.pcs[t].name !in s.locks
    case Check(t) =>
      t in s.pcs && s.pcs[t].Holding? && s.pcs[t].stage == Locked && Clear(s.stranded, s.pcs[t].call, s.pcs[t].name)
    case Issue(t, cmd) =>
      && t in s.pcs && s.pcs[t].Holding? && Follows(s.pcs[t].call, s.pcs[t].name, s.pcs[t].stage, cmd)
      && !Tripped(c, s)
    case RunLoose(t, _) => t in s.pcs && s.pcs[t].Idle? && !Tripped(c, s)
    case Exit(t, _) => t in s.pcs && (s.pcs[t].Running? || s.pcs[t].Loose?)
    case Strand(t, pid) => t in s.pcs && (s.pcs[t].Running? || s.pcs[t].Loose?) && pid !in s.stranded
    case Release(t) => t in s.pcs && s.pcs[t].Holding?
    case Drain(pid) => pid in s.stranded
    case Latch => true
  }

  function Goto(s: Sys, t: Thread, pc: Pc): Sys {
    s.(pcs := s.pcs[t := pc])
  }

  /** Drops the lock with the call. */
  function Leave(s: Sys, t: Thread, r: Name): Sys {
    Goto(s, t, Idle).(locks := s.locks - {r})
  }

  function Proceed(s: Sys, t: Thread, end: Ending): Sys
    requires t in s.pcs && (s.pcs[t].Running? || s.pcs[t].Loose?)
  {
    match s.pcs[t]
    case Loose(_) => Goto(s, t, Idle)
    case Running(call, r, stage, cmd) =>
      var next := Onward(call, stage, cmd, end);
      if next.Some? then Goto(s, t, Holding(call, r, next.value)) else Leave(s, t, r)
  }

  function DoExit(s: Sys, t: Thread, ok: bool): Sys
    requires t in s.pcs && (s.pcs[t].Running? || s.pcs[t].Loose?)
  {
    Proceed(s, t, if ok then Worked else Erred)
  }

  /** A child outlives its kill: it is recorded before the call sees the failure. */
  function DoStrand(s: Sys, t: Thread, pid: Pid): Sys
    requires t in s.pcs && (s.pcs[t].Running? || s.pcs[t].Loose?)
  {
    Proceed(s.(stranded := s.stranded[pid := s.pcs[t].cmd]), t, Stuck)
  }

  ghost function Apply(c: Config, s: Sys, step: Step): Sys
    requires Enabled(c, s, step)
  {
    match step
    case Call(t, call, r) => Goto(s, t, Waiting(call, r))
    case GiveUp(t) => Goto(s, t, Idle)
    case Acquire(t) =>
      Goto(s, t, Holding(s.pcs[t].call, s.pcs[t].name, Locked)).(locks := s.locks[s.pcs[t].name := t])
    case Check(t) => Goto(s, t, Holding(s.pcs[t].call, s.pcs[t].name, Checked))
    case Issue(t, cmd) => Goto(s, t, Running(s.pcs[t].call, s.pcs[t].name, s.pcs[t].stage, cmd))
    case RunLoose(t, k) => Goto(s, t, Loose(Misc(k)))
    case Exit(t, ok) => DoExit(s, t, ok)
    case Strand(t, pid) => DoStrand(s, t, pid)
    case Release(t) => Leave(s, t, s.pcs[t].name)
    case Drain(pid) => s.(stranded := s.stranded - {pid})
    case Latch => s.(latched := true)
  }

  // ----- the invariant -----

  predicate Owns(pc: Pc) {
    pc.Holding? || pc.Running?
  }

  /** A thread inside a call holds its resource's lock, so calls on one resource exclude
      each other. */
  ghost predicate Locks(pcs: map<Thread, Pc>, locks: map<Name, Thread>) {
    forall t <- pcs :: Owns(pcs[t]) ==> pcs[t].name in locks && locks[pcs[t].name] == t
  }

  /** A running command is one its call allows at its stage. */
  ghost predicate Orderly(pcs: map<Thread, Pc>) {
    forall t <- pcs ::
      && (pcs[t].Running? ==> Follows(pcs[t].call, pcs[t].name, pcs[t].stage, pcs[t].cmd))
      && (pcs[t].Loose? ==> pcs[t].cmd.Misc?)
  }

  /** Past its check a call's resource has no stranded down; one that reconnects peers has
      no stranded drbdsetup disconnect either, unless it is the stalled cycle's own. */
  ghost predicate Past(stranded: map<Pid, Command>, call: Call, r: Name) {
    !DownStranded(stranded, r) && (Live(call) && !call.StalledCycleCall? ==> !DisconnectStranded(stranded, r))
  }

  ghost predicate Cleared(pcs: map<Thread, Pc>, stranded: map<Pid, Command>) {
    forall t <- pcs :: Owns(pcs[t]) && pcs[t].stage != Locked ==> Past(stranded, pcs[t].call, pcs[t].name)
  }

  /** With a limit of one, a command runs over no stranded command of its resource. */
  ghost predicate Alone(c: Config, pcs: map<Thread, Pc>, stranded: map<Pid, Command>) {
    c.limit == 1 ==> forall t <- pcs, p <- stranded ::
      pcs[t].Running? && !stranded[p].Misc? ==> stranded[p].name != pcs[t].name
  }

  ghost predicate OneDown(stranded: map<Pid, Command>) {
    forall p <- stranded, q <- stranded :: stranded[p].Down? && stranded[q] == stranded[p] ==> p == q
  }

  ghost function Active(s: Sys): set<Thread> {
    set t | t in s.pcs && (s.pcs[t].Running? || s.pcs[t].Loose?)
  }

  ghost predicate Bounded(c: Config, s: Sys) {
    c.limit > 0 ==> |s.stranded| + |Active(s)| <= c.limit - 1 + |c.threads|
  }

  ghost predicate Safe(c: Config, s: Sys) {
    && s.pcs.Keys == c.threads && Locks(s.pcs, s.locks) && Orderly(s.pcs) && Cleared(s.pcs, s.stranded)
    && OneDown(s.stranded) && Alone(c, s.pcs, s.stranded)
  }

  ghost predicate Inv(c: Config, s: Sys) {
    Safe(c, s) && Bounded(c, s)
  }

  ghost predicate Initial(c: Config, s: Sys) {
    && s.pcs.Keys == c.threads && (forall t <- s.pcs :: s.pcs[t].Idle?)
    && s.locks == map[] && s.stranded == map[] && !s.latched
  }

  // ----- the bound -----

  lemma ActiveShrinks(s: Sys, t: Thread, pc: Pc)
    requires t in s.pcs && t in Active(s) && !pc.Running? && !pc.Loose?
    ensures Active(Goto(s, t, pc)) == Active(s) - {t} && |Active(Goto(s, t, pc))| == |Active(s)| - 1
  {
  }

  lemma ActiveSame(s: Sys, t: Thread, pc: Pc)
    requires t in s.pcs && t !in Active(s) && !pc.Running? && !pc.Loose?
    ensures Active(Goto(s, t, pc)) == Active(s)
  {
  }

  /** A command starts only below the limit, and every thread runs at most one. */
  lemma BoundedStart(c: Config, s: Sys, t: Thread, pc: Pc)
    requires s.pcs.Keys == c.threads && t in s.pcs && !Tripped(c, s)
    ensures Bounded(c, Goto(s, t, pc))
  {
    SubsetSize(Active(Goto(s, t, pc)), c.threads);
  }

  lemma BoundedStrand(c: Config, s: Sys, t: Thread, pid: Pid)
    requires Inv(c, s) && Enabled(c, s, Strand(t, pid))
    ensures Bounded(c, DoStrand(s, t, pid))
  {
    var u := DoStrand(s, t, pid);
    ActiveShrinks(s, t, u.pcs[t]);
    assert Active(u) == Active(Goto(s, t, u.pcs[t]));
  }

  lemma BoundedDrain(c: Config, s: Sys, pid: Pid)
    requires Bounded(c, s) && pid in s.stranded
    ensures Bounded(c, s.(stranded := s.stranded - {pid}))
  {
    var t := s.(stranded := s.stranded - {pid});
    assert t.stranded.Keys == s.stranded.Keys - {pid};
    assert Active(t) == Active(s);
  }

  lemma BoundedOther(c: Config, s: Sys, step: Step)
    requires Inv(c, s) && Enabled(c, s, step)
    requires step.Call? || step.GiveUp? || step.Acquire? || step.Check? || step.Release? || step.Exit?
    ensures Bounded(c, Apply(c, s, step))
  {
    var u := Apply(c, s, step);
    if step.Exit? {
      ActiveShrinks(s, step.t, u.pcs[step.t]);
    } else {
      ActiveSame(s, step.t, u.pcs[step.t]);
    }
    assert Active(u) == Active(Goto(s, step.t, u.pcs[step.t]));
  }

  lemma BoundedStep(c: Config, s: Sys, step: Step)
    requires Inv(c, s) && Enabled(c, s, step)
    ensures Bounded(c, Apply(c, s, step))
  {
    match step
    case Issue(t, cmd) => BoundedStart(c, s, t, Apply(c, s, step).pcs[t]);
    case RunLoose(t, k) => BoundedStart(c, s, t, Loose(Misc(k)));
    case Strand(t, pid) => BoundedStrand(c, s, t, pid);
    case Drain(pid) => BoundedDrain(c, s, pid);
    case Latch => assert Active(Apply(c, s, step)) == Active(s);
    case _ => BoundedOther(c, s, step);
  }

  // ----- locks and stranded children -----

  lemma InvCalls(c: Config, s: Sys, step: Step)
    requires Inv(c, s) && Enabled(c, s, step)
    requires step.Call? || step.GiveUp? || step.Acquire? || step.Check? || step.Latch?
    ensures Safe(c, Apply(c, s, step))
  {
  }

  lemma InvIssue(c: Config, s: Sys, t: Thread, cmd: Command)
    requires Inv(c, s) && Enabled(c, s, Issue(t, cmd))
    ensures Safe(c, Apply(c, s, Issue(t, cmd)))
  {
    if c.limit == 1 {
      assert s.stranded == map[];
    }
  }

  lemma InvLoose(c: Config, s: Sys, t: Thread, k: nat)
    requires Inv(c, s) && Enabled(c, s, RunLoose(t, k))
    ensures Safe(c, Apply(c, s, RunLoose(t, k)))
  {
  }

  lemma InvRelease(c: Config, s: Sys, t: Thread)
    requires Inv(c, s) && Enabled(c, s, Release(t))
    ensures Safe(c, Apply(c, s, Release(t)))
  {
    LeaveKeeps(s.pcs, s.locks, t);
    OnwardKeeps(c, s.pcs, s.stranded, t, Idle);
  }

  lemma LeaveKeeps(pcs: map<Thread, Pc>, locks: map<Name, Thread>, t: Thread)
    requires t in pcs && Owns(pcs[t]) && Locks(pcs, locks) && Orderly(pcs)
    ensures Locks(pcs[t := Idle], locks - {pcs[t].name}) && Orderly(pcs[t := Idle])
  {
  }

  lemma StayKeeps(pcs: map<Thread, Pc>, locks: map<Name, Thread>, t: Thread, pc: Pc)
    requires t in pcs && Locks(pcs, locks) && Orderly(pcs)
    requires pc.Idle? || (pc.Holding? && Owns(pcs[t]) && pc.name == pcs[t].name)
    ensures Locks(pcs[t := pc], locks) && Orderly(pcs[t := pc])
  {
  }

  /** A call that goes on past its check, or ends, leaves the rest as it was. */
  lemma OnwardKeeps(c: Config, pcs: map<Thread, Pc>, stranded: map<Pid, Command>, t: Thread, pc: Pc)
    requires t in pcs && Cleared(pcs, stranded) && Alone(c, pcs, stranded)
    requires pc.Idle? || (pc.Holding? && pcs[t].Running? && pcs[t].stage != Locked
                          && pc.call == pcs[t].call && pc.name == pcs[t].name)
    ensures Cleared(pcs[t := pc], stranded) && Alone(c, pcs[t := pc], stranded)
  {
  }

  lemma InvExit(c: Config, s: Sys, t: Thread, ok: bool)
    requires Inv(c, s) && Enabled(c, s, Exit(t, ok))
    ensures Safe(c, DoExit(s, t, ok))
  {
    var u := DoExit(s, t, ok);
    assert u.pcs == s.pcs[t := u.pcs[t]] && u.stranded == s.stranded;
    OnwardKeeps(c, s.pcs, s.stranded, t, u.pcs[t]);
    if s.pcs[t].Running? && u.pcs[t].Idle? {
      LeaveKeeps(s.pcs, s.locks, t);
    } else {
      StayKeeps(s.pcs, s.locks, t, u.pcs[t]);
    }
  }

  lemma InvDrain(c: Config, s: Sys, pid: Pid)
    requires Inv(c, s) && pid in s.stranded
    ensures Safe(c, s.(stranded := s.stranded - {pid}))
  {
    var t := s.(stranded := s.stranded - {pid});
    forall x | x in t.pcs && Owns(t.pcs[x]) && t.pcs[x].stage != Locked
      ensures Past(t.stranded, t.pcs[x].call, t.pcs[x].name)
    {
      assert Past(s.stranded, s.pcs[x].call, s.pcs[x].name);
    }
  }

  /** Only the lock's holder strands a command on a resource, and it leaves the call. */
  lemma InvStrand(c: Config, s: Sys, t: Thread, pid: Pid)
    requires Inv(c, s) && Enabled(c, s, Strand(t, pid))
    ensures Safe(c, DoStrand(s, t, pid))
  {
    StrandLocks(c, s, t, pid);
    StrandCleared(c, s, t, pid);
    StrandOneDown(c, s, t, pid);
    StrandAlone(c, s, t, pid);
  }

  lemma StrandLocks(c: Config, s: Sys, t: Thread, pid: Pid)
    requires Inv(c, s) && Enabled(c, s, Strand(t, pid))
    ensures var u := DoStrand(s, t, pid); u.pcs.Keys == s.pcs.Keys && Locks(u.pcs, u.locks) && Orderly(u.pcs)
  {
    var u := DoStrand(s, t, pid);
    if s.pcs[t].Running? && u.pcs[t].Idle? {
      LeaveKeeps(s.pcs, s.locks, t);
    } else {
      StayKeeps(s.pcs, s.locks, t, u.pcs[t]);
    }
  }

  /** A child that is none of those a call looked for leaves the call past its check. */
  lemma PastGrows(stranded: map<Pid, Command>, pid: Pid, cmd: Command, call: Call, r: Name)
    requires Past(stranded, call, r) && cmd != Down(r)
    requires Live(call) && !call.StalledCycleCall? && cmd.Disconnect? ==> cmd.name != r
    ensures Past(stranded[pid := cmd], call, r)
  {
  }

  lemma OwnChildPast(call: Call, r: Name, stage: Stage, cmd: Command)
    requires Follows(call, r, stage, cmd) && Onward(call, stage, cmd, Stuck).Some?
    ensures cmd != Down(r) && (Live(call) && !call.StalledCycleCall? && cmd.Disconnect? ==> cmd.name != r)
  {
  }

  lemma OtherChild(s: Sys, t: Thread, x: Thread)
    requires Locks(s.pcs, s.locks) && Orderly(s.pcs)
    requires t in s.pcs && x in s.pcs && t != x && s.pcs[t].Running? && Owns(s.pcs[x])
    ensures !s.pcs[t].cmd.Misc? && s.pcs[t].cmd.name != s.pcs[x].name
  {
    assert s.pcs[t].name != s.pcs[x].name;
    assert Follows(s.pcs[t].call, s.pcs[t].name, s.pcs[t].stage, s.pcs[t].cmd);
  }

  /** What a call looked past is not what it or another strands. */
  lemma StrandPast(c: Config, s: Sys, t: Thread, pid: Pid, x: Thread)
    requires Safe(c, s) && Enabled(c, s, Strand(t, pid))
    requires var u := DoStrand(s, t, pid); x in u.pcs && Owns(u.pcs[x]) && u.pcs[x].stage != Locked
    ensures var u := DoStrand(s, t, pid); Past(u.stranded, u.pcs[x].call, u.pcs[x].name)
  {
    var u, pc := DoStrand(s, t, pid), s.pcs[t];
    assert Past(s.stranded, s.pcs[x].call, s.pcs[x].name);
    if x == t {
      OwnChildPast(pc.call, pc.name, pc.stage, pc.cmd);
    } else if pc.Running? {
      OtherChild(s, t, x);
    }
    PastGrows(s.stranded, pid, pc.cmd, s.pcs[x].call, s.pcs[x].name);
  }

  lemma StrandCleared(c: Config, s: Sys, t: Thread, pid: Pid)
    requires Inv(c, s) && Enabled(c, s, Strand(t, pid))
    ensures Cleared(DoStrand(s, t, pid).pcs, DoStrand(s, t, pid).stranded)
  {
    var u := DoStrand(s, t, pid);
    forall x | x in u.pcs && Owns(u.pcs[x]) && u.pcs[x].stage != Locked
      ensures Past(u.stranded, u.pcs[x].call, u.pcs[x].name)
    {
      StrandPast(c, s, t, pid, x);
    }
  }

  lemma StrandOneDown(c: Config, s: Sys, t: Thread, pid: Pid)
    requires Inv(c, s) && Enabled(c, s, Strand(t, pid))
    ensures OneDown(DoStrand(s, t, pid).stranded)
  {
    if s.pcs[t].cmd.Down? {
      assert Past(s.stranded, s.pcs[t].call, s.pcs[t].name);
    }
  }

  lemma StrandAlone(c: Config, s: Sys, t: Thread, pid: Pid)
    requires Inv(c, s) && Enabled(c, s, Strand(t, pid))
    ensures Alone(c, DoStrand(s, t, pid).pcs, DoStrand(s, t, pid).stranded)
  {
    var u := DoStrand(s, t, pid);
    forall x, p | c.limit == 1 && x in u.pcs && p in u.stranded && u.pcs[x].Running? && !u.stranded[p].Misc?
      ensures u.stranded[p].name != u.pcs[x].name
    {
      assert x != t && s.pcs[x] == u.pcs[x];
      if p == pid {
        OtherChild(s, t, x);
      }
    }
  }

  lemma InvStep(c: Config, s: Sys, step: Step)
    requires Inv(c, s) && Enabled(c, s, step)
    ensures Inv(c, Apply(c, s, step))
  {
    BoundedStep(c, s, step);
    match step
    case Strand(t, pid) => InvStrand(c, s, t, pid);
    case Drain(pid) => InvDrain(c, s, pid);
    case Exit(t, ok) => InvExit(c, s, t, ok);
    case Issue(t, cmd) => InvIssue(c, s, t, cmd);
    case RunLoose(t, k) => InvLoose(c, s, t, k);
    case Release(t) => InvRelease(c, s, t);
    case _ => InvCalls(c, s, step);
  }

  ghost predicate Legal(c: Config, s: Sys, steps: seq<Step>)
    decreases |steps|, 0
  {
    steps == [] ||
    (var before := steps[..|steps| - 1];
     Legal(c, s, before) && Enabled(c, After(c, s, before), steps[|steps| - 1]))
  }

  ghost function After(c: Config, s: Sys, steps: seq<Step>): Sys
    requires Legal(c, s, steps)
    decreases |steps|, 1
  {
    if steps == [] then s else Apply(c, After(c, s, steps[..|steps| - 1]), steps[|steps| - 1])
  }

  lemma {:induction false} InvRun(c: Config, s: Sys, steps: seq<Step>)
    requires Initial(c, s) && Legal(c, s, steps)
    ensures Inv(c, After(c, s, steps))
    decreases |steps|
  {
    if steps == [] {
      assert Active(s) == {};
    } else {
      InvRun(c, s, steps[..|steps| - 1]);
      InvStep(c, After(c, s, steps[..|steps| - 1]), steps[|steps| - 1]);
    }
  }

  // ----- main results -----

  /** Teardown isolation: while an adjust, connect or up runs on a resource, no other call
      is inside any sequence on it, so none stands between its disconnects and its down,
      and no down of it is stranded. */
  lemma TeardownIsolation(c: Config, s: Sys, steps: seq<Step>, t: Thread, u: Thread)
    requires Initial(c, s) && Legal(c, s, steps)
    requires var x := After(c, s, steps);
      t in x.pcs && u in x.pcs && t != u && x.pcs[t].Running? && Connecting(x.pcs[t].cmd)
    ensures var x := After(c, s, steps);
      && x.pcs[t].cmd.name == x.pcs[t].name
      && !(Owns(x.pcs[u]) && x.pcs[u].name == x.pcs[t].name)
      && !DownStranded(x.stranded, x.pcs[t].name)
  {
    InvRun(c, s, steps);
  }

  /** At most one down per resource is ever stranded. */
  lemma OneStrandedDown(c: Config, s: Sys, steps: seq<Step>, p: Pid, q: Pid)
    requires Initial(c, s) && Legal(c, s, steps)
    requires var x := After(c, s, steps);
      p in x.stranded && q in x.stranded && x.stranded[p].Down? && x.stranded[q] == x.stranded[p]
    ensures p == q
  {
    InvRun(c, s, steps);
  }

  /** The stranded children of a node never exceed the limit minus one plus its callers. */
  lemma StrandedBound(c: Config, s: Sys, steps: seq<Step>)
    requires Initial(c, s) && Legal(c, s, steps) && c.limit > 0
    ensures |After(c, s, steps).stranded| <= c.limit - 1 + |c.threads|
  {
    InvRun(c, s, steps);
  }

  // ----- stranded disconnects -----

  ghost predicate Reaches(c: Config, s: Sys, t: Sys) {
    Initial(c, s) && exists steps :: Legal(c, s, steps) && After(c, s, steps) == t
  }

  lemma Advance(c: Config, s: Sys, t: Sys, step: Step) returns (u: Sys)
    requires Reaches(c, s, t) && Enabled(c, t, step)
    ensures u == Apply(c, t, step) && Reaches(c, s, u)
  {
    var steps :| Legal(c, s, steps) && After(c, s, steps) == t;
    assert (steps + [step])[..|steps|] == steps;
    assert Legal(c, s, steps + [step]) && After(c, s, steps + [step]) == Apply(c, t, step);
    u := Apply(c, t, step);
  }

  /** The two commands that disconnect: drbdsetup's, of one peer, and drbdadm's, of all. */
  datatype Tool = Setup | Adm

  predicate DisconnectBy(cmd: Command, tool: Tool, r: Name) {
    if tool.Setup? then cmd.Disconnect? && cmd.name == r else cmd == AdmDisconnect(r)
  }

  /** A call connects a resource over a disconnect of it that is stuck in the kernel. */
  ghost predicate Over(s: Sys, call: Call, tool: Tool) {
    exists t, p | t in s.pcs && p in s.stranded ::
      && s.pcs[t].Running? && s.pcs[t].call == call && Connecting(s.pcs[t].cmd)
      && DisconnectBy(s.stranded[p], tool, s.pcs[t].name)
  }

  ghost predicate Happens(c: Config, call: Call, tool: Tool) {
    exists s, t :: Reaches(c, s, t) && Over(t, call, tool)
  }

  /** The check looks for drbdsetup's disconnects only; a restart does not look for them, and
      the stalled cycle goes on past its own. */
  predicate Overlooks(call: Call, tool: Tool) {
    match call
    case DownCall => false
    case DetachCall => false
    case RestartCall => true
    case StalledCycleCall => true
    case _ => tool.Adm?
  }

  lemma OverOnlyIf(c: Config, s: Sys, t: Sys, call: Call, tool: Tool)
    requires Reaches(c, s, t) && Over(t, call, tool)
    ensures Overlooks(call, tool) && c.limit != 1 && c.threads != {}
  {
    var steps :| Legal(c, s, steps) && After(c, s, steps) == t;
    InvRun(c, s, steps);
    var x, p :| x in t.pcs && p in t.stranded && t.pcs[x].Running? && t.pcs[x].call == call && Connecting(t.pcs[x].cmd)
      && DisconnectBy(t.stranded[p], tool, t.pcs[x].name);
    OverStuck(c, t, x, p, tool);
  }

  lemma OverStuck(c: Config, t: Sys, x: Thread, p: Pid, tool: Tool)
    requires Safe(c, t) && x in t.pcs && p in t.stranded && t.pcs[x].Running? && Connecting(t.pcs[x].cmd)
    requires DisconnectBy(t.stranded[p], tool, t.pcs[x].name)
    ensures Overlooks(t.pcs[x].call, tool) && c.limit != 1 && x in c.threads
  {
    var call, r, stage, cmd := t.pcs[x].call, t.pcs[x].name, t.pcs[x].stage, t.pcs[x].cmd;
    assert Follows(call, r, stage, cmd) && stage != Locked;
    assert Past(t.stranded, call, r);
  }

  /** Enters a call and passes its check. */
  lemma Inside(c: Config, s: Sys, t: Sys, x: Thread, call: Call) returns (u: Sys)
    requires Reaches(c, s, t) && x in t.pcs && t.pcs[x] == Idle && 5 !in t.locks && Clear(t.stranded, call, 5)
    ensures Reaches(c, s, u) && x in u.pcs && u.pcs[x] == Holding(call, 5, Checked)
    ensures u.stranded == t.stranded && u.latched == t.latched && u.locks == t.locks[5 := x]
  {
    u := Advance(c, s, t, Call(x, call, 5));
    u := Advance(c, s, u, Acquire(x));
    u := Advance(c, s, u, Check(x));
  }

  /** One child stuck on resource 5, and the breaker still closed. */
  predicate OneStuck(c: Config, s: Sys, x: Thread, cmd: Command) {
    c.limit != 1 && s.stranded == map[7 := cmd] && !s.latched && x in s.pcs
  }

  /** Runs a command of a call to the ending given. */
  lemma Runs(
    c: Config, s: Sys, t: Sys, x: Thread, call: Call, stage: Stage, cmd: Command, stuck: Command)
    returns (u: Sys)
    requires Reaches(c, s, t) && OneStuck(c, t, x, stuck) && t.pcs[x] == Holding(call, 5, stage)
    requires Follows(call, 5, stage, cmd)
    ensures Reaches(c, s, u) && OneStuck(c, u, x, stuck) && u.pcs[x] == Running(call, 5, stage, cmd)
    ensures u.locks == t.locks
  {
    u := Advance(c, s, t, Issue(x, cmd));
  }

  lemma Succeeds(
    c: Config, s: Sys, t: Sys, x: Thread, call: Call, stage: Stage, cmd: Command, stuck: Command, next: Stage)
    returns (u: Sys)
    requires Reaches(c, s, t) && OneStuck(c, t, x, stuck) && t.pcs[x] == Holding(call, 5, stage)
    requires Follows(call, 5, stage, cmd) && Onward(call, stage, cmd, Worked) == Some(next)
    ensures Reaches(c, s, u) && OneStuck(c, u, x, stuck) && u.pcs[x] == Holding(call, 5, next)
  {
    u := Runs(c, s, t, x, call, stage, cmd, stuck);
    u := Advance(c, s, u, Exit(x, true));
  }

  /** The first command of a call strands. */
  lemma Strands(c: Config, s: Sys, x: Thread, call: Call, cmd: Command) returns (t: Sys)
    requires Initial(c, s) && x in s.pcs && c.limit != 1 && Follows(call, 5, Checked, cmd)
    ensures Reaches(c, s, t) && OneStuck(c, t, x, cmd)
    ensures var next := Onward(call, Checked, cmd, Stuck);
      if next.Some? then t.pcs[x] == Holding(call, 5, next.value) && t.locks == map[5 := x]
      else t.pcs[x] == Idle && 5 !in t.locks
  {
    assert Legal(c, s, []) && After(c, s, []) == s;
    t := Inside(c, s, s, x, call);
    t := Advance(c, s, t, Issue(x, cmd));
    t := Advance(c, s, t, Strand(x, 7));
  }

  lemma IsOver(t: Sys, x: Thread, call: Call, stuck: Command, tool: Tool)
    requires x in t.pcs && t.pcs[x].Running? && t.pcs[x].call == call && t.pcs[x].name == 5 && Connecting(t.pcs[x].cmd)
    requires t.stranded == map[7 := stuck] && DisconnectBy(stuck, tool, 5)
    ensures Over(t, call, tool)
  {
    assert t.stranded[7] == stuck;
  }

  /** Past its check, every call that reconnects comes to its connect. */
  lemma Reconnects(c: Config, s: Sys, t: Sys, x: Thread, call: Call, stuck: Command, tool: Tool)
    requires Reaches(c, s, t) && OneStuck(c, t, x, stuck) && t.pcs[x] == Holding(call, 5, Checked)
    requires !call.DownCall? && !call.DetachCall? && DisconnectBy(stuck, tool, 5)
    ensures Happens(c, call, tool)
  {
    var u := t;
    match call {
      case ApplyCall => u := Runs(c, s, u, x, call, Checked, Adjust(5), stuck);
      case RestartCall =>
        u := Succeeds(c, s, u, x, call, Checked, Down(5), stuck, Downed);
        u := Runs(c, s, u, x, call, Downed, Up(5), stuck);
      case ResolveCall =>
        u := Succeeds(c, s, u, x, call, Checked, AdmDisconnect(5), stuck, Severed);
        u := Runs(c, s, u, x, call, Severed, Connect(5), stuck);
      case CycleCall =>
        u := Succeeds(c, s, u, x, call, Checked, Disconnect(5, 1), stuck, Severed);
        u := Runs(c, s, u, x, call, Severed, Connect(5), stuck);
      case StalledCycleCall =>
        u := Succeeds(c, s, u, x, call, Checked, Disconnect(5, 1), stuck, Severed);
        u := Runs(c, s, u, x, call, Severed, Connect(5), stuck);
    }
    IsOver(u, x, call, stuck, tool);
  }

  /** The recovery's drbdadm disconnect is stuck, and any call that connects comes next. */
  lemma OverAdm(c: Config, s: Sys, x: Thread, call: Call)
    requires Initial(c, s) && x in s.pcs && c.limit != 1 && !call.DownCall? && !call.DetachCall?
    ensures Happens(c, call, Adm)
  {
    var t := Strands(c, s, x, ResolveCall, AdmDisconnect(5));
    t := Advance(c, s, t, Release(x));
    t := Inside(c, s, t, x, call);
    Reconnects(c, s, t, x, call, AdmDisconnect(5), Adm);
  }

  /** A teardown's disconnect is stuck, and a restart comes next. */
  lemma RestartMeetsStrandedDisconnect(c: Config, s: Sys, x: Thread)
    requires Initial(c, s) && x in s.pcs && c.limit != 1
    ensures Happens(c, RestartCall, Setup)
  {
    var t := Strands(c, s, x, DownCall, Disconnect(5, 1));
    t := Inside(c, s, t, x, RestartCall);
    Reconnects(c, s, t, x, RestartCall, Disconnect(5, 1), Setup);
  }

  /** The stalled cycle's own disconnect is stuck; it forces another and connects. */
  lemma StalledCycleConnectsOverItsOwn(c: Config, s: Sys, x: Thread)
    requires Initial(c, s) && x in s.pcs && c.limit != 1
    ensures Happens(c, StalledCycleCall, Setup)
  {
    var stuck := Disconnect(5, 1);
    var t := Strands(c, s, x, StalledCycleCall, stuck);
    t := Succeeds(c, s, t, x, StalledCycleCall, Severing, stuck, stuck, Severed);
    t := Runs(c, s, t, x, StalledCycleCall, Severed, Connect(5), stuck);
    IsOver(t, x, StalledCycleCall, stuck, Setup);
  }

  /** A call can connect a resource over a stranded disconnect of it exactly when it
      overlooks that kind of disconnect, and one stuck child does not open the breaker. */
  lemma OverDisconnectExactly(c: Config, call: Call, tool: Tool)
    ensures Happens(c, call, tool) <==> Overlooks(call, tool) && c.limit != 1 && c.threads != {}
  {
    if Happens(c, call, tool) {
      var s, t :| Reaches(c, s, t) && Over(t, call, tool);
      OverOnlyIf(c, s, t, call, tool);
    }
    if Overlooks(call, tool) && c.limit != 1 && c.threads != {} {
      var s := Sys(map t | t in c.threads :: Idle, map[], map[], false);
      var x :| x in c.threads;
      if tool.Adm? {
        OverAdm(c, s, x, call);
      } else if call.RestartCall? {
        RestartMeetsStrandedDisconnect(c, s, x);
      } else {
        StalledCycleConnectsOverItsOwn(c, s, x);
      }
    }
  }

  // ----- the bound is met -----

  /** So many children are stuck, with the first pids; the breaker is not latched. */
  ghost predicate StuckFirst(s: Sys, k: nat) {
    |s.stranded| == k && (forall p <- s.stranded :: p < k) && !s.latched
  }

  /** One caller runs a command of no resource, and its child strands. */
  lemma LooseStrands(c: Config, s: Sys, t: Sys, x: Thread, k: nat) returns (u: Sys)
    requires Reaches(c, s, t) && StuckFirst(t, k) && x in t.pcs && t.pcs[x] == Loose(Misc(0))
    ensures Reaches(c, s, u) && StuckFirst(u, k + 1) && u.pcs == t.pcs[x := Idle]
  {
    u := Advance(c, s, t, Strand(x, k));
  }

  lemma LooseStarts(c: Config, s: Sys, t: Sys, x: Thread, k: nat) returns (u: Sys)
    requires Reaches(c, s, t) && StuckFirst(t, k) && k < c.limit && x in t.pcs && t.pcs[x].Idle?
    ensures Reaches(c, s, u) && u == t.(pcs := t.pcs[x := Loose(Misc(0))])
  {
    u := Advance(c, s, t, RunLoose(x, 0));
  }

  /** One caller after another command strands, up to one short of the limit. */
  lemma {:induction false} StrandOneByOne(c: Config, s: Sys, x: Thread, k: nat) returns (t: Sys)
    requires Initial(c, s) && x in c.threads && k < c.limit
    ensures Reaches(c, s, t) && StuckFirst(t, k) && t.pcs == s.pcs
  {
    if k == 0 {
      assert Legal(c, s, []) && After(c, s, []) == s;
      t := s;
    } else {
      var before := StrandOneByOne(c, s, x, k - 1);
      var u := LooseStarts(c, s, before, x, k - 1);
      t := LooseStrands(c, s, u, x, k - 1);
      assert t.pcs == s.pcs;
    }
  }

  /** Who is running a loose command, and who is idle. */
  ghost predicate Starters(c: Config, s: Sys, running: set<Thread>) {
    && s.pcs.Keys == c.threads && running <= c.threads
    && forall x <- c.threads :: s.pcs[x] == if x in running then Loose(Misc(0)) else Idle
  }

  /** Below the limit, every caller starts a command. */
  lemma {:induction false} StartAll(c: Config, s: Sys, t: Sys, k: nat, rest: set<Thread>) returns (u: Sys)
    requires Reaches(c, s, t) && StuckFirst(t, k) && k < c.limit
    requires rest <= c.threads && Starters(c, t, c.threads - rest)
    ensures Reaches(c, s, u) && StuckFirst(u, k) && Starters(c, u, c.threads)
    decreases |rest|
  {
    if rest == {} {
      u := t;
    } else {
      var x :| x in rest;
      var w := LooseStarts(c, s, t, x, k);
      u := StartAll(c, s, w, k, rest - {x});
    }
  }

  /** All of them strand. */
  lemma {:induction false} StrandAll(c: Config, s: Sys, t: Sys, k: nat, running: set<Thread>) returns (u: Sys)
    requires Reaches(c, s, t) && StuckFirst(t, k) && Starters(c, t, running)
    ensures Reaches(c, s, u) && StuckFirst(u, k + |running|)
    decreases |running|
  {
    if running == {} {
      u := t;
    } else {
      var x :| x in running;
      var w := LooseStrands(c, s, t, x, k);
      u := StrandAll(c, s, w, k + 1, running - {x});
    }
  }

  /** For every limit and every number of callers the bound is met: one short of the limit
      strands first, then every caller starts and strands. */
  lemma StrandedBoundIsMet(c: Config)
    requires c.limit > 0 && c.threads != {}
    ensures exists s, t :: Reaches(c, s, t) && |t.stranded| == c.limit - 1 + |c.threads|
  {
    var s := Sys(map t | t in c.threads :: Idle, map[], map[], false);
    var x :| x in c.threads;
    var t := StrandOneByOne(c, s, x, c.limit - 1);
    t := StartAll(c, s, t, c.limit - 1, c.threads);
    t := StrandAll(c, s, t, c.limit - 1, c.threads);
  }
}
