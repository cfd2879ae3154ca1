/** Online verify and the stale-bitmap self-heal: the scheduler's status writes, the kernel
    and the healer, interleaved, with the scheduler dying at any point.

    Bits a verify sets look to the kernel like bits a lost resync left behind.  Only the
    coordinator's status slot tells them apart: a marker from before the kick until the
    result is recorded, then the result. */
module VerifyGuard {

  /** The verify fields of the coordinator's slot: a verify was started and not yet
      recorded; the last recorded one found something. */
  datatype Slot = Slot(started: bool, found: bool)

  /** The three slots a pass writes, given the one it read: with the marker added, with only
      the marker dropped, with the result. */
  function MarkedSlot(read: Slot): Slot {
    read.(started := true)
  }

  function CarriedSlot(read: Slot): Slot {
    read.(started := false)
  }

  function ResultSlot(found: bool): Slot {
    Slot(false, found)
  }

  /** Where a pass of the scheduler stands; `read` is the slot it read at its start. */
  datatype Pass =
    | Idle
    | Marked(read: Slot)
    | Unmarking(read: Slot)
    | Polling(read: Slot)
    | Interrupted(read: Slot)
    | Counted(found: bool)

  datatype Sys = Sys(
    connected: bool,
    verifying: bool,
    findings: bool,           // verify findings in the bitmap, not resynced since
    slot: Slot,
    past: set<Slot>,          // every slot written so far
    pass: Pass)

  /** Departures: a kick that fails arms the kernel all the same, a reconnect leaves the
      bits, the healer or the scheduler acts on an outdated slot. */
  datatype Env = Env(failedKickArms: bool, reconnectKeeps: bool, healerStale: bool, schedulerStale: bool)

  predicate Strict(e: Env) {
    !e.failedKickArms && !e.reconnectKeeps && !e.healerStale && !e.schedulerStale
  }

  datatype Step =
    | Disconnect
    | Reconnect(keeps: bool)
    | FindBits
    | VerifyEnds
    | Start(read: Slot)
    | Kick(ok: bool, arms: bool)
    | Unmark
    | PollRead(otherBits: bool)
    | DropMarker
    | Record
    | Stop
    | SelfHeal(read: Slot)

  predicate Readable(s: Sys, read: Slot, stale: bool) {
    read == s.slot || (stale && read in s.past)
  }

  ghost predicate Enabled(e: Env, s: Sys, step: Step) {
    match step
    case Disconnect => true
    case Reconnect(keeps) => !s.connected && (keeps ==> e.reconnectKeeps)
    case FindBits => s.verifying && s.connected
    case VerifyEnds => s.verifying
    case Start(read) => s.pass.Idle? && s.connected && !s.verifying && Readable(s, read, e.schedulerStale)
    case Kick(ok, arms) => s.pass.Marked? && (ok ==> s.connected) && (arms ==> s.connected && (ok || e.failedKickArms))
    case Unmark => s.pass.Unmarking?
    case PollRead(_) => s.pass.Polling? && !s.verifying
    case DropMarker => s.pass.Interrupted?
    case Record => s.pass.Counted?
    case Stop => true
    case SelfHeal(read) =>
      s.connected && !s.verifying && Readable(s, read, e.healerStale) && !read.started && !read.found
  }

  function Write(s: Sys, slot: Slot, pass: Pass): Sys {
    s.(slot := slot, past := s.past + {slot}, pass := pass)
  }

  ghost function Apply(e: Env, s: Sys, step: Step): Sys
    requires Enabled(e, s, step)
  {
    match step
    case Disconnect => s.(connected := false, verifying := false)
    case Reconnect(keeps) => s.(connected := true, findings := s.findings && keeps)
    case FindBits => s.(findings := true)
    case VerifyEnds => s.(verifying := false)
    case Start(read) => if read.started then s.(pass := Marked(read)) else Write(s, MarkedSlot(read), Marked(read))
    case Kick(ok, arms) =>
      if ok then s.(verifying := true, pass := Polling(s.pass.read))
      else s.(verifying := s.verifying || arms, pass := if s.pass.read.started then Idle else Unmarking(s.pass.read))
    case Unmark => Write(s, CarriedSlot(s.pass.read), Idle)
    case PollRead(otherBits) =>
      s.(pass := if s.connected then Counted(s.findings || otherBits) else Interrupted(s.pass.read))
    case DropMarker => Write(s, CarriedSlot(s.pass.read), Idle)
    case Record => Write(s, ResultSlot(s.pass.found), Idle)
    case Stop => s.(pass := Idle)
    case SelfHeal(_) => s.(findings := false)
  }

  // ----- the invariant -----

  /** Unhealed findings on a connected pair are accounted for in the slot. */
  ghost predicate Accounted(s: Sys) {
    s.findings && s.connected ==> s.slot.started || s.slot.found
  }

  ghost predicate PassSafe(s: Sys) {
    match s.pass
    case Idle => true
    case Marked(read) => s.slot.started && !s.verifying && (!read.started && s.findings && s.connected ==> read.found)
    case Unmarking(read) => s.slot.started && !s.verifying && (s.findings && s.connected ==> read.found)
    case Polling(_) => s.slot.started
    case Interrupted(_) => s.slot.started && !s.verifying && (s.connected ==> !s.findings)
    case Counted(found) => s.slot.started && !s.verifying && (s.findings ==> found)
  }

  ghost predicate Inv(s: Sys) {
    Accounted(s) && (s.verifying ==> s.slot.started) && PassSafe(s)
  }

  ghost predicate Initial(s: Sys) {
    !s.verifying && !s.findings && s.slot == Slot(false, false) && s.past == {s.slot} && s.pass == Idle
  }

  lemma InvStep(e: Env, s: Sys, step: Step)
    requires Strict(e) && Inv(s) && Enabled(e, s, step)
    ensures Inv(Apply(e, s, step))
  {
  }

  ghost predicate Legal(e: Env, s: Sys, steps: seq<Step>)
    decreases |steps|, 0
  {
    steps == [] ||
    (var before := steps[..|steps| - 1];
     Legal(e, s, before) && Enabled(e, After(e, s, before), steps[|steps| - 1]))
  }

  ghost function After(e: Env, s: Sys, steps: seq<Step>): Sys
    requires Legal(e, s, steps)
    decreases |steps|, 1
  {
    if steps == [] then s else Apply(e, After(e, s, steps[..|steps| - 1]), steps[|steps| - 1])
  }

  lemma {:induction false} InvRun(e: Env, s: Sys, steps: seq<Step>)
    requires Strict(e) && Initial(s) && Legal(e, s, steps)
    ensures Inv(After(e, s, steps))
    decreases |steps|
  {
    if steps != [] {
      InvRun(e, s, steps[..|steps| - 1]);
      InvStep(e, After(e, s, steps[..|steps| - 1]), steps[|steps| - 1]);
    }
  }

  // ----- main results -----

  /** Findings are accounted for in every run. */
  lemma FindingsAccounted(e: Env, s: Sys, steps: seq<Step>)
    requires Strict(e) && Initial(s) && Legal(e, s, steps)
    ensures Accounted(After(e, s, steps))
  {
    InvRun(e, s, steps);
  }

  /** The self-heal never cycles a connection that carries a finding. */
  ghost predicate NeverHealsAFinding(e: Env) {
    forall s, steps, read | Initial(s) && Legal(e, s, steps) && Enabled(e, After(e, s, steps), SelfHeal(read)) ::
      !After(e, s, steps).findings
  }

  ghost predicate Reaches(e: Env, t: Sys) {
    exists s, steps :: Initial(s) && Legal(e, s, steps) && After(e, s, steps) == t
  }

  lemma Advance(e: Env, s: Sys, step: Step) returns (t: Sys)
    requires Reaches(e, s) && Enabled(e, s, step)
    ensures t == Apply(e, s, step) && Reaches(e, t)
  {
    t := Apply(e, s, step);
    var s0, steps :| Initial(s0) && Legal(e, s0, steps) && After(e, s0, steps) == s;
    assert (steps + [step])[..|steps|] == steps;
    assert Legal(e, s0, steps + [step]) && After(e, s0, steps + [step]) == t;
  }

  lemma Healed(e: Env, s: Sys, read: Slot)
    requires Reaches(e, s) && Enabled(e, s, SelfHeal(read)) && s.findings
    ensures !NeverHealsAFinding(e)
  {
  }

  /** A connected, clean pair; then its scheduler's marker. */
  lemma MarkedState(e: Env) returns (s: Sys)
    ensures Reaches(e, s) && s.connected && !s.verifying && !s.findings
    ensures s.slot == Slot(true, false) && s.slot in s.past && Slot(false, false) in s.past
    ensures s.pass == Marked(Slot(false, false))
  {
    var s0 := Sys(true, false, false, Slot(false, false), {Slot(false, false)}, Idle);
    assert Initial(s0) && Legal(e, s0, []) && After(e, s0, []) == s0;
    s := Advance(e, s0, Start(Slot(false, false)));
  }

  /** The verify has run and found something, and the scheduler is polling. */
  lemma FoundState(e: Env) returns (s: Sys)
    ensures Reaches(e, s) && s.connected && !s.verifying && s.findings
    ensures s.slot == Slot(true, false) && Slot(false, false) in s.past && s.pass == Polling(Slot(false, false))
  {
    s := MarkedState(e);
    s := Advance(e, s, Kick(true, true));
    s := Advance(e, s, FindBits);
    s := Advance(e, s, VerifyEnds);
  }

  lemma StaleHealerHeals(e: Env)
    requires e.healerStale
    ensures !NeverHealsAFinding(e)
  {
    var s := FoundState(e);
    Healed(e, s, Slot(false, false));
  }

  /** A kick reported failed that still runs: the marker is withdrawn under it. */
  lemma ArmedKickHealed(e: Env)
    requires e.failedKickArms
    ensures !NeverHealsAFinding(e)
  {
    var s := MarkedState(e);
    s := Advance(e, s, Kick(false, true));
    s := Advance(e, s, Unmark);
    s := Advance(e, s, FindBits);
    s := Advance(e, s, VerifyEnds);
    Healed(e, s, Slot(false, false));
  }

  /** Findings that outlive the disconnect that interrupted their pass. */
  lemma KeptBitsHealed(e: Env)
    requires e.reconnectKeeps
    ensures !NeverHealsAFinding(e)
  {
    var s := FoundState(e);
    s := Advance(e, s, Disconnect);
    s := Advance(e, s, PollRead(false));
    s := Advance(e, s, DropMarker);
    s := Advance(e, s, Reconnect(true));
    Healed(e, s, Slot(false, false));
  }

  /** A marker the scheduler still reads but has already removed: it kicks unguarded. */
  lemma StaleSchedulerHealed(e: Env)
    requires e.schedulerStale
    ensures !NeverHealsAFinding(e)
  {
    var s := MarkedState(e);
    s := Advance(e, s, Kick(false, false));
    s := Advance(e, s, Unmark);
    s := Advance(e, s, Start(Slot(true, false)));
    s := Advance(e, s, Kick(true, true));
    s := Advance(e, s, FindBits);
    s := Advance(e, s, VerifyEnds);
    Healed(e, s, Slot(false, false));
  }

  /** The guard holds in every run exactly when none of the four departures is possible. */
  lemma VerifyGuardExactly(e: Env)
    ensures NeverHealsAFinding(e) <==> Strict(e)
  {
    if Strict(e) {
      forall s, steps, read | Initial(s) && Legal(e, s, steps) && Enabled(e, After(e, s, steps), SelfHeal(read))
        ensures !After(e, s, steps).findings
      {
        FindingsAccounted(e, s, steps);
      }
    } else if e.healerStale {
      StaleHealerHeals(e);
    } else if e.failedKickArms {
      ArmedKickHealed(e);
    } else if e.reconnectKeeps {
      KeptBitsHealed(e);
    } else {
      StaleSchedulerHealed(e);
    }
  }

  // ----- one pass of the scheduler, as it runs -----

  /** What one poll of the kernel finds. */
  datatype Poll = StillVerifying | PairBroken | Finished(outOfSyncBytes: nat) | PollStops

  ghost predicate FirstEnd(polls: seq<Poll>, k: nat) {
    k < |polls| && !polls[k].StillVerifying? && forall j | 0 <= j < k :: polls[j].StillVerifying?
  }

  class Scheduler {
    var slot: Slot

    constructor (slot: Slot)
      ensures this.slot == slot
    {
      this.slot := slot;
    }

    /** A pass over a volume that is fit to verify.  `clearOk` says whether withdrawing the
        marker succeeds; running out of polls is a shutdown mid-pass.  The slot ends clean of
        the marker only with a result on it, or with the record it had when the kick failed
        or the pair broke; an earlier run's marker is never withdrawn on a failed kick. */
    method VerifyVolume(fit: bool, kickOk: bool, clearOk: bool, polls: seq<Poll>)
      modifies this
      ensures !fit ==> slot == old(slot)
      ensures fit && !kickOk ==>
        slot == (if old(slot).started then old(slot)
                 else if clearOk then CarriedSlot(old(slot)) else MarkedSlot(old(slot)))
      ensures fit && kickOk ==> forall k: nat | FirstEnd(polls, k) ::
        slot == match polls[k]
                case Finished(n) => ResultSlot(n > 0)
                case PairBroken => CarriedSlot(old(slot))
                case _ => MarkedSlot(old(slot))
      ensures fit && kickOk && (forall p <- polls :: p.StillVerifying?) ==> slot == MarkedSlot(old(slot))
    {
      if !fit {
        return;
      }
      var read := slot;
      if !read.started {
        slot := MarkedSlot(read);
      }
      if !kickOk {
        if !read.started && clearOk {
          slot := CarriedSlot(read);
        }
        return;
      }
      for i := 0 to |polls|
        invariant slot == MarkedSlot(read) && forall j | 0 <= j < i :: polls[j].StillVerifying?
      {
        match polls[i]
        case StillVerifying =>
        case PairBroken =>
          slot := CarriedSlot(read);
          return;
        case Finished(n) =>
          slot := ResultSlot(n > 0);
          return;
        case PollStops => return;
      }
    }
  }
}
