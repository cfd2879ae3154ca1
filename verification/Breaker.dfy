/** The node's circuit breaker over host commands, and the runner it gates.

    `stuck` is the environment's answer to every /proc read of one call: the pids in
    uninterruptible sleep. */
module Breaker {
  type Pid = nat

  function Pruned(children: map<Pid, string>, stuck: set<Pid>): map<Pid, string> {
    map p | p in children && p in stuck :: children[p]
  }

  /** The condition new commands are refused on. */
  predicate Open(limit: nat, latched: string, children: map<Pid, string>, stuck: set<Pid>) {
    latched != "" || (limit > 0 && |Pruned(children, stuck)| >= limit)
  }

  class Wedge {
    const limit: nat
    var children: map<Pid, string>
    var latched: string

    constructor (limit: nat)
      ensures this.limit == limit && children == map[] && latched == ""
    {
      this.limit, children, latched := limit, map[], "";
    }

    /** The first reason wins. */
    method Latch(reason: string)
      modifies `latched
      ensures latched == if old(latched) == "" then reason else old(latched)
    {
      if latched == "" {
        latched := reason;
      }
    }

    method Record(pid: Pid, line: string)
      modifies `children
      ensures children == old(children)[pid := line]
    {
      children := children[pid := line];
    }

    method Retire(pid: Pid)
      modifies `children
      ensures children == old(children) - {pid}
    {
      children := children - {pid};
    }

    /** Counts the children still stuck, dropping those that drained. */
    method Stranded(stuck: set<Pid>) returns (n: nat)
      modifies `children
      ensures children == Pruned(old(children), stuck) && n == |children|
    {
      var pids, drained := children.Keys, {};
      while pids != {}
        invariant pids <= children.Keys && children == old(children)
        invariant forall p :: p in drained <==> p in children.Keys - pids && p !in stuck
      {
        var p :| p in pids;
        if p !in stuck {
          drained := drained + {p};
        }
        pids := pids - {p};
      }
      children := children - drained;
      n := |children|;
    }

    method StrandedTripped(stuck: set<Pid>) returns (b: bool)
      modifies `children
      ensures b <==> limit > 0 && |Pruned(old(children), stuck)| >= limit
      ensures children == if limit > 0 then Pruned(old(children), stuck) else old(children)
    {
      if limit == 0 {
        return false;
      }
      var n := Stranded(stuck);
      return n >= limit;
    }

    /** A latch trips whatever the limit, and without a look at the children. */
    method Tripped(stuck: set<Pid>) returns (b: bool)
      modifies `children
      ensures b <==> Open(limit, latched, old(children), stuck)
      ensures children == if latched == "" && limit > 0 then Pruned(old(children), stuck) else old(children)
    {
      if latched != "" {
        return true;
      }
      b := StrandedTripped(stuck);
    }

    /** Whether a child of exactly that command line is still stuck. */
    method StrandedCommand(line: string, stuck: set<Pid>) returns (b: bool)
      modifies `children
      ensures b <==> exists p <- old(children) :: p in stuck && old(children)[p] == line
      ensures children == Pruned(old(children), stuck)
    {
      var _ := Stranded(stuck);
      var pids := children.Keys;
      while pids != {}
        invariant pids <= children.Keys && forall p <- children.Keys - pids :: children[p] != line
      {
        var p :| p in pids;
        if children[p] == line {
          return true;
        }
        pids := pids - {p};
      }
      assert forall p <- old(children) :: p in stuck ==> p in children && children[p] == old(children)[p];
      return false;
    }
  }

  /** How a child ends: it never starts, exits by itself or to the kill, or outlives it. */
  datatype Fate = NotStarted | Exits(ok: bool) | Unkillable(pid: Pid)

  datatype Result = Refused | Failed | Succeeded | LeftStranded

  class Runner {
    const wedge: Wedge

    constructor (wedge: Wedge)
      ensures this.wedge == wedge
    {
      this.wedge := wedge;
    }

    /** A child is spawned only past a closed breaker, and one that outlives its kill is on
        record before the caller hears of it. */
    method Run(line: string, stuck: set<Pid>, fate: Fate) returns (r: Result)
      modifies wedge`children
      ensures r == Refused <==> Open(wedge.limit, wedge.latched, old(wedge.children), stuck)
      ensures r == LeftStranded <==> r != Refused && fate.Unkillable?
      ensures r == LeftStranded ==> fate.pid in wedge.children && wedge.children[fate.pid] == line
      ensures r == Succeeded ==> fate == Exits(true)
      ensures forall p :: p in wedge.children && !(r == LeftStranded && p == fate.pid) ==>
        p in old(wedge.children) && wedge.children[p] == old(wedge.children)[p]
      ensures forall p :: p in old(wedge.children) && p in stuck ==> p in wedge.children
      ensures wedge.limit > 0 && |wedge.children| > wedge.limit ==> r == Refused
    {
      var open := wedge.Tripped(stuck);
      if open {
        var _ := wedge.Stranded(stuck);
        return Refused;
      }
      match fate
      case NotStarted => return Failed;
      case Exits(ok) => return if ok then Succeeded else Failed;
      case Unkillable(pid) =>
        wedge.Record(pid, line);
        return LeftStranded;
    }
  }

  // ----- the record over a whole run -----

  /** What befalls the record: a child is recorded, reaped, or /proc is read. */
  datatype Event = Recorded(pid: Pid, line: string) | Reaped(pid: Pid) | Read(stuck: set<Pid>)

  /** The record after the events, each as the method of its name leaves it. */
  function Book(events: seq<Event>): map<Pid, string> {
    if events == [] then map[]
    else
      var before := Book(events[..|events| - 1]);
      match events[|events| - 1]
      case Recorded(pid, line) => before[pid := line]
      case Reaped(pid) => before - {pid}
      case Read(stuck) => Pruned(before, stuck)
  }

  /** An event that ends a child's record. */
  predicate Ends(e: Event, pid: Pid) {
    e == Reaped(pid) || (e.Read? && pid !in e.stuck)
  }

  /** The child was recorded, and since then neither reaped nor read as anything but stuck. */
  ghost predicate Outstanding(events: seq<Event>, pid: Pid) {
    exists k :: 0 <= k < |events| && events[k].Recorded? && events[k].pid == pid
      && forall j | k < j < |events| :: !Ends(events[j], pid)
  }

  lemma {:induction false} OnRecordExactly(events: seq<Event>, pid: Pid)
    ensures pid in Book(events) <==> Outstanding(events, pid)
  {
    if events != [] {
      var before, last := events[..|events| - 1], events[|events| - 1];
      OnRecordExactly(before, pid);
      if Outstanding(before, pid) && !Ends(last, pid) {
        var k :| 0 <= k < |before| && before[k].Recorded? && before[k].pid == pid
          && forall j | k < j < |before| :: !Ends(before[j], pid);
        assert events[k] == before[k];
      }
      if Outstanding(events, pid) && !(last.Recorded? && last.pid == pid) {
        var k :| 0 <= k < |events| && events[k].Recorded? && events[k].pid == pid
          && forall j | k < j < |events| :: !Ends(events[j], pid);
        assert before[k] == events[k] && forall j | k < j < |before| :: before[j] == events[j];
      }
    }
  }

  /** The breaker refuses exactly while as many children as the limit were recorded and have
      been stuck at every look since, this one included; it closes by itself as they drain. */
  lemma OpenExactly(limit: nat, events: seq<Event>, stuck: set<Pid>)
    ensures Open(limit, "", Book(events), stuck) <==>
            limit > 0 && |set p | p in stuck && Outstanding(events, p)| >= limit
  {
    forall p ensures p in Book(events) <==> Outstanding(events, p) {
      OnRecordExactly(events, p);
    }
    assert Pruned(Book(events), stuck).Keys == set p | p in stuck && Outstanding(events, p);
  }
}
