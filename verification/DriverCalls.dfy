/** The teardown calls of the driver as they run under their resource's lock: which
    commands they issue, in which order, and when they refuse to issue any. */
module DriverCalls {
  import opened Teardown

  /** How a command ends: its deadline kills it, or it returns an error, or it succeeds. */
  datatype Fate = Expires | Errs | Works

  /** What became of the state files: none went, the config went but not all, or all did. */
  datatype Removal = Kept | Partly | Gone

  datatype Result = Finished | Busy | Wedged | Failed

  function Disconnects(name: Name, peers: seq<nat>): (cmds: seq<Command>)
    ensures |cmds| == |peers| && forall i | 0 <= i < |peers| :: cmds[i] == Disconnect(name, peers[i])
  {
    seq(|peers|, i requires 0 <= i < |peers| => Disconnect(name, peers[i]))
  }

  /** How many are issued: up to and including the first that is killed. */
  function Reached(fates: seq<Fate>): (k: nat)
    ensures k <= |fates| && (Expires !in fates ==> k == |fates|)
    ensures Expires in fates ==> k > 0 && fates[k - 1] == Expires && forall j | 0 <= j < k - 1 :: fates[j] != Expires
  {
    if fates == [] then 0 else if fates[0].Expires? then 1 else
      assert fates == [fates[0]] + fates[1..];
      1 + Reached(fates[1..])
  }

  function SeverCommands(name: Name, peers: seq<nat>, fates: seq<Fate>): seq<Command>
    requires |fates| == |peers|
  {
    Disconnects(name, peers[..Reached(fates)])
  }

  /** A down follows only when no disconnect was killed. */
  function TeardownCommands(name: Name, peers: seq<nat>, fates: seq<Fate>): seq<Command>
    requires |fates| == |peers|
  {
    SeverCommands(name, peers, fates) + if Expires in fates then [] else [Down(name)]
  }

  function UpAfter(name: Name, fates: seq<Fate>, down: Fate): seq<Command> {
    if Expires !in fates && down.Works? then [Up(name)] else []
  }

  class Driver {
    var issued: seq<Command>
    var wedgeSeen: set<Name>
    var configs: set<Name>    // resources with a .res file here
    var minors: set<Name>     // resources with a minor assignment

    constructor (files: set<Name>, assignments: set<Name>)
      ensures issued == [] && wedgeSeen == {} && configs == files && minors == assignments
    {
      issued, wedgeSeen, configs, minors := [], {}, files, assignments;
    }

    method DisconnectPeers(name: Name, peers: seq<nat>, fates: seq<Fate>) returns (killed: bool)
      requires |fates| == |peers|
      modifies `issued
      ensures issued == old(issued) + SeverCommands(name, peers, fates) && killed == (Expires in fates)
    {
      for i := 0 to |peers|
        invariant issued == old(issued) + Disconnects(name, peers[..i]) && forall j | 0 <= j < i :: fates[j] != Expires
      {
        assert Disconnects(name, peers[..i + 1]) == Disconnects(name, peers[..i]) + [Disconnect(name, peers[i])];
        issued := issued + [Disconnect(name, peers[i])];
        if fates[i].Expires? {
          assert Reached(fates) == i + 1;
          return true;
        }
      }
      return false;
    }

    method DownResource(name: Name, peers: seq<nat>, fates: seq<Fate>, down: Fate) returns (r: Result)
      requires |fates| == |peers|
      modifies `issued
      ensures issued == old(issued) + TeardownCommands(name, peers, fates)
      ensures r == if Expires in fates then Busy else if down.Works? then Finished else Failed
    {
      var killed := DisconnectPeers(name, peers, fates);
      if killed {
        return Busy;
      }
      issued := issued + [Down(name)];
      return if down.Works? then Finished else Failed;
    }

    /** A resource wearing a wedge fingerprint gets no command: the first sighting defers, a
        second in a row reports the wedge, and a clean look forgets the first.  Its config
        goes only after a down that succeeded, and its minor only after all its files. */
    method TearDown(
      name: Name, fingerprint: bool, peers: seq<nat>, fates: seq<Fate>, down: Fate, removal: Removal, released: bool)
      returns (r: Result)
      requires |fates| == |peers|
      modifies this
      ensures name !in old(configs) ==>
        r == Finished && issued == old(issued) && wedgeSeen == old(wedgeSeen)
      ensures name in old(configs) && fingerprint ==>
        && issued == old(issued) && wedgeSeen == old(wedgeSeen) + {name}
        && r == if name in old(wedgeSeen) then Wedged else Busy
      ensures name in old(configs) && !fingerprint ==>
        && issued == old(issued) + TeardownCommands(name, peers, fates) && wedgeSeen == old(wedgeSeen) - {name}
        && (r == Busy <==> Expires in fates) && r != Wedged
      ensures var downed := name in old(configs) && !fingerprint && Expires !in fates && down.Works?;
        && configs == (if downed && !removal.Kept? then old(configs) - {name} else old(configs))
        && minors == (if downed && removal.Gone? && released then old(minors) - {name} else old(minors))
        && (name in old(configs) ==> (r == Finished <==> downed && removal.Gone? && released))
    {
      if name !in configs {
        return Finished;
      }
      if fingerprint {
        var again := name in wedgeSeen;
        wedgeSeen := wedgeSeen + {name};
        return if again then Wedged else Busy;
      }
      wedgeSeen := wedgeSeen - {name};
      r := DownResource(name, peers, fates, down);
      if r != Finished {
        return;
      }
      if !removal.Kept? {
        configs := configs - {name};
      }
      if !removal.Gone? || !released {
        return Failed;
      }
      minors := minors - {name};
    }

    /** An up follows only a down that succeeded. */
    method Restart(
      name: Name, fingerprint: bool, peers: seq<nat>, fates: seq<Fate>, down: Fate, up: Fate)
      returns (r: Result)
      requires |fates| == |peers|
      modifies `issued
      ensures fingerprint ==> r == Wedged && issued == old(issued)
      ensures !fingerprint ==>
        issued == old(issued) + TeardownCommands(name, peers, fates) + UpAfter(name, fates, down)
    {
      if fingerprint {
        return Wedged;
      }
      r := DownResource(name, peers, fates, down);
      if r == Finished {
        issued := issued + [Up(name)];
        r := if up.Works? then Finished else Failed;
      }
    }
  }

  // ----- the calls keep to the protocol -----

  function NextStage(cmd: Command): Stage {
    if cmd.Down? then Downed else Severing
  }

  /** Each command is one the protocol lets the call issue at that point. */
  ghost predicate Permitted(call: Call, name: Name, stage: Stage, cmds: seq<Command>)
    decreases |cmds|
  {
    cmds == [] || (Follows(call, name, stage, cmds[0]) && Permitted(call, name, NextStage(cmds[0]), cmds[1..]))
  }

  lemma {:induction false} DisconnectsPermitted(
    call: Call, name: Name, stage: Stage, peers: seq<nat>, tail: seq<Command>)
    requires (stage == Checked || stage == Severing) && (call.DownCall? || call.RestartCall?)
    requires Permitted(call, name, stage, tail) && Permitted(call, name, Severing, tail)
    ensures Permitted(call, name, stage, Disconnects(name, peers) + tail)
    decreases |peers|
  {
    var cmds := Disconnects(name, peers) + tail;
    if peers == [] {
      assert cmds == tail;
    } else {
      assert cmds[1..] == Disconnects(name, peers[1..]) + tail;
      DisconnectsPermitted(call, name, Severing, peers[1..], tail);
    }
  }

  /** Whatever a teardown or a restart issues past its check, the protocol permits. */
  lemma CallsPermitted(name: Name, peers: seq<nat>, fates: seq<Fate>, down: Fate)
    requires |fates| == |peers|
    ensures Permitted(DownCall, name, Checked, TeardownCommands(name, peers, fates))
    ensures Permitted(RestartCall, name, Checked,
      TeardownCommands(name, peers, fates) + UpAfter(name, fates, down))
  {
    var reached := peers[..Reached(fates)];
    var up := UpAfter(name, fates, down);
    var downs := if Expires in fates then [] else [Down(name)];
    assert downs != [] ==> downs[1..] == [] && (downs + up)[1..] == up;
    assert up != [] ==> up[1..] == [];
    DisconnectsPermitted(DownCall, name, Checked, reached, downs);
    assert Permitted(RestartCall, name, Downed, up);
    assert Permitted(RestartCall, name, Checked, downs + up) && Permitted(RestartCall, name, Severing, downs + up);
    DisconnectsPermitted(RestartCall, name, Checked, reached, downs + up);
    assert TeardownCommands(name, peers, fates) + up == Disconnects(name, reached) + (downs + up);
  }
}
