/** One node's hands on a snapshot group: the loops over member volumes and their legs,
    proved against the status functions that `GroupRound` steps with. */
module GroupAgent {
  import opened BarrierTypes
  import opened GroupRound

  datatype Member = Member(vol: Volume, diskful: seq<Node>, diskless: seq<Node>)

  ghost function DiskfulLegs(members: seq<Member>): set<Leg> {
    set i, j | 0 <= i < |members| && 0 <= j < |members[i].diskful| :: Leg(members[i].vol, members[i].diskful[j])
  }

  ghost function DisklessLegs(members: seq<Member>): set<Leg> {
    set i, j | 0 <= i < |members| && 0 <= j < |members[i].diskless| :: Leg(members[i].vol, members[i].diskless[j])
  }

  lemma PrefixLegs(members: seq<Member>, i: nat)
    requires i <= |members|
    ensures DiskfulLegs(members[..i]) <= DiskfulLegs(members) && DisklessLegs(members[..i]) <= DisklessLegs(members)
  {
    assert forall k | 0 <= k < i :: members[..i][k] == members[k];
  }

  ghost function LegsAt(v: Volume, nodes: seq<Node>): set<Leg> {
    set n | n in nodes :: Leg(v, n)
  }

  lemma LegsOfOne(m: Member)
    ensures DiskfulLegs([m]) == LegsAt(m.vol, m.diskful)
    ensures DisklessLegs([m]) == LegsAt(m.vol, m.diskless)
  {
    var one := [m];
    forall n | n in m.diskful
      ensures Leg(m.vol, n) in DiskfulLegs(one)
    {
      var j :| 0 <= j < |m.diskful| && m.diskful[j] == n;
      assert Leg(one[0].vol, one[0].diskful[j]) in DiskfulLegs(one);
    }
    forall n | n in m.diskless
      ensures Leg(m.vol, n) in DisklessLegs(one)
    {
      var j :| 0 <= j < |m.diskless| && m.diskless[j] == n;
      assert Leg(one[0].vol, one[0].diskless[j]) in DisklessLegs(one);
    }
  }

  lemma PendLeg(slots: map<Leg, SlotState>, legs: set<Leg>, l: Leg)
    ensures slots + (map x | x in legs + {l} :: Pending) == (slots + map x | x in legs :: Pending)[l := Pending]
  {
  }

  lemma LegsAtNext(v: Volume, nodes: seq<Node>, j: nat)
    requires j < |nodes|
    ensures LegsAt(v, nodes[..j + 1]) == LegsAt(v, nodes[..j]) + {Leg(v, nodes[j])}
  {
    assert nodes[..j + 1] == nodes[..j] + [nodes[j]];
  }

  lemma LegsOfPrefix(members: seq<Member>, i: nat)
    requires i < |members|
    ensures DiskfulLegs(members[..i + 1]) == DiskfulLegs(members[..i]) + DiskfulLegs([members[i]])
    ensures DisklessLegs(members[..i + 1]) == DisklessLegs(members[..i]) + DisklessLegs([members[i]])
  {
    var a, b := members[..i], members[..i + 1];
    assert forall k | 0 <= k < i :: a[k] == b[k];
    assert b[i] == [members[i]][0];
  }

  /** What is left of a raise that stopped after `tried`: only what siblings co-hold. */
  ghost function HalfRaised(before: set<Leg>, tried: seq<Leg>, siblings: set<Volume>): set<Leg> {
    (before + set l | l in tried) - set l | l in tried && l.vol !in siblings
  }

  /** The snapshots there are once these legs were cut. */
  ghost function Recut(cuts: map<Leg, Content>, data: map<Leg, Content>, legs: seq<Leg>): map<Leg, Content> {
    cuts + map l | l in legs && l in data :: data[l]
  }

  lemma RecutOne(cuts: map<Leg, Content>, data: map<Leg, Content>, legs: seq<Leg>, l: Leg)
    requires l in data
    ensures Recut(cuts, data, legs + [l]) == Recut(cuts, data, legs)[l := data[l]]
  {
  }

  class Agent {
    const self: Node
    const members: seq<Member>
    var status: GroupStatus
    var barrier: set<Leg>

    constructor (self: Node, members: seq<Member>, status: GroupStatus, barrier: set<Leg>)
      ensures this.self == self && this.members == members
      ensures this.status == status && this.barrier == barrier
    {
      this.self, this.members := self, members;
      this.status, this.barrier := status, barrier;
    }

    /** Done legs of one member, out of all of them. */
    method CountMember(m: Member) returns (done: nat)
      ensures done <= |m.diskful|
      ensures done == |m.diskful| <==>
        forall j | 0 <= j < |m.diskful| :: SlotOf(status, Leg(m.vol, m.diskful[j])) == Done
    {
      done := 0;
      for j := 0 to |m.diskful|
        invariant done <= j
        invariant done == j <==> forall k | 0 <= k < j :: SlotOf(status, Leg(m.vol, m.diskful[k])) == Done
      {
        if SlotOf(status, Leg(m.vol, m.diskful[j])) == Done {
          done := done + 1;
        }
      }
    }

    method CountDone() returns (done: nat, total: nat)
      ensures done <= total
      ensures done == total <==> AllLegs(status, DiskfulLegs(members), Done)
    {
      done, total := 0, 0;
      for i := 0 to |members|
        invariant done <= total
        invariant done == total <==>
          forall k, j | 0 <= k < i && 0 <= j < |members[k].diskful| ::
            SlotOf(status, Leg(members[k].vol, members[k].diskful[j])) == Done
      {
        var d := CountMember(members[i]);
        done, total := done + d, total + |members[i].diskful|;
      }
      assert forall k, j | 0 <= k < |members| && 0 <= j < |members[k].diskful| ::
        Leg(members[k].vol, members[k].diskful[j]) in DiskfulLegs(members);
    }

    /** The cut gate, leg by leg. */
    method CutGate() returns (open: bool)
      ensures open == AllSlotsSuspended(status, DiskfulLegs(members), DisklessLegs(members))
    {
      for i := 0 to |members|
        invariant forall k, j | 0 <= k < i && 0 <= j < |members[k].diskful| ::
          Raised(SlotOf(status, Leg(members[k].vol, members[k].diskful[j])))
        invariant forall k, j | 0 <= k < i && 0 <= j < |members[k].diskless| ::
          SlotOf(status, Leg(members[k].vol, members[k].diskless[j])) != Pending
      {
        var m := members[i];
        for j := 0 to |m.diskful|
          invariant forall k | 0 <= k < j :: Raised(SlotOf(status, Leg(m.vol, m.diskful[k])))
        {
          if !Raised(SlotOf(status, Leg(m.vol, m.diskful[j]))) {
            assert Leg(m.vol, m.diskful[j]) in DiskfulLegs(members);
            return false;
          }
        }
        for j := 0 to |m.diskless|
          invariant forall k | 0 <= k < j :: SlotOf(status, Leg(m.vol, m.diskless[k])) != Pending
        {
          if SlotOf(status, Leg(m.vol, m.diskless[j])) == Pending {
            assert Leg(m.vol, m.diskless[j]) in DisklessLegs(members);
            return false;
          }
        }
      }
      return true;
    }

    /** Every leg in `raise` is suspended in turn.  The first failure lifts what this pass
        raised, the failed leg included, except where a sibling round is live; a leg whose
        suspend-io failed may have its flag up all the same. */
    method RaiseBarriers(raise: seq<Leg>, fails: set<Leg>, siblings: set<Volume>) returns (ok: bool)
      modifies this`barrier
      ensures ok <==> forall l | l in raise :: l !in fails
      ensures ok ==> barrier == old(barrier) + set l | l in raise
      ensures !ok ==> exists i | 0 <= i < |raise| && raise[i] in fails ::
        barrier == HalfRaised(old(barrier), raise[..i + 1], siblings)
    {
      for i := 0 to |raise|
        invariant forall j | 0 <= j < i :: raise[j] !in fails
        invariant barrier == old(barrier) + set l | l in raise[..i]
      {
        assert raise[..i + 1] == raise[..i] + [raise[i]];
        barrier := barrier + {raise[i]};
        if raise[i] in fails {
          barrier := barrier - set l | l in raise[..i + 1] && l.vol !in siblings;
          assert barrier == HalfRaised(old(barrier), raise[..i + 1], siblings);
          return false;
        }
      }
      assert raise[..|raise|] == raise;
      return true;
    }

    /** Phase two: each of the node's legs is re-suspended, its leftover snapshot deleted and a
        new one cut.  `suspendFails` and `cutFails` stop the pass; no failure lifts a barrier,
        and Done may be reported only when every leg was cut. */
    method CutLegs(
      mine: seq<Leg>, data: map<Leg, Content>, cuts: map<Leg, Content>, suspendFails: set<Leg>, cutFails: set<Leg>)
      returns (done: bool, after: map<Leg, Content>)
      requires forall l <- mine :: l in data
      modifies this`barrier
      ensures done <==> forall l <- mine :: l !in suspendFails && l !in cutFails
      ensures old(barrier) <= barrier && barrier <= old(barrier) + set l | l in mine
      ensures done ==> barrier == old(barrier) + (set l | l in mine) && after == Recut(cuts, data, mine)
      ensures forall l <- after ::
        (l in cuts && after[l] == cuts[l]) || (l in mine && l in barrier && after[l] == data[l])
    {
      after := cuts;
      for i := 0 to |mine|
        invariant forall l <- mine[..i] :: l !in suspendFails && l !in cutFails
        invariant barrier == old(barrier) + set l | l in mine[..i]
        invariant after == Recut(cuts, data, mine[..i])
      {
        var l := mine[i];
        assert mine[..i + 1] == mine[..i] + [l];
        RecutOne(cuts, data, mine[..i], l);
        if l in suspendFails {
          return false, after;
        }
        barrier := barrier + {l};
        if l in cutFails {
          return false, after - {l};
        }
        after := after[l := data[l]];
      }
      assert mine[..|mine|] == mine;
      done := true;
    }

    /** The driver's last phase: seal, void, or wait.  `lifted` are its own legs whose
        volume has no live sibling round. */
    method CollectSlots(now: Seconds, own: set<Leg>, lifted: set<Leg>)
      requires status.ioSuspended
      requires own <= DiskfulLegs(members) + DisklessLegs(members)
      requires DiskfulLegs(members) !! DisklessLegs(members)
      modifies this
      ensures AllLegs(old(status), DiskfulLegs(members), Done) ==> status == SealGroup(old(status))
      ensures !AllLegs(old(status), DiskfulLegs(members), Done) && ExpiredGroup(old(status), now) ==>
        status == VoidGroup(old(status), DiskfulLegs(members), DisklessLegs(members), own, now)
      ensures !AllLegs(old(status), DiskfulLegs(members), Done) && !ExpiredGroup(old(status), now) ==>
        status == old(status)
      ensures barrier == if status.ioSuspended then old(barrier) else old(barrier) - lifted
    {
      var done, total := CountDone();
      var expired := status.suspendedAt.Some? && now - status.suspendedAt.value > SUSPEND_DEADLINE;
      if done < total && !expired {
        return;
      }
      barrier := barrier - lifted;
      if done == total {
        status := status.(ioSuspended := false, readyToUse := true);
        return;
      }
      var slots := VoidSlots(own);
      status := status.(ioSuspended := false, suspendedAt := Some(now), perLeg := slots);
    }

    /** The void's slot resets, in the order the loops make them. */
    method VoidSlots(own: set<Leg>) returns (slots: map<Leg, SlotState>)
      requires own <= DiskfulLegs(members) + DisklessLegs(members)
      requires DiskfulLegs(members) !! DisklessLegs(members)
      ensures slots == VoidGroup(status, DiskfulLegs(members), DisklessLegs(members), own, 0).perLeg
    {
      slots := status.perLeg;
      for i := 0 to |members|
        invariant slots == VoidGroup(status, DiskfulLegs(members[..i]), DisklessLegs(members[..i]), {}, 0).perLeg
      {
        LegsOfPrefix(members, i);
        PrefixLegs(members, i + 1);
        slots := VoidMember(slots, members[i], members[..i]);
      }
      assert members[..|members|] == members;
      slots := map l | l in slots :: if l in own then Error else slots[l];
    }

    method VoidMember(before: map<Leg, SlotState>, m: Member, earlier: seq<Member>) returns (slots: map<Leg, SlotState>)
      requires DiskfulLegs(earlier) + DiskfulLegs([m]) !! DisklessLegs(earlier) + DisklessLegs([m])
      requires before == VoidGroup(status, DiskfulLegs(earlier), DisklessLegs(earlier), {}, 0).perLeg
      ensures slots == VoidGroup(status, DiskfulLegs(earlier) + DiskfulLegs([m]),
                                 DisklessLegs(earlier) + DisklessLegs([m]), {}, 0).perLeg
    {
      slots := ResetDiskful(before, m);
      slots := DropExpected(slots, m);
    }

    method ResetDiskful(before: map<Leg, SlotState>, m: Member) returns (slots: map<Leg, SlotState>)
      ensures slots == before + map l | l in DiskfulLegs([m]) :: Pending
    {
      slots := before;
      for j := 0 to |m.diskful|
        invariant slots == before + map l | l in LegsAt(m.vol, m.diskful[..j]) :: Pending
      {
        LegsAtNext(m.vol, m.diskful, j);
        PendLeg(before, LegsAt(m.vol, m.diskful[..j]), Leg(m.vol, m.diskful[j]));
        slots := slots[Leg(m.vol, m.diskful[j]) := Pending];
      }
      assert m.diskful[..|m.diskful|] == m.diskful;
      LegsOfOne(m);
    }

    method DropExpected(before: map<Leg, SlotState>, m: Member) returns (slots: map<Leg, SlotState>)
      ensures slots == map l | l in before ::
        if l in DisklessLegs([m]) && before[l] == Pending then Error else before[l]
    {
      slots := before;
      for j := 0 to |m.diskless|
        invariant slots == map l | l in before ::
          if l in LegsAt(m.vol, m.diskless[..j]) && before[l] == Pending then Error else before[l]
      {
        LegsAtNext(m.vol, m.diskless, j);
        var key := Leg(m.vol, m.diskless[j]);
        if key in slots && slots[key] == Pending {
          slots := slots[key := Error];
        }
      }
      assert m.diskless[..|m.diskless|] == m.diskless;
      LegsOfOne(m);
    }
  }
}
