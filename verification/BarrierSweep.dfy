/** The stale-barrier sweep an agent runs at start, at shutdown and periodically: it lifts
    every kernel barrier no recorded round younger than the deadline accounts for. */
module BarrierSweep {
  import opened BarrierTypes

  datatype SnapshotObject = SnapshotObject(name: nat, volume: Volume, ioSuspended: bool, suspendedAt: Option<Seconds>)

  /** `slotVolumes` are the volumes named by the keys of the group's per-leg slots. */
  datatype GroupObject = GroupObject(
    snapshotNames: seq<nat>, ioSuspended: bool, suspendedAt: Option<Seconds>, slotVolumes: seq<Volume>)

  predicate Live(io: bool, at: Option<Seconds>, now: Seconds) {
    io && at.Some? && now - at.value < SUSPEND_DEADLINE
  }

  ghost predicate UniqueNames(snaps: seq<SnapshotObject>) {
    forall i, j | 0 <= i < j < |snaps| :: snaps[i].name != snaps[j].name
  }

  ghost predicate GroupCovers(snaps: seq<SnapshotObject>, g: GroupObject, v: Volume) {
    v in g.slotVolumes || exists x <- snaps :: x.name in g.snapshotNames && x.volume == v
  }

  ghost predicate SnapshotHolds(snaps: seq<SnapshotObject>, v: Volume, now: Seconds) {
    exists x <- snaps :: x.volume == v && Live(x.ioSuspended, x.suspendedAt, now)
  }

  ghost predicate GroupHolds(snaps: seq<SnapshotObject>, groups: seq<GroupObject>, v: Volume, now: Seconds) {
    exists g <- groups :: Live(g.ioSuspended, g.suspendedAt, now) && GroupCovers(snaps, g, v)
  }

  /** A round over v is fresh: a snapshot's own, or that of a group one of whose member
      snapshots, or slots, names v. */
  ghost predicate FreshOver(snaps: seq<SnapshotObject>, groups: seq<GroupObject>, v: Volume, now: Seconds) {
    SnapshotHolds(snaps, v, now) || GroupHolds(snaps, groups, v, now)
  }

  method HeldBySnapshots(snaps: seq<SnapshotObject>, now: Seconds) returns (live: set<Volume>)
    ensures forall v :: v in live <==> SnapshotHolds(snaps, v, now)
  {
    live := {};
    for i := 0 to |snaps|
      invariant forall v :: v in live <==> SnapshotHolds(snaps[..i], v, now)
    {
      assert snaps[..i + 1] == snaps[..i] + [snaps[i]];
      if Live(snaps[i].ioSuspended, snaps[i].suspendedAt, now) {
        live := live + {snaps[i].volume};
      }
    }
    assert snaps[..|snaps|] == snaps;
  }

  ghost predicate VolumeOf(snaps: seq<SnapshotObject>, name: nat, v: Volume) {
    exists x <- snaps :: x.name == name && x.volume == v
  }

  method VolumesByName(snaps: seq<SnapshotObject>) returns (volumes: map<nat, Volume>)
    requires UniqueNames(snaps)
    ensures forall name, v :: VolumeOf(snaps, name, v) <==> name in volumes && volumes[name] == v
  {
    volumes := map[];
    for i := 0 to |snaps|
      invariant forall name <- volumes :: exists x <- snaps[..i] :: x.name == name
      invariant forall name, v :: VolumeOf(snaps[..i], name, v) <==> name in volumes && volumes[name] == v
    {
      assert snaps[..i + 1] == snaps[..i] + [snaps[i]];
      assert snaps[i].name !in volumes;
      ghost var before := volumes;
      volumes := volumes[snaps[i].name := snaps[i].volume];
      ghost var seen := snaps[..i + 1];
      forall name, v
        ensures VolumeOf(seen, name, v) <==> name in volumes && volumes[name] == v
      {
        assert VolumeOf(seen, name, v) <==>
          VolumeOf(snaps[..i], name, v) || (snaps[i].name == name && snaps[i].volume == v);
        assert name != snaps[i].name ==> (VolumeOf(snaps[..i], name, v) <==> name in before && before[name] == v);
      }
    }
    assert snaps[..|snaps|] == snaps;
  }

  method CoveredBy(snaps: seq<SnapshotObject>, volumes: map<nat, Volume>, g: GroupObject) returns (covered: set<Volume>)
    requires forall name, v :: VolumeOf(snaps, name, v) <==> name in volumes && volumes[name] == v
    ensures forall v :: v in covered <==> GroupCovers(snaps, g, v)
  {
    covered := {};
    for i := 0 to |g.snapshotNames|
      invariant forall v :: v in covered <==> exists name :: name in g.snapshotNames[..i] && VolumeOf(snaps, name, v)
    {
      var names := g.snapshotNames;
      assert names[..i + 1] == names[..i] + [names[i]];
      ghost var before := covered;
      if names[i] in volumes {
        covered := covered + {volumes[names[i]]};
      }
      forall v
        ensures v in covered <==> exists name :: name in names[..i + 1] && VolumeOf(snaps, name, v)
      {
        assert v in covered <==> v in before || VolumeOf(snaps, names[i], v);
      }
    }
    assert g.snapshotNames[..|g.snapshotNames|] == g.snapshotNames;
    ghost var named := covered;
    for i := 0 to |g.slotVolumes|
      invariant forall v :: v in covered <==> v in named || v in g.slotVolumes[..i]
    {
      assert g.slotVolumes[..i + 1] == g.slotVolumes[..i] + [g.slotVolumes[i]];
      covered := covered + {g.slotVolumes[i]};
    }
    assert g.slotVolumes[..|g.slotVolumes|] == g.slotVolumes;
  }

  method HeldByGroups(snaps: seq<SnapshotObject>, groups: seq<GroupObject>, now: Seconds) returns (live: set<Volume>)
    requires UniqueNames(snaps)
    ensures forall v :: v in live <==> GroupHolds(snaps, groups, v, now)
  {
    var volumes := VolumesByName(snaps);
    live := {};
    for i := 0 to |groups|
      invariant forall v :: v in live <==> GroupHolds(snaps, groups[..i], v, now)
    {
      assert groups[..i + 1] == groups[..i] + [groups[i]];
      if Live(groups[i].ioSuspended, groups[i].suspendedAt, now) {
        var covered := CoveredBy(snaps, volumes, groups[i]);
        live := live + covered;
      }
    }
    assert groups[..|groups|] == groups;
  }

  /** One node's kernel: the volumes whose local leg is suspended by suspend-io. */
  class Kernel {
    var suspended: set<Volume>

    constructor (suspended: set<Volume>)
      ensures this.suspended == suspended
    {
      this.suspended := suspended;
    }

    /** Lifts exactly the stale barriers; a resume that fails leaves only its own. */
    method ResumeStaleBarriers(snaps: seq<SnapshotObject>, groups: seq<GroupObject>, listed: seq<Volume>,
                               now: Seconds, stuck: set<Volume>)
      requires UniqueNames(snaps)
      modifies this
      ensures forall v :: v in suspended <==>
        v in old(suspended) && !(v in listed && v !in stuck && !FreshOver(snaps, groups, v, now))
    {
      var bySnapshot := HeldBySnapshots(snaps, now);
      var byGroup := HeldByGroups(snaps, groups, now);
      for i := 0 to |listed|
        invariant forall v :: v in suspended <==>
          v in old(suspended) && !(v in listed[..i] && v !in stuck && !FreshOver(snaps, groups, v, now))
      {
        assert listed[..i + 1] == listed[..i] + [listed[i]];
        if listed[i] !in bySnapshot && listed[i] !in byGroup && listed[i] !in stuck {
          suspended := suspended - {listed[i]};
        }
      }
      assert listed[..|listed|] == listed;
    }
  }
}
