/** Choosing nodes from a ranking so that a volume spans as many failure domains as it can. */
module ZoneSpread {
  import opened BarrierTypes
  import opened Sequences
  import opened NodeMap

  ghost function Zones(m: Topology, s: set<Node>): set<string> {
    set n | n in s && ZoneOf(m, n) != "" :: ZoneOf(m, n)
  }

  ghost function Unzoned(m: Topology, s: set<Node>): set<Node> {
    set n | n in s && ZoneOf(m, n) == ""
  }

  /** Failure domains a set of nodes covers: its named zones, and each unzoned node. */
  ghost function Domains(m: Topology, s: set<Node>): nat {
    |Zones(m, s)| + |Unzoned(m, s)|
  }

  ghost predicate NoRepeats(s: seq<Node>) {
    forall i, j | 0 <= i < j < |s| :: s[i] != s[j]
  }

  /** A node that would add a domain to a set. */
  ghost predicate AddsDomain(m: Topology, s: set<Node>, n: Node) {
    ZoneOf(m, n) == "" || ZoneOf(m, n) !in Zones(m, s)
  }

  lemma UnzonedGrows(m: Topology, s: set<Node>, n: Node)
    requires n !in s && ZoneOf(m, n) == ""
    ensures Unzoned(m, s + {n}) == Unzoned(m, s) + {n} && Zones(m, s + {n}) == Zones(m, s)
  {
  }

  lemma ZonesGrow(m: Topology, s: set<Node>, n: Node)
    requires ZoneOf(m, n) != ""
    ensures Unzoned(m, s + {n}) == Unzoned(m, s) && Zones(m, s + {n}) == Zones(m, s) + {ZoneOf(m, n)}
  {
    assert n in s + {n};
  }

  lemma DomainsGrow(m: Topology, s: set<Node>, n: Node)
    requires n !in s
    ensures Domains(m, s) <= Domains(m, s + {n}) <= Domains(m, s) + 1
    ensures AddsDomain(m, s, n) ==> Domains(m, s + {n}) == Domains(m, s) + 1
  {
    var z, zones := ZoneOf(m, n), Zones(m, s);
    if z == "" {
      UnzonedGrows(m, s, n);
    } else {
      ZonesGrow(m, s, n);
      if z in zones {
        assert zones + {z} == zones;
      }
    }
  }

  /** Each node added to a set adds at most one domain. */
  lemma {:induction false} DomainsBound(m: Topology, s: set<Node>, t: set<Node>)
    requires s <= t
    ensures Domains(m, s) <= Domains(m, t) <= Domains(m, s) + |t| - |s|
    decreases |t - s|
  {
    if s != t {
      assert !(t <= s);
      var n :| n in t && n !in s;
      DomainsBound(m, s, t - {n});
      DomainsGrow(m, t - {n}, n);
      assert t - {n} + {n} == t;
    }
  }

  /** A set that lacks no domain of a larger one covers as many. */
  lemma {:induction false} DomainsSaturated(m: Topology, s: set<Node>, t: set<Node>)
    requires s <= t && forall n <- t :: n in s || !AddsDomain(m, s, n)
    ensures Domains(m, s) == Domains(m, t)
  {
    assert Unzoned(m, s) == Unzoned(m, t);
    forall z | z in Zones(m, t) ensures z in Zones(m, s) {
      var n :| n in t && ZoneOf(m, n) == z && z != "";
      assert n in s || !AddsDomain(m, s, n);
    }
    forall n | n in s ensures n in t {
    }
    assert Zones(m, s) == Zones(m, t);
  }

  /** Of all choices that keep the pinned prefix, one with the most domains. */
  ghost predicate Optimal(m: Topology, ordered: seq<Node>, pinned: nat, count: nat, picked: set<Node>)
    requires pinned <= |ordered|
  {
    forall t: set<Node> | t <= Elements(ordered) && Elements(ordered[..pinned]) <= t && |t| == count ::
      Domains(m, t) <= Domains(m, picked)
  }

  /** Either every pick beyond the pinned ones bought a domain, or no domain was left to buy. */
  lemma OptimalEither(m: Topology, ordered: seq<Node>, pinned: nat, count: nat, core: set<Node>, picked: set<Node>)
    requires pinned <= |ordered| && core <= picked <= Elements(ordered) && |picked| == count
    requires Elements(ordered[..pinned]) <= core
    requires Domains(m, core) == Domains(m, Elements(ordered[..pinned])) + |core| - |Elements(ordered[..pinned])|
    requires |core| == count || NoneMissed(m, ordered, core)
    ensures Optimal(m, ordered, pinned, count, picked)
  {
    var pins := Elements(ordered[..pinned]);
    DomainsBound(m, core, picked);
    forall t: set<Node> | t <= Elements(ordered) && pins <= t && |t| == count
      ensures Domains(m, t) <= Domains(m, picked)
    {
      if |core| == count {
        DomainsBound(m, pins, t);
      } else {
        DomainsSaturated(m, core, Elements(ordered));
        DomainsBound(m, t, Elements(ordered));
      }
    }
  }

  lemma {:induction false} DistinctSize(s: seq<Node>)
    requires NoRepeats(s)
    ensures |Elements(s)| == |s|
  {
    if s != [] {
      var u, x := s[..|s| - 1], s[|s| - 1];
      DistinctSize(u);
      assert s == u + [x] && x !in u;
      assert Elements(s) == Elements(u) + {x};
    } else {
      assert Elements(s) == {};
    }
  }

  lemma ElementsPush(s: seq<Node>, x: Node)
    ensures Elements(s + [x]) == Elements(s) + {x}
  {
  }

  /** Within a zone, and among the unzoned, no pick passes over one ranked before it. */
  ghost predicate RankKept(m: Topology, ordered: seq<Node>, picked: set<Node>) {
    forall i, j | 0 <= i < j < |ordered| && ZoneOf(m, ordered[i]) == ZoneOf(m, ordered[j]) ::
      ordered[j] in picked ==> ordered[i] in picked
  }

  /** A node passed over: its zone is named, and one ranked before it in that zone is picked. */
  ghost predicate Shaded(m: Topology, ordered: seq<Node>, picked: set<Node>, i: nat)
    requires i < |ordered|
  {
    && ZoneOf(m, ordered[i]) != ""
    && exists k | 0 <= k < i :: ordered[k] in picked && ZoneOf(m, ordered[k]) == ZoneOf(m, ordered[i])
  }

  ghost predicate ShadedBelow(m: Topology, ordered: seq<Node>, picked: set<Node>, n: nat)
    requires n <= |ordered|
  {
    forall i | 0 <= i < n :: ordered[i] in picked || Shaded(m, ordered, picked, i)
  }

  /** Across zones a node is passed over for a worse ranked one only if its zone is served. */
  ghost predicate RankHeld(m: Topology, ordered: seq<Node>, picked: set<Node>) {
    forall i, j | 0 <= i < j < |ordered| && ordered[j] in picked ::
      ordered[i] in picked || Shaded(m, ordered, picked, i)
  }

  lemma ShadedGrows(m: Topology, ordered: seq<Node>, picked: set<Node>, more: set<Node>, n: nat)
    requires n <= |ordered| && ShadedBelow(m, ordered, picked, n) && picked <= more
    ensures ShadedBelow(m, ordered, more, n)
  {
  }

  /** A zone in use is used by a pick ranked before. */
  lemma UsedShades(m: Topology, ordered: seq<Node>, picked: set<Node>, i: nat)
    requires i < |ordered| && picked <= Elements(ordered[..i]) && !AddsDomain(m, picked, ordered[i])
    ensures Shaded(m, ordered, picked, i)
  {
    var n :| n in picked && ZoneOf(m, n) == ZoneOf(m, ordered[i]);
    assert n in ordered[..i];
    var k :| 0 <= k < i && ordered[..i][k] == n;
    assert ordered[k] == n;
  }

  /** Whoever was looked at is picked or shaded, and nobody behind is picked. */
  lemma RankHolds(m: Topology, ordered: seq<Node>, picked: set<Node>, seen: nat)
    requires NoRepeats(ordered) && seen <= |ordered| && ShadedBelow(m, ordered, picked, seen)
    requires seen == |ordered| || picked <= Elements(ordered[..seen])
    ensures RankHeld(m, ordered, picked)
  {
    forall i, j | 0 <= i < j < |ordered| && ordered[j] in picked
      ensures ordered[i] in picked || Shaded(m, ordered, picked, i)
    {
      if seen < |ordered| {
        var k :| 0 <= k < seen && ordered[..seen][k] == ordered[j];
        assert ordered[k] == ordered[j];
      }
    }
  }

  ghost predicate NoZones(m: Topology, ordered: seq<Node>) {
    forall n <- ordered :: ZoneOf(m, n) == ""
  }

  /** The picks so far, and the zones they use. */
  ghost predicate Picking(m: Topology, ordered: seq<Node>, picked: seq<Node>, used: set<string>) {
    NoRepeats(picked) && Elements(picked) <= Elements(ordered) && used == Zones(m, Elements(picked))
  }

  method Take(m: Topology, ghost ordered: seq<Node>, picked: seq<Node>, used: set<string>, n: Node)
    returns (p: seq<Node>, u: set<string>)
    requires Picking(m, ordered, picked, used) && n in ordered && n !in picked
    ensures p == picked + [n] && Picking(m, ordered, p, u) && Elements(p) == Elements(picked) + {n}
  {
    p := picked + [n];
    u := if ZoneOf(m, n) != "" then used + {ZoneOf(m, n)} else used;
    ElementsPush(picked, n);
    assert n in Elements(p);
    assert u == Zones(m, Elements(p));
  }

  /** The pick: exactly count distinct nodes of the ranking, the pinned prefix among them,
      and no such choice covers more failure domains; within a zone the ranking decides, a
      node gives way to a worse ranked one only where its zone is served, and without zones
      the pick is the head of the ranking. */
  method SpreadByZone(m: Topology, ordered: seq<Node>, pinned: nat, count: nat) returns (picked: seq<Node>)
    requires NoRepeats(ordered) && pinned <= count <= |ordered|
    ensures |picked| == count && NoRepeats(picked) && Elements(picked) <= Elements(ordered)
    ensures picked[..pinned] == ordered[..pinned]
    ensures Optimal(m, ordered, pinned, count, Elements(picked))
    ensures RankKept(m, ordered, Elements(picked)) && RankHeld(m, ordered, Elements(picked))
    ensures NoZones(m, ordered) ==> picked == ordered[..count]
  {
    picked := [];
    var used := {};
    assert Zones(m, Elements(picked)) == {};
    for i := 0 to pinned
      invariant picked == ordered[..i] && Picking(m, ordered, picked, used)
    {
      assert ordered[i] !in ordered[..i];
      picked, used := Take(m, ordered, picked, used, ordered[i]);
    }
    assert picked == ordered[..pinned];
    ghost var seen;
    picked, used, seen := FillZones(m, ordered, pinned, count, used);
    ghost var core := picked;
    picked := FillUp(m, ordered, pinned, count, picked, used);
    FilledOptimal(m, ordered, pinned, count, seen, core, picked);
    ShadedGrows(m, ordered, Elements(core), Elements(picked), seen);
    RankHolds(m, ordered, Elements(picked), seen);
  }

  lemma FilledOptimal(
    m: Topology, ordered: seq<Node>, pinned: nat, count: nat, seen: nat, core: seq<Node>, picked: seq<Node>)
    requires NoRepeats(ordered) && NoRepeats(core) && NoRepeats(picked) && pinned <= count <= |ordered|
    requires Filled(m, ordered, pinned, seen, core) && |core| <= count && (|core| == count || seen == |ordered|)
    requires Elements(core) <= Elements(picked) <= Elements(ordered) && |picked| == count
    requires |core| == count ==> picked == core
    ensures Optimal(m, ordered, pinned, count, Elements(picked))
    ensures NoZones(m, ordered) ==> picked == ordered[..count]
  {
    DistinctSize(core);
    DistinctSize(picked);
    assert NoRepeats(ordered[..pinned]);
    DistinctSize(ordered[..pinned]);
    assert ordered[..|ordered|] == ordered;
    OptimalEither(m, ordered, pinned, count, Elements(core), Elements(picked));
  }

  /** The picks once the first i nodes were looked at: each beyond the pinned ones added a
      domain, and none that would add one was passed over. */
  ghost predicate Filled(m: Topology, ordered: seq<Node>, pinned: nat, i: nat, picked: seq<Node>) {
    && Counted(m, ordered, pinned, i, picked)
    && NoneMissed(m, ordered[..i], Elements(picked))
    && RankKept(m, ordered, Elements(picked))
    && ShadedBelow(m, ordered, Elements(picked), i)
    && (NoZones(m, ordered) ==> picked == ordered[..i])
  }

  ghost predicate Counted(m: Topology, ordered: seq<Node>, pinned: nat, i: nat, picked: seq<Node>) {
    && pinned <= i <= |ordered| && pinned <= |picked| && picked[..pinned] == ordered[..pinned]
    && Elements(ordered[..pinned]) <= Elements(picked) <= Elements(ordered[..i])
    && Domains(m, Elements(picked)) == Domains(m, Elements(ordered[..pinned])) + |picked| - pinned
  }

  lemma FilledPinned(m: Topology, ordered: seq<Node>, pinned: nat)
    requires NoRepeats(ordered) && pinned <= |ordered|
    ensures Filled(m, ordered, pinned, pinned, ordered[..pinned])
  {
    HeadRank(m, ordered, pinned);
    assert forall i | 0 <= i < pinned :: ordered[i] == ordered[..pinned][i];
  }

  lemma FilledTake(m: Topology, ordered: seq<Node>, pinned: nat, i: nat, picked: seq<Node>)
    requires NoRepeats(ordered) && Filled(m, ordered, pinned, i, picked) && i < |ordered|
    requires AddsDomain(m, Elements(picked), ordered[i])
    ensures ordered[i] !in picked && Filled(m, ordered, pinned, i + 1, picked + [ordered[i]])
  {
    CountedTake(m, ordered, pinned, i, picked);
    TakeRank(m, ordered, i, picked);
    TakeShaded(m, ordered, i, picked);
    HeadPush(ordered, i);
  }

  lemma TakeShaded(m: Topology, ordered: seq<Node>, i: nat, picked: seq<Node>)
    requires i < |ordered| && ShadedBelow(m, ordered, Elements(picked), i)
    ensures ShadedBelow(m, ordered, Elements(picked + [ordered[i]]), i + 1)
  {
    ElementsPush(picked, ordered[i]);
    ShadedGrows(m, ordered, Elements(picked), Elements(picked + [ordered[i]]), i);
  }

  lemma HeadPush(s: seq<Node>, i: nat)
    requires i < |s|
    ensures s[..i] + [s[i]] == s[..i + 1]
  {
  }

  lemma CountedTake(m: Topology, ordered: seq<Node>, pinned: nat, i: nat, picked: seq<Node>)
    requires NoRepeats(ordered) && Counted(m, ordered, pinned, i, picked) && i < |ordered|
    requires AddsDomain(m, Elements(picked), ordered[i])
    ensures ordered[i] !in picked && Counted(m, ordered, pinned, i + 1, picked + [ordered[i]])
  {
    PrefixFresh(ordered, i);
    NotYet(picked, ordered[i], ordered[..i]);
    ElementsPush(picked, ordered[i]);
    DomainsGrow(m, Elements(picked), ordered[i]);
    PushKeepsHead(picked, ordered[i], pinned);
  }

  lemma TakeRank(m: Topology, ordered: seq<Node>, i: nat, picked: seq<Node>)
    requires NoRepeats(ordered) && i < |ordered| && NoneMissed(m, ordered[..i], Elements(picked))
    requires RankKept(m, ordered, Elements(picked)) && AddsDomain(m, Elements(picked), ordered[i])
    ensures NoneMissed(m, ordered[..i + 1], Elements(picked + [ordered[i]]))
    ensures RankKept(m, ordered, Elements(picked + [ordered[i]]))
  {
    ElementsPush(picked, ordered[i]);
    FirstOfZone(m, ordered, i, Elements(picked));
    MissesNone(m, ordered, i, Elements(picked), Elements(picked + [ordered[i]]));
  }

  lemma NotYet(picked: seq<Node>, n: Node, seen: seq<Node>)
    requires Elements(picked) <= Elements(seen) && n !in Elements(seen)
    ensures n !in picked
  {
    assert forall x <- picked :: x in Elements(picked);
  }

  lemma PushKeepsHead(s: seq<Node>, x: Node, k: nat)
    requires k <= |s|
    ensures (s + [x])[..k] == s[..k]
  {
  }

  lemma FilledSkip(m: Topology, ordered: seq<Node>, pinned: nat, i: nat, picked: seq<Node>)
    requires NoRepeats(ordered) && Filled(m, ordered, pinned, i, picked) && i < |ordered|
    requires !AddsDomain(m, Elements(picked), ordered[i])
    ensures Filled(m, ordered, pinned, i + 1, picked)
  {
    PrefixFresh(ordered, i);
    MissesNone(m, ordered, i, Elements(picked), Elements(picked));
    UsedShades(m, ordered, Elements(picked), i);
    assert ZoneOf(m, ordered[i]) != "";
  }

  /** Nodes that each add a domain, in rank order. */
  method FillZones(m: Topology, ordered: seq<Node>, pinned: nat, count: nat, zones: set<string>)
    returns (picked: seq<Node>, used: set<string>, ghost seen: nat)
    requires NoRepeats(ordered) && pinned <= count <= |ordered|
    requires Picking(m, ordered, ordered[..pinned], zones)
    ensures Picking(m, ordered, picked, used) && Filled(m, ordered, pinned, seen, picked)
    ensures |picked| <= count && (|picked| == count || seen == |ordered|)
  {
    picked, used := ordered[..pinned], zones;
    var i := pinned;
    FilledPinned(m, ordered, pinned);
    while i < |ordered| && |picked| < count
      invariant Picking(m, ordered, picked, used) && Filled(m, ordered, pinned, i, picked) && |picked| <= count
    {
      if ZoneOf(m, ordered[i]) == "" || ZoneOf(m, ordered[i]) !in used {
        FilledTake(m, ordered, pinned, i, picked);
        picked, used := Take(m, ordered, picked, used, ordered[i]);
      } else {
        FilledSkip(m, ordered, pinned, i, picked);
      }
      i := i + 1;
    }
    seen := i;
  }

  /** Every node of a list is in the set or would add no domain to it. */
  ghost predicate NoneMissed(m: Topology, nodes: seq<Node>, s: set<Node>) {
    forall n <- nodes :: n in s || !AddsDomain(m, s, n)
  }

  lemma PrefixFresh(ordered: seq<Node>, i: nat)
    requires NoRepeats(ordered) && i < |ordered|
    ensures ordered[i] !in Elements(ordered[..i]) && Elements(ordered[..i + 1]) == Elements(ordered[..i]) + {ordered[i]}
  {
    assert ordered[..i + 1] == ordered[..i] + [ordered[i]];
  }

  lemma MissesNone(m: Topology, ordered: seq<Node>, i: nat, before: set<Node>, s: set<Node>)
    requires i < |ordered| && NoneMissed(m, ordered[..i], before) && before <= s
    requires ordered[i] in s || !AddsDomain(m, s, ordered[i])
    ensures NoneMissed(m, ordered[..i + 1], s)
  {
    assert ordered[..i + 1] == ordered[..i] + [ordered[i]];
    forall n | n in ordered[..i] ensures n in s || !AddsDomain(m, s, n) {
      assert Zones(m, before) <= Zones(m, s);
    }
  }

  lemma HeadRank(m: Topology, ordered: seq<Node>, k: nat)
    requires NoRepeats(ordered) && k <= |ordered|
    ensures RankKept(m, ordered, Elements(ordered[..k])) && NoneMissed(m, ordered[..k], Elements(ordered[..k]))
  {
    forall i, j | 0 <= i < j < |ordered| && ordered[j] in Elements(ordered[..k])
      ensures ordered[i] in Elements(ordered[..k])
    {
      var l :| 0 <= l < k && ordered[..k][l] == ordered[j];
      assert ordered[..k][i] == ordered[i];
    }
  }

  lemma FirstOfZone(m: Topology, ordered: seq<Node>, i: nat, before: set<Node>)
    requires NoRepeats(ordered) && i < |ordered| && RankKept(m, ordered, before)
    requires NoneMissed(m, ordered[..i], before) && AddsDomain(m, before, ordered[i])
    ensures RankKept(m, ordered, before + {ordered[i]})
  {
    forall k | 0 <= k < i && ZoneOf(m, ordered[k]) == ZoneOf(m, ordered[i])
      ensures ordered[k] in before
    {
      assert ordered[..i][k] == ordered[k];
      assert AddsDomain(m, before, ordered[k]);
    }
  }

  /** Leftovers in rank order, once the zones run short. */
  method FillUp(m: Topology, ordered: seq<Node>, pinned: nat, count: nat, picks: seq<Node>, zones: set<string>)
    returns (picked: seq<Node>)
    requires NoRepeats(ordered) && pinned <= count <= |ordered| && pinned <= |picks| <= count
    requires Picking(m, ordered, picks, zones) && picks[..pinned] == ordered[..pinned]
    requires RankKept(m, ordered, Elements(picks))
    ensures |picked| == count && NoRepeats(picked) && Elements(picks) <= Elements(picked) <= Elements(ordered)
    ensures picked[..pinned] == ordered[..pinned]
    ensures RankKept(m, ordered, Elements(picked)) && (|picks| == count ==> picked == picks)
  {
    var used := zones;
    picked := picks;
    var i := pinned;
    while i < |ordered| && |picked| < count
      invariant pinned <= i <= |ordered| && |picks| <= |picked| <= count && picked[..pinned] == ordered[..pinned]
      invariant Picking(m, ordered, picked, used) && Elements(picks) <= Elements(picked)
      invariant forall k | 0 <= k < i :: ordered[k] in picked
      invariant RankKept(m, ordered, Elements(picked)) && (|picks| == count ==> picked == picks)
    {
      if ordered[i] !in picked {
        picked, used := Take(m, ordered, picked, used, ordered[i]);
      }
      i := i + 1;
    }
    if |picked| < count {
      AllPicked(ordered, picked);
    }
  }

  lemma AllPicked(ordered: seq<Node>, picked: seq<Node>)
    requires NoRepeats(ordered) && forall k | 0 <= k < |ordered| :: ordered[k] in picked
    ensures |ordered| <= |picked|
  {
    DistinctSize(ordered);
    ElementsBound(picked);
    SubsetSize(Elements(ordered), Elements(picked));
  }
}
