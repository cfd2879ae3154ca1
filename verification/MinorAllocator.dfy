/** The allocator over the node's two records of minors, as it runs under its file lock. */
module MinorAllocator {
  import opened Minors

  class Allocator {
    var assign: map<Name, Minor>      // minor.assign
    var res: map<Name, Minor>         // each rendered config's first minor

    constructor (assign: map<Name, Minor>, res: map<Name, Minor>)
      ensures this.assign == assign && this.res == res
    {
      this.assign, this.res := assign, res;
    }

    method ScanUsed() returns (used: set<Minor>)
      ensures forall m :: m in used <==> Used(assign, res, m)
    {
      used := {};
      var left := assign.Keys;
      while left != {}
        invariant left <= assign.Keys
        invariant forall m :: m in used <==> exists n :: n in assign.Keys - left && assign[n] == m
      {
        var n :| n in left;
        used, left := used + {assign[n]}, left - {n};
      }
      ghost var recorded := used;
      assert forall m :: m in recorded <==> m in assign.Values;
      left := res.Keys;
      while left != {}
        invariant left <= res.Keys
        invariant forall m :: m in used <==> m in recorded || (exists n :: n in res.Keys - left && res[n] == m)
      {
        var n :| n in left;
        used, left := used + {res[n]}, left - {n};
      }
    }

    /** A recorded volume keeps its minor, a volume with only a config gets that one back on
        record, and a new one the lowest minor no record mentions. */
    method AllocateMinor(n: Name) returns (m: Minor)
      modifies `assign
      ensures assign == old(assign)[n := m]
      ensures if n in old(assign) then m == old(assign)[n]
              else if n in res then m == res[n]
              else LowestFree(old(assign), res, m)
    {
      if n in assign {
        return assign[n];
      }
      if n in res {
        assign := assign[n := res[n]];
        return res[n];
      }
      var used := ScanUsed();
      m := MINOR_BASE;
      ghost var above := used;
      while m in used
        invariant m >= MINOR_BASE && forall k | MINOR_BASE <= k < m :: k in used
        invariant above <= used && forall k <- used :: k >= m ==> k in above
        decreases |above|
      {
        above := above - {m};
        m := m + 1;
      }
      assign := assign[n := m];
    }

    method ReleaseMinor(n: Name)
      modifies `assign
      ensures assign == old(assign) - {n}
    {
      if n in assign {
        assign := assign - {n};
      }
    }

    /** Drops the assignments of volumes that are not owned, not in the kernel and have no
        rendered config, and no others. */
    method ReleaseOrphanedAssignments(owned: set<Name>, inKernel: set<Name>)
      modifies `assign
      ensures forall n :: n in assign <==> n in old(assign) && (n in owned || n in inKernel || n in res)
      ensures forall n <- assign :: assign[n] == old(assign)[n]
    {
      var left, kept := assign.Keys, assign;
      while left != {}
        invariant left <= assign.Keys && assign == old(assign)
        invariant forall n :: n in kept <==> n in assign && (n in left || n in owned || n in inKernel || n in res)
        invariant forall n <- kept :: kept[n] == assign[n]
      {
        var n :| n in left;
        left := left - {n};
        if n !in owned && n !in inKernel && n !in res {
          kept := kept - {n};
        }
      }
      assign := kept;
    }
  }
}
