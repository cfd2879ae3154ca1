/** Size arithmetic: rounding by bit masks, the room DRBD's internal metadata takes, and
    the size a backing device must have. */
module Sizes {

  // ----- masks -----

  /** x &^ m, bit by bit. */
  function BitClear(x: nat, m: nat): (r: nat)
    ensures r <= x
  {
    if x == 0 then 0 else 2 * BitClear(x / 2, m / 2) + if m % 2 == 1 then 0 else x % 2
  }

  function Pow2(k: nat): (r: nat)
    ensures r >= 1
  {
    if k == 0 then 1 else 2 * Pow2(k - 1)
  }

  /** Clearing the low k bits leaves the multiple of 2^k at or below. */
  lemma {:induction false} ClearSplits(x: nat, k: nat) returns (q: nat)
    ensures BitClear(x, Pow2(k) - 1) == q * Pow2(k) && q * Pow2(k) <= x < q * Pow2(k) + Pow2(k)
  {
    if x == 0 {
      q := 0;
    } else if k == 0 {
      ClearNothing(x);
      q := x;
    } else {
      q := ClearSplits(x / 2, k - 1);
      ClearLowBit(x, Pow2(k - 1));
      Doubled(q, Pow2(k - 1));
    }
  }

  lemma ClearRoundsDown(x: nat, k: nat)
    ensures BitClear(x, Pow2(k) - 1) == x / Pow2(k) * Pow2(k)
  {
    var q := ClearSplits(x, k);
    Quotient(x, Pow2(k), q, x - q * Pow2(k));
  }

  lemma ClearLowBit(x: nat, p: nat)
    requires x > 0 && p >= 1
    ensures BitClear(x, 2 * p - 1) == 2 * BitClear(x / 2, p - 1)
  {
    assert (2 * p - 1) / 2 == p - 1 && (2 * p - 1) % 2 == 1;
  }

  lemma Doubled(q: nat, p: nat)
    ensures 2 * (q * p) == q * (2 * p)
  {
  }

  lemma {:induction false} ClearNothing(x: nat)
    ensures BitClear(x, 0) == x
  {
    if x != 0 {
      ClearNothing(x / 2);
    }
  }

  lemma Ordered(a: int, b: int, d: int)
    requires a < b && d > 0
    ensures a * d + d <= b * d
  {
    assert b * d == a * d + d + (b - a - 1) * d;
  }

  lemma Quotient(x: int, d: int, q: int, r: int)
    requires d > 0 && x == q * d + r && 0 <= r < d
    ensures x / d == q && x % d == r
  {
    var q1, r1 := x / d, x % d;
    DivMod(x, d);
    if q1 > q {
      Ordered(q, q1, d);
    } else if q1 < q {
      Ordered(q1, q, d);
    }
  }

  lemma DivMod(x: int, d: int)
    requires d > 0
    ensures x == x / d * d + x % d && 0 <= x % d < d
  {
  }

  ghost predicate IsPow2(b: nat) {
    exists k: nat :: b == Pow2(k)
  }

  /** A number clears none of its bits against its predecessor only as a power of two. */
  lemma {:induction false} OwnMask(b: nat)
    requires b >= 1
    ensures BitClear(b, b - 1) == b <==> IsPow2(b)
  {
    if b == 1 {
      assert b == Pow2(0);
    } else if b % 2 == 0 {
      OwnMask(b / 2);
      assert (b - 1) / 2 == b / 2 - 1;
      if k: nat :| b == Pow2(k) {
        assert b / 2 == Pow2(k - 1);
      }
      if k: nat :| b / 2 == Pow2(k) {
        assert b == Pow2(k + 1);
      }
    } else {
      ClearAll(b / 2);
      forall k: nat ensures b != Pow2(k) {
        if k > 0 {
          assert Pow2(k) % 2 == 0;
        }
      }
    }
  }

  lemma {:induction false} ClearAll(x: nat)
    ensures BitClear(x, x) == 0
  {
    if x != 0 {
      ClearAll(x / 2);
    }
  }

  // ----- alignment -----

  function AlignSize(sizeBytes: nat, blockSize: nat): nat
    requires blockSize >= 1
  {
    BitClear(sizeBytes + blockSize - 1, blockSize - 1)
  }

  ghost predicate LeastMultiple(r: nat, sizeBytes: nat, blockSize: nat)
    requires blockSize >= 1
  {
    r % blockSize == 0 && r >= sizeBytes && forall m: nat :: m % blockSize == 0 && m >= sizeBytes ==> r <= m
  }

  lemma RoundUp(x: nat, b: nat)
    requires b >= 1
    ensures LeastMultiple((x + b - 1) / b * b, x, b)
  {
    var r := (x + b - 1) / b * b;
    Quotient(r, b, (x + b - 1) / b, 0);
    assert r == x + b - 1 - (x + b - 1) % b;
    forall m: nat | m % b == 0 && m >= x ensures r <= m {
      if m < r {
        MultiplesApart(m, r, b);
      }
    }
  }

  lemma MultiplesApart(m: nat, n: nat, b: nat)
    requires b >= 1 && m % b == 0 && n % b == 0 && m < n
    ensures m + b <= n
  {
    var i, j := m / b, n / b;
    DivMod(m, b);
    DivMod(n, b);
    if j < i {
      Ordered(j, i, b);
    } else if i < j {
      Ordered(i, j, b);
    }
  }

  lemma AlignedByPow2(x: nat, k: nat)
    ensures LeastMultiple(AlignSize(x, Pow2(k)), x, Pow2(k))
  {
    ClearRoundsDown(x + Pow2(k) - 1, k);
    RoundUp(x, Pow2(k));
  }

  lemma LeastIsUnique(r: nat, s: nat, x: nat, b: nat)
    requires b >= 1 && LeastMultiple(r, x, b) && LeastMultiple(s, x, b)
    ensures r == s
  {
  }

  lemma LeastAboveOne(b: nat)
    requires b >= 1
    ensures LeastMultiple(b, 1, b)
  {
    RoundUp(1, b);
    Quotient(b, b, 1, 0);
    assert (1 + b - 1) / b * b == b;
  }

  /** Aligning one byte already gives the block away. */
  lemma OneByteTells(b: nat)
    requires b >= 1 && LeastMultiple(AlignSize(1, b), 1, b)
    ensures IsPow2(b)
  {
    LeastAboveOne(b);
    LeastIsUnique(AlignSize(1, b), b, 1, b);
    OwnMask(b);
  }

  ghost predicate AlignsEverySize(b: nat)
    requires b >= 1
  {
    forall x: nat :: LeastMultiple(AlignSize(x, b), x, b)
  }

  /** The mask trick yields the least block multiple at or above every size exactly when the
      block is a power of two. */
  lemma AlignSizeExactly(b: nat)
    requires b >= 1
    ensures AlignsEverySize(b) <==> IsPow2(b)
  {
    if k: nat :| b == Pow2(k) {
      forall x: nat ensures LeastMultiple(AlignSize(x, b), x, b) {
        AlignedByPow2(x, k);
      }
    }
    if AlignsEverySize(b) {
      OneByteTells(b);
    }
  }

  /** zfs set volsize, run only when the volume is smaller than asked for. */
  function ZfsResize(cur: nat, sizeBytes: nat, blockSize: nat): (r: nat)
    requires blockSize >= 1 && IsPow2(blockSize)
    ensures r >= cur && r >= sizeBytes && (cur >= sizeBytes ==> r == cur)
  {
    AlignSizeExactly(blockSize);
    if cur >= sizeBytes then cur else AlignSize(sizeBytes, blockSize)
  }

  // ----- metadata -----

  const MAX_PEERS := 7
  const MIB := 0x10_0000

  function InternalMetaOverhead(sizeBytes: nat): nat {
    var block, extent := 4096, 4 * MIB;
    var perPeer := BitClear(sizeBytes / 32768 + block, block - 1);
    var overhead := perPeer * (MAX_PEERS + 1) + 8 * MIB;
    BitClear(overhead + extent - 1, extent - 1)
  }

  lemma Block()
    ensures Pow2(12) == 4096 && Pow2(22) == 4 * MIB
  {
    assert Pow2(4) == 16;
    assert Pow2(8) == 16 * Pow2(4);
    assert Pow2(12) == 16 * Pow2(8);
    assert Pow2(16) == 16 * Pow2(12);
    assert Pow2(20) == 16 * Pow2(16);
    assert Pow2(22) == 4 * Pow2(20);
  }

  function PerPeer(sizeBytes: nat): nat {
    (sizeBytes / 32768 + 4096) / 4096 * 4096
  }

  lemma MaskBlock(x: nat)
    ensures BitClear(x, 4095) == x / 4096 * 4096
  {
    Block();
    ClearRoundsDown(x, 12);
  }

  lemma MaskExtent(x: nat)
    ensures BitClear(x, 4 * MIB - 1) == x / (4 * MIB) * (4 * MIB)
  {
    Block();
    ClearRoundsDown(x, 22);
  }

  lemma OverheadByDivision(sizeBytes: nat)
    ensures InternalMetaOverhead(sizeBytes) ==
      (PerPeer(sizeBytes) * 8 + 8 * MIB + 4 * MIB - 1) / (4 * MIB) * (4 * MIB)
  {
    MaskBlock(sizeBytes / 32768 + 4096);
    MaskExtent(PerPeer(sizeBytes) * 8 + 8 * MIB + 4 * MIB - 1);
  }

  lemma OverheadBounds(sizeBytes: nat)
    ensures var q := sizeBytes / 32768; var o := InternalMetaOverhead(sizeBytes);
      8 * q + 8 + 8 * MIB <= o <= 8 * q + 8 * 4096 + 12 * MIB
  {
    OverheadByDivision(sizeBytes);
  }

  /** A per-peer bitmap over a device: one bit per 4 KiB, rounded up to whole 4 KiB blocks. */
  function Bitmap(deviceBytes: nat): nat {
    var bits := (deviceBytes + 4095) / 4096;
    var bytes := (bits + 7) / 8;
    (bytes + 4095) / 4096 * 4096
  }

  lemma BitmapBound(deviceBytes: nat)
    ensures Bitmap(deviceBytes) <= deviceBytes / 32768 + 1 + 4095
  {
  }

  /** Metadata fits: a padded backing less seven bitmaps that cover the padding too, less
      1 MiB of superblock and activity log, still holds the nominal size. */
  lemma PaddingSuffices(sizeBytes: nat)
    ensures sizeBytes + InternalMetaOverhead(sizeBytes)
            - MAX_PEERS * Bitmap(sizeBytes + InternalMetaOverhead(sizeBytes)) - MIB >= sizeBytes
  {
    var o := InternalMetaOverhead(sizeBytes);
    OverheadBounds(sizeBytes);
    BitmapBound(sizeBytes + o);
    assert (sizeBytes + o) / 32768 <= sizeBytes / 32768 + o / 32768 + 1;
  }

  // ----- backing size -----

  /** What a diskful backing must realize for a spec size. */
  function BackingBytes(padded: bool, sizeBytes: nat): nat {
    if padded then sizeBytes + InternalMetaOverhead(sizeBytes) else sizeBytes
  }

  lemma BackingMonotone(padded: bool, a: nat, b: nat)
    requires a <= b
    ensures BackingBytes(padded, a) <= BackingBytes(padded, b)
    ensures a < b ==> BackingBytes(padded, a) < BackingBytes(padded, b)
  {
    if padded {
      OverheadMonotone(a, b);
    }
  }

  lemma OverheadMonotone(a: nat, b: nat)
    requires a <= b
    ensures InternalMetaOverhead(a) <= InternalMetaOverhead(b)
  {
    OverheadByDivision(a);
    OverheadByDivision(b);
    PerPeerMonotone(a, b);
    ExtentsMonotone(PerPeer(a), PerPeer(b));
  }

  lemma ExtentsMonotone(a: nat, b: nat)
    requires a <= b
    ensures (a * 8 + 8 * MIB + 4 * MIB - 1) / (4 * MIB) * (4 * MIB) <=
            (b * 8 + 8 * MIB + 4 * MIB - 1) / (4 * MIB) * (4 * MIB)
  {
    RoundingMonotone(a * 8 + 8 * MIB + 4 * MIB - 1, b * 8 + 8 * MIB + 4 * MIB - 1, 4 * MIB);
  }

  lemma PerPeerMonotone(a: nat, b: nat)
    requires a <= b
    ensures PerPeer(a) <= PerPeer(b)
  {
    assert a / 32768 <= b / 32768;
    RoundingMonotone(a / 32768 + 4096, b / 32768 + 4096, 4096);
  }

  lemma RoundingMonotone(a: nat, b: nat, d: nat)
    requires a <= b && d > 0
    ensures a / d * d <= b / d * d
  {
    DivMod(a, d);
    DivMod(b, d);
    if b / d < a / d {
      Ordered(b / d, a / d, d);
    } else if a / d < b / d {
      Ordered(a / d, b / d, d);
    }
  }

  const INT64_MAX := 0x7FFF_FFFF_FFFF_FFFF

  /** Every 64-bit sum behind a padded backing's size. */
  predicate Fits64(sizeBytes: nat) {
    && PerPeer(sizeBytes) * 8 + 8 * MIB + 4 * MIB - 1 <= INT64_MAX
    && BackingBytes(true, sizeBytes) <= INT64_MAX
  }

  /** The largest size whose padded backing a signed 64-bit integer holds. */
  const LARGEST_PADDED := 0x7FF8_007F_F77F_FFFF

  lemma PerPeerIs(sizeBytes: nat, q: nat, p: nat)
    requires 0 <= sizeBytes - 32768 * q < 32768 && 0 <= q + 4096 - 4096 * p < 4096
    ensures PerPeer(sizeBytes) == 4096 * p
  {
    Quotient(sizeBytes, 32768, q, sizeBytes - 32768 * q);
    Quotient(q + 4096, 4096, p, q + 4096 - 4096 * p);
  }

  /** The padding, from the quotients and remainders of its three divisions. */
  lemma OverheadIs(sizeBytes: nat, q: nat, p: nat, e: nat)
    requires 0 <= sizeBytes - 32768 * q < 32768 && 0 <= q + 4096 - 4096 * p < 4096
    requires 0 <= 32768 * p + 12 * MIB - 1 - 4 * MIB * e < 4 * MIB
    ensures InternalMetaOverhead(sizeBytes) == 4 * MIB * e
  {
    PerPeerIs(sizeBytes, q, p);
    var padded := 32768 * p + 12 * MIB - 1;
    Quotient(padded, 4 * MIB, e, padded - 4 * MIB * e);
    OverheadByDivision(sizeBytes);
  }

  lemma LargestFits(sizeBytes: nat)
    requires sizeBytes == LARGEST_PADDED
    ensures BackingBytes(true, sizeBytes) == INT64_MAX
  {
    OverheadIs(sizeBytes, 0xFFF0_00FF_EEFF, 0xF_FF00_0FFF, 0x1FFE_0022);
  }

  lemma SumsBelowBacking(sizeBytes: nat)
    requires BackingBytes(true, sizeBytes) <= INT64_MAX
    ensures Fits64(sizeBytes)
  {
    OverheadBounds(sizeBytes);
  }

  /** The sums behind a padded backing overflow exactly past that size. */
  lemma NoOverflow(sizeBytes: nat)
    ensures Fits64(sizeBytes) <==> sizeBytes <= LARGEST_PADDED
  {
    LargestFits(LARGEST_PADDED);
    if sizeBytes <= LARGEST_PADDED {
      BackingMonotone(true, sizeBytes, LARGEST_PADDED);
      SumsBelowBacking(sizeBytes);
    } else {
      BackingMonotone(true, LARGEST_PADDED, sizeBytes);
    }
  }
}
