/**
 panel/cmd/agent/china_firewall.go: the greedy range decomposition, and the prefix lists built from
 the registry that must still be accepted when read back from the cache.
 */
module ChinaPrefixes {
  import opened Cidr

  function BlockAt(current: nat, remaining: nat): (b: nat)
    requires 0 < remaining
  {
    if Log2(remaining) < AlignmentBits(current) then Log2(remaining) else AlignmentBits(current)
  }

  /** What the loop returns from `current` on. */
  function Greedy(current: nat, remaining: nat): (ps: seq<Prefix>)
    requires current + remaining <= SPACE
    decreases remaining
  {
    if remaining == 0 then [] else
      var b := BlockAt(current, remaining);
      Log2Spec(remaining, b);
      [Prefix(current, b)] + Greedy(current + Pow2(b), remaining - Pow2(b))
  }

  /** `ipv4RangePrefixes`; nil is []. The assertions say that no uint64 wraps and that the uint32
      conversions lose nothing. */
  method Ipv4RangePrefixes(start: nat, count: nat) returns (result: seq<Prefix>)
    requires start < SPACE && count < SPACE * SPACE
    ensures result == if count == 0 || start + count > SPACE then [] else Greedy(start, count)
  {
    hide Greedy, AlignmentBits, Log2, Pow2;
    var current: nat := start;
    if count == 0 || count > SPACE - current {
      return [];
    }
    result := [];
    var remaining: nat := count;
    while remaining > 0
      invariant current + remaining == start + count && start + count <= SPACE
      invariant result + Greedy(current, remaining) == Greedy(start, count)
    {
      assert current < SPACE;
      var alignmentBits := AlignmentBits(current);
      var remainingBits := Log2(remaining);
      var blockBits := alignmentBits;
      if remainingBits < blockBits {
        blockBits := remainingBits;
      }
      GreedyStep(current, remaining, blockBits);
      assert current + Pow2(blockBits) <= SPACE;
      result := result + [Prefix(current, blockBits)];
      current := current + Pow2(blockBits);
      remaining := remaining - Pow2(blockBits);
    }
    GreedyNothing(current);
  }

  lemma GreedyNothing(current: nat)
    requires current <= SPACE
    ensures Greedy(current, 0) == []
  {
  }

  lemma GreedyStep(current: nat, remaining: nat, b: nat)
    requires 0 < remaining && current + remaining <= SPACE && b == BlockAt(current, remaining)
    ensures Pow2(b) <= remaining
    ensures Greedy(current, remaining) == [Prefix(current, b)] + Greedy(current + Pow2(b), remaining - Pow2(b))
  {
    Log2Spec(remaining, b);
  }

  /** One after another without a gap, from lo to hi. */
  predicate Tiles(ps: seq<Prefix>, lo: nat, hi: nat) {
    if ps == [] then lo == hi else ps[0].addr == lo && Tiles(ps[1..], ps[0].End(), hi)
  }

  lemma BlockIsMasked(current: nat, remaining: nat)
    requires 0 < remaining && current + remaining <= SPACE
    ensures Prefix(current, BlockAt(current, remaining)).Masked()
    ensures Prefix(current, BlockAt(current, remaining)).End() <= current + remaining
  {
    var b := BlockAt(current, remaining);
    Log2Spec(remaining, b);
    SpaceIsPow2();
    if b > 32 {
      Pow2Monotone(32, b);
      assert false;
    }
    AlignmentBitsSpec(current, b);
  }

  lemma {:induction false} GreedyTiles(current: nat, remaining: nat)
    requires current + remaining <= SPACE
    ensures Tiles(Greedy(current, remaining), current, current + remaining)
    ensures forall p :: p in Greedy(current, remaining) ==> p.Masked() && p.Inside(current, current + remaining)
    decreases remaining
  {
    if remaining > 0 {
      var b := BlockAt(current, remaining);
      BlockIsMasked(current, remaining);
      Log2Spec(remaining, b);
      GreedyTiles(current + Pow2(b), remaining - Pow2(b));
    }
  }

  lemma {:induction false} TilesAscend(ps: seq<Prefix>, lo: nat, hi: nat)
    requires Tiles(ps, lo, hi)
    ensures lo <= hi
    ensures forall p :: p in ps ==> p.Inside(lo, hi)
    ensures forall i, j :: 0 <= i < j < |ps| ==> ps[i].End() <= ps[j].addr
  {
    if ps != [] {
      TilesAscend(ps[1..], ps[0].End(), hi);
      forall p | p in ps
        ensures p.Inside(lo, hi)
      {
        assert p == ps[0] || p in ps[1..];
      }
    }
  }

  lemma {:induction false} TilesCover(ps: seq<Prefix>, lo: nat, hi: nat, x: nat)
    requires Tiles(ps, lo, hi) && lo <= x < hi
    ensures exists p :: p in ps && p.Covers(x)
  {
    if x < ps[0].End() {
      assert ps[0].Covers(x);
    } else {
      TilesCover(ps[1..], ps[0].End(), hi, x);
    }
  }

  ghost predicate Covered(blocks: set<Prefix>, x: nat) {
    exists p :: p in blocks && p.Covers(x)
  }

  /** Blocks whose union is exactly [lo, hi), in any order, overlapping or not. */
  ghost predicate IsCover(blocks: set<Prefix>, lo: nat, hi: nat) {
    && (forall p :: p in blocks ==> p.Masked())
    && forall x: nat :: Covered(blocks, x) <==> lo <= x < hi
  }

  function Blocks(ps: seq<Prefix>): (s: set<Prefix>) {
    set p | p in ps
  }

  /** Exact cover: masked, ascending, pairwise disjoint, and together exactly the range. */
  lemma ExactCover(start: nat, count: nat)
    requires start + count <= SPACE
    ensures IsCover(Blocks(Greedy(start, count)), start, start + count)
    ensures forall i, j :: 0 <= i < j < |Greedy(start, count)| ==> Greedy(start, count)[i].End() <= Greedy(start, count)[j].addr
  {
    var ps := Greedy(start, count);
    GreedyTiles(start, count);
    TilesAscend(ps, start, start + count);
    forall x: nat
      ensures Covered(Blocks(ps), x) <==> start <= x < start + count
    {
      if start <= x < start + count {
        TilesCover(ps, start, start + count, x);
        var p :| p in ps && p.Covers(x);
        assert p in Blocks(ps);
      }
    }
  }

  /** No block of the range reaches across `current`. */
  ghost predicate NoStraddle(lo: nat, current: nat, hi: nat) {
    forall q: Prefix :: q.Masked() && q.Inside(lo, hi) && q.addr < current ==> q.End() <= current
  }

  /** No larger block of the range contains p. */
  ghost predicate Maximal(p: Prefix, lo: nat, hi: nat) {
    && p.Masked() && p.Inside(lo, hi)
    && forall q: Prefix :: q.Masked() && q.Inside(lo, hi) && p.Inside(q.addr, q.End()) ==> q == p
  }

  /** A block that starts at `current` and stays in the range is no larger than the greedy one. */
  lemma GreedyBlockLargest(q: Prefix, current: nat, remaining: nat)
    requires q.Masked() && q.addr == current && 0 < remaining && q.End() <= current + remaining <= SPACE
    ensures q.blockBits <= BlockAt(current, remaining)
  {
    AlignmentBitsSpec(current, q.blockBits);
    Log2Spec(remaining, q.blockBits);
  }

  lemma SizeDecides(p: Prefix, q: Prefix)
    requires p.addr == q.addr && q.blockBits < p.blockBits
    ensures q.End() < p.End()
  {
    Pow2Monotone(q.blockBits, p.blockBits);
  }

  lemma GreedyStepMaximal(lo: nat, current: nat, remaining: nat)
    requires lo <= current && 0 < remaining && current + remaining <= SPACE
    requires NoStraddle(lo, current, current + remaining)
    ensures Maximal(Prefix(current, BlockAt(current, remaining)), lo, current + remaining)
    ensures NoStraddle(lo, Prefix(current, BlockAt(current, remaining)).End(), current + remaining)
  {
    var hi := current + remaining;
    var p := Prefix(current, BlockAt(current, remaining));
    BlockIsMasked(current, remaining);
    forall q: Prefix | q.Masked() && q.Inside(lo, hi) && p.Inside(q.addr, q.End())
      ensures q == p
    {
      if q.addr == current {
        GreedyBlockLargest(q, current, remaining);
        if q.blockBits < p.blockBits {
          SizeDecides(p, q);
        }
      }
    }
    forall q: Prefix | q.Masked() && q.Inside(lo, hi) && q.addr < p.End()
      ensures q.End() <= p.End()
    {
      if q.addr >= current {
        if q.blockBits <= p.blockBits {
          Nested(q, p, q.addr);
        } else {
          Nested(p, q, q.addr);
        }
      }
    }
  }

  lemma {:induction false} GreedyMaximal(lo: nat, current: nat, remaining: nat)
    requires lo <= current && current + remaining <= SPACE
    requires NoStraddle(lo, current, current + remaining)
    ensures forall p :: p in Greedy(current, remaining) ==> Maximal(p, lo, current + remaining)
    decreases remaining
  {
    if remaining > 0 {
      var b := BlockAt(current, remaining);
      GreedyStepMaximal(lo, current, remaining);
      Log2Spec(remaining, b);
      GreedyMaximal(lo, current + Pow2(b), remaining - Pow2(b));
    }
  }

  /** The result is exactly the set of maximal aligned blocks inside the range. */
  lemma ExactlyTheMaximalBlocks(start: nat, count: nat, q: Prefix)
    requires start + count <= SPACE
    ensures q in Greedy(start, count) <==> Maximal(q, start, start + count)
  {
    GreedyMaximal(start, start, count);
    if Maximal(q, start, start + count) {
      ExactCover(start, count);
      assert Covered(Blocks(Greedy(start, count)), q.addr);
      var p :| p in Greedy(start, count) && p.Covers(q.addr);
      if p.blockBits <= q.blockBits {
        Nested(p, q, q.addr);
      } else {
        Nested(q, p, q.addr);
      }
    }
  }

  lemma CoverStaysInside(cover: set<Prefix>, lo: nat, hi: nat, p: Prefix)
    requires IsCover(cover, lo, hi) && p in cover
    ensures p.Inside(lo, hi)
  {
    assert p.Covers(p.addr) && p.Covers(p.End() - 1);
    assert Covered(cover, p.addr) && Covered(cover, p.End() - 1);
  }

  lemma {:induction false} MaximalBlocksNeedTheirOwn(ps: seq<Prefix>, cover: set<Prefix>, lo: nat, hi: nat)
    requires forall p :: p in ps ==> Maximal(p, lo, hi)
    requires forall i, j :: 0 <= i < j < |ps| ==> ps[i].End() <= ps[j].addr
    requires forall c :: c in cover ==> c.Masked() && c.Inside(lo, hi)
    requires forall p :: p in ps ==> exists c :: c in cover && c.Covers(p.addr)
    ensures |ps| <= |cover|
  {
    if ps != [] {
      var first := ps[0];
      var c :| c in cover && c.Covers(first.addr);
      if first.blockBits <= c.blockBits {
        Nested(first, c, first.addr);
      } else {
        Nested(c, first, first.addr);
      }
      assert c.End() <= first.End();
      forall p | p in ps[1..]
        ensures exists d :: d in cover - {c} && d.Covers(p.addr)
      {
        var d :| d in cover && d.Covers(p.addr);
        assert d != c;
      }
      MaximalBlocksNeedTheirOwn(ps[1..], cover - {c}, lo, hi);
    }
  }

  /** Minimality: no set of CIDR blocks with exactly this union is smaller. */
  lemma NoShorterCover(start: nat, count: nat, cover: set<Prefix>)
    requires start + count <= SPACE && IsCover(cover, start, start + count)
    ensures |Greedy(start, count)| <= |cover|
  {
    GreedyMaximal(start, start, count);
    ExactCover(start, count);
    var ps := Greedy(start, count);
    forall c | c in cover
      ensures c.Masked() && c.Inside(start, start + count)
    {
      CoverStaysInside(cover, start, start + count, c);
    }
    forall p | p in ps
      ensures exists c :: c in cover && c.Covers(p.addr)
    {
      assert p.Covers(p.addr) && p in Blocks(ps);
      assert Covered(Blocks(ps), p.addr) && Covered(cover, p.addr);
    }
    MaximalBlocksNeedTheirOwn(ps, cover, start, start + count);
  }

  /** The block taken there is the largest that fits, and leaves less than itself. */
  lemma DescendingBlock(current: nat, remaining: nat, k: nat)
    requires current < SPACE && k <= 32 && 0 < remaining < Pow2(k) && Aligned(current, k)
    ensures BlockAt(current, remaining) < k && Pow2(BlockAt(current, remaining)) <= remaining
    ensures remaining - Pow2(BlockAt(current, remaining)) < Pow2(BlockAt(current, remaining))
    ensures Aligned(current + Pow2(BlockAt(current, remaining)), BlockAt(current, remaining))
  {
    var b := BlockAt(current, remaining);
    AlignmentBitsSpec(current, k);
    Log2Spec(remaining, k);
    Log2Spec(remaining, b);
    Log2Spec(remaining, b + 1);
    AlignedWeaken(current, b, k);
    AlignedNext(current, b);
    hide Aligned, AlignmentBits, Log2;
    assert Pow2(b + 1) == 2 * Pow2(b);
  }

  /** From an address aligned to 2^k, fewer than 2^k addresses take at most k blocks. */
  lemma {:induction false} DescendingPart(current: nat, remaining: nat, k: nat)
    requires current + remaining <= SPACE && k <= 32 && current < SPACE
    requires Aligned(current, k) && remaining < Pow2(k)
    ensures |Greedy(current, remaining)| <= k
    decreases remaining
  {
    if remaining == 0 {
      GreedyNothing(current);
    } else {
      hide Greedy, Aligned, AlignmentBits, Log2;
      var b := BlockAt(current, remaining);
      DescendingBlock(current, remaining, k);
      GreedyStep(current, remaining, b);
      if remaining > Pow2(b) {
        DescendingPart(current + Pow2(b), remaining - Pow2(b), b);
      } else {
        GreedyNothing(current + Pow2(b));
      }
    }
  }

  /** A block of half the space above zero ends the range. */
  lemma PeakBlock(current: nat, remaining: nat)
    requires 0 < current && current + remaining <= SPACE && remaining > 0
    requires Aligned(current, 31) && BlockAt(current, remaining) == 31
    ensures |Greedy(current, remaining)| == 1
  {
    GreedyStep(current, remaining, 31);
    AtLeastOneBlock(current, 31);
    SpaceIsPow2();
  }

  /** Before the peak every block doubles the alignment, so from alignment k there are at most
      31 - k more; after the peak at most 31. */
  lemma {:induction false} AscendingPart(current: nat, remaining: nat, k: nat)
    requires 0 < current && current + remaining <= SPACE && k <= 31 && Aligned(current, k)
    ensures |Greedy(current, remaining)| <= (31 - k) + 31
    decreases remaining
  {
    if remaining > 0 {
      hide Greedy, Aligned;
      var a := AlignmentBits(current);
      AlignmentBelowSpace(current);
      AlignmentBitsSpec(current, k);
      AlignmentBitsSpec(current, a);
      Log2Spec(remaining, a);
      if remaining < Pow2(a) {
        DescendingPart(current, remaining, a);
      } else if a < 31 {
        AlignedNext(current, a);
        GreedyStep(current, remaining, a);
        AscendingPart(current + Pow2(a), remaining - Pow2(a), a + 1);
      } else {
        PeakBlock(current, remaining);
      }
    }
  }

  lemma AlignmentBelowSpace(current: nat)
    requires 0 < current < SPACE
    ensures AlignmentBits(current) <= 31
  {
    SpaceIsPow2();
    AlignmentBitsSpec(current, 32);
    AtLeastOneBlock(current, 32);
  }

  lemma AtLeastOneBlock(x: nat, k: nat)
    requires x > 0
    ensures Aligned(x, k) ==> x >= Pow2(k)
  {
    if Aligned(x, k) {
      AlignedZero(k);
      AlignedApart(0, x, k);
    }
  }

  /** The size bound, for every range. */
  lemma AtMost62(start: nat, count: nat)
    requires start + count <= SPACE
    ensures |Greedy(start, count)| <= 62
  {
    SpaceIsPow2();
    if start > 0 {
      AscendingPart(start, count, 0);
    } else if count == SPACE {
      Log2Spec(count, 32);
      BlockIsMasked(0, count);
      assert Greedy(0, count) == [Prefix(0, 32)] + Greedy(SPACE, 0);
    } else {
      AlignedZero(32);
      DescendingPart(0, count, 32);
    }
  }

  lemma {:induction false} DescendingExact(current: nat, k: nat)
    requires k <= 32 && Aligned(current, k) && current + Pow2(k) <= SPACE
    ensures |Greedy(current, Pow2(k) - 1)| == k
    decreases k
  {
    if k > 0 {
      var remaining := Pow2(k) - 1;
      AlignmentBitsSpec(current, k);
      Log2Spec(remaining, k - 1);
      Log2Spec(remaining, k);
      assert BlockAt(current, remaining) == k - 1;
      AlignedWeaken(current, k - 1, k);
      AlignedNext(current, k - 1);
      DescendingExact(current + Pow2(k - 1), k - 1);
    }
  }

  lemma {:induction false} PowerAlignment(k: nat)
    ensures AlignmentBits(Pow2(k)) == k
  {
    if k > 0 {
      PowerAlignment(k - 1);
    }
  }

  lemma BelowPeak(k: nat)
    requires k <= 31
    ensures Pow2(k) <= 0x8000_0000 && (k < 31 ==> Pow2(k) <= 0x4000_0000)
  {
    SpaceIsPow2();
    if k < 30 {
      Pow2Monotone(k, 30);
    }
  }

  lemma AscendingStep(k: nat)
    requires k < 31 && Pow2(k) <= 0x4000_0000
    ensures Greedy(Pow2(k), SPACE - 1 - Pow2(k)) == [Prefix(Pow2(k), k)] + Greedy(Pow2(k + 1), SPACE - 1 - Pow2(k + 1))
  {
    PowerAlignment(k);
    Log2Spec(SPACE - 1 - Pow2(k), k);
    assert BlockAt(Pow2(k), SPACE - 1 - Pow2(k)) == k;
  }

  lemma {:induction false} AscendingExact(k: nat)
    requires k <= 31 && Pow2(k) <= 0x8000_0000
    ensures |Greedy(Pow2(k), SPACE - 1 - Pow2(k))| == (31 - k) + 31
    decreases 31 - k
  {
    if k == 31 {
      SpaceIsPow2();
      AlignedIsMultiple(1, k);
      DescendingExact(Pow2(31), 31);
    } else {
      BelowPeak(k);
      BelowPeak(k + 1);
      AscendingStep(k);
      AscendingExact(k + 1);
    }
  }

  /** The bound is met: 0.0.0.1 to 255.255.255.254 takes 62 blocks. */
  lemma SixtyTwoIsReached()
    ensures |Greedy(1, SPACE - 2)| == 62
  {
    AscendingExact(0);
  }
}
