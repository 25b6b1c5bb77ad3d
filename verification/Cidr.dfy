/**
 IPv4 ranges as CIDR blocks: the greedy decomposition the China-inbound firewall uses, what makes
 it right (exact cover), and what makes it best (no cover is shorter, never more than 62 blocks).
 Prefix notation follows section 3.1 of RFC 4632.
 */
module Cidr {

  /** 2^32, one past the last IPv4 address. */
  const SPACE: nat := 0x1_0000_0000

  function Pow2(n: nat): (p: nat)
    ensures p >= 1
  {
    if n == 0 then 1 else 2 * Pow2(n - 1)
  }

  /** The lowest k bits of x are zero. */
  predicate Aligned(x: nat, k: nat)
    decreases k
  {
    k == 0 || (x % 2 == 0 && Aligned(x / 2, k - 1))
  }

  /** A block of 2^blockBits addresses; the source stores 32 - blockBits as the prefix length. */
  datatype Prefix = Prefix(addr: nat, blockBits: nat) {
    function End(): (n: nat) {
      addr + Pow2(blockBits)
    }

    /** Equal to its own netip Masked(), and inside the IPv4 space. */
    predicate Masked() {
      blockBits <= 32 && Aligned(addr, blockBits) && End() <= SPACE
    }

    predicate Covers(x: nat) {
      addr <= x < End()
    }

    predicate Inside(lo: nat, hi: nat) {
      lo <= addr && End() <= hi
    }
  }

  /** bits.TrailingZeros32 with the source's special case: 32 for address zero. */
  function AlignmentBits(x: nat): (z: nat)
    decreases x
  {
    if x == 0 then 32 else if x % 2 == 1 then 0 else 1 + AlignmentBits(x / 2)
  }

  /** bits.Len64(x) - 1 for a non-zero argument. */
  function Log2(x: nat): (l: nat)
    requires x > 0
    decreases x
  {
    if x == 1 then 0 else 1 + Log2(x / 2)
  }

  lemma {:induction false} Pow2Monotone(a: nat, b: nat)
    requires a < b
    ensures 2 * Pow2(a) <= Pow2(b)
    decreases b
  {
    if a < b - 1 {
      Pow2Monotone(a, b - 1);
    }
  }

  /** Aligned is divisibility by the block size. */
  lemma {:induction false} AlignedIsMultiple(q: nat, k: nat)
    ensures Aligned(q * Pow2(k), k)
    decreases k
  {
    if k > 0 {
      var half := q * Pow2(k - 1);
      assert q * Pow2(k) == 2 * half;
      AlignedIsMultiple(q, k - 1);
    }
  }

  lemma {:induction false} AlignedMeans(x: nat, k: nat)
    ensures Aligned(x, k) <==> x % Pow2(k) == 0
    decreases k
  {
    if k > 0 {
      AlignedMeans(x / 2, k - 1);
      HalfMultiple(x, Pow2(k - 1));
    }
  }

  lemma HalfMultiple(x: nat, p: nat)
    requires p >= 1
    ensures x % (2 * p) == 0 <==> x % 2 == 0 && x / 2 % p == 0
  {
    if x % (2 * p) == 0 {
      var q := x / (2 * p);
      assert x == 2 * (p * q);
      MultipleOf(p, q);
    }
    if x % 2 == 0 && x / 2 % p == 0 {
      var q := x / 2 / p;
      assert x == (2 * p) * q;
      MultipleOf(2 * p, q);
    }
  }

  lemma {:induction false} MultipleOf(p: nat, q: nat)
    requires p >= 1
    ensures (p * q) % p == 0
    decreases q
  {
    if q > 0 {
      MultipleOf(p, q - 1);
      assert p * q == p * (q - 1) + p;
      OneMore(p * (q - 1), p);
    }
  }

  lemma Scaled(p: int, off: int)
    requires p >= 1
    ensures off >= 1 ==> p * off >= p
    ensures off <= -1 ==> p * off <= -p
  {
  }

  lemma OneMore(a: nat, p: nat)
    requires p >= 1
    ensures (a + p) % p == a % p
  {
    var q, r, d, e := (a + p) / p, (a + p) % p, a / p, a % p;
    var off := d + 1 - q;
    assert p * off == r - e;
    Scaled(p, off);
  }

  lemma {:induction false} AlignedZero(k: nat)
    ensures Aligned(0, k)
  {
    if k > 0 {
      AlignedZero(k - 1);
    }
  }

  lemma {:induction false} AlignedWeaken(x: nat, i: nat, j: nat)
    requires i <= j && Aligned(x, j)
    ensures Aligned(x, i)
    decreases i
  {
    if i > 0 {
      AlignedWeaken(x / 2, i - 1, j - 1);
    }
  }

  /** Distinct starts of equal blocks are at least one block apart. */
  lemma {:induction false} AlignedApart(a: nat, b: nat, k: nat)
    requires Aligned(a, k) && Aligned(b, k) && a < b
    ensures a + Pow2(k) <= b
    decreases k
  {
    if k > 0 {
      AlignedApart(a / 2, b / 2, k - 1);
    }
  }

  lemma {:induction false} AlignedNext(x: nat, k: nat)
    requires Aligned(x, k)
    ensures Aligned(x + Pow2(k), k)
    ensures x > 0 && AlignmentBits(x) == k ==> Aligned(x + Pow2(k), k + 1)
    decreases k
  {
    if k > 0 {
      AlignedNext(x / 2, k - 1);
      assert (x + Pow2(k)) / 2 == x / 2 + Pow2(k - 1);
    } else if x > 0 && AlignmentBits(x) == 0 {
      assert x % 2 == 1;
      assert Aligned((x + 1) / 2, 0);
    }
  }

  /** AlignmentBits is the largest block an address can start. */
  lemma {:induction false} AlignmentBitsSpec(x: nat, k: nat)
    requires x < SPACE && k <= 32
    ensures Aligned(x, k) <==> k <= AlignmentBits(x)
    decreases k
  {
    if x == 0 {
      AlignedZero(k);
    } else if k > 0 && x % 2 == 0 {
      AlignmentBitsSpec(x / 2, k - 1);
    }
  }

  /** Log2 is the largest block that fits into x addresses. */
  lemma {:induction false} Log2Spec(x: nat, k: nat)
    requires x > 0
    ensures Pow2(k) <= x <==> k <= Log2(x)
    decreases x
  {
    if x > 1 && k > 0 {
      Log2Spec(x / 2, k - 1);
    } else if k > 0 {
      assert Pow2(k) >= 2;
    }
  }

  /** Two aligned blocks that share an address are nested. */
  lemma Nested(p: Prefix, q: Prefix, x: nat)
    requires Aligned(p.addr, p.blockBits) && Aligned(q.addr, q.blockBits) && p.blockBits <= q.blockBits
    requires p.Covers(x) && q.Covers(x)
    ensures p.Inside(q.addr, q.End())
  {
    AlignedWeaken(q.addr, p.blockBits, q.blockBits);
    if p.addr < q.addr {
      AlignedApart(p.addr, q.addr, p.blockBits);
      assert false;
    }
    EndAligned(q.addr, p.blockBits, q.blockBits);
    AlignedApart(p.addr, q.End(), p.blockBits);
  }

  lemma {:induction false} EndAligned(x: nat, i: nat, j: nat)
    requires i <= j && Aligned(x, j)
    ensures Aligned(x + Pow2(j), i)
    decreases i
  {
    AlignedNext(x, j);
    AlignedWeaken(x + Pow2(j), i, j);
  }

  lemma SpaceIsPow2()
    ensures Pow2(32) == SPACE && Pow2(31) == 0x8000_0000 && Pow2(30) == 0x4000_0000
  {
    assert Pow2(8) == 256;
    assert Pow2(16) == 65536;
    assert Pow2(24) == 16777216;
  }
}
