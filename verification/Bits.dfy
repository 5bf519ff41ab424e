/** The unsigned bit operations uthash.h uses, as arithmetic on naturals. */
module Bits {

  function Pow2(k: nat): (p: nat)
    ensures p > 0
  {
    if k == 0 then 1 else 2 * Pow2(k - 1)
  }

  /** a & b. */
  function BitAnd(a: nat, b: nat): (r: nat)
    ensures r <= a && r <= b
  {
    if a == 0 || b == 0 then 0
    else 2 * BitAnd(a / 2, b / 2) + (a % 2) * (b % 2)
  }

  /** a >> k. */
  function Shr(a: nat, k: nat): nat {
    if k == 0 then a else Shr(a / 2, k - 1)
  }

  /** HASH_TO_BKT. */
  function Slot(hashv: nat, numBuckets: nat): (b: nat)
    requires numBuckets > 0
    ensures b < numBuckets
  {
    BitAnd(hashv, numBuckets - 1)
  }

  lemma OddMask(a: nat, p: nat)
    requires a > 0 && p > 0
    ensures BitAnd(a, 2 * p - 1) == 2 * BitAnd(a / 2, p - 1) + a % 2
  {
    assert (2 * p - 1) / 2 == p - 1 && (2 * p - 1) % 2 == 1;
  }

  lemma MaskBase(a: nat, k: nat)
    requires a == 0 || k == 0
    ensures BitAnd(a, Pow2(k) - 1) == a % Pow2(k)
  {
    if a == 0 {
      DivMod(0, Pow2(k), 0, 0);
    }
  }

  /** Masking with a power of two less one is the remainder. */
  lemma {:induction false} MaskIsMod(a: nat, k: nat)
    ensures BitAnd(a, Pow2(k) - 1) == a % Pow2(k)
  {
    hide BitAnd;
    if a == 0 || k == 0 {
      MaskBase(a, k);
    } else {
      var p := Pow2(k - 1);
      assert Pow2(k) == 2 * p;
      MaskIsMod(a / 2, k - 1);
      OddMask(a, p);
      DoubleMod(a, p);
    }
  }

  /** Shifting is dividing by a power of two. */
  lemma {:induction false} ShrIsDiv(a: nat, k: nat)
    ensures Shr(a, k) == a / Pow2(k)
  {
    if k == 0 {
    } else {
      ShrIsDiv(a / 2, k - 1);
      DoubleMod(a, Pow2(k - 1));
    }
  }

  lemma DoubleMod(a: nat, p: nat)
    requires p > 0
    ensures a % (2 * p) == 2 * (a / 2 % p) + a % 2
    ensures a / (2 * p) == a / 2 / p
  {
    var q, r := a / 2 / p, a / 2 % p;
    assert a / 2 == p * q + r;
    assert a == (2 * p) * q + (2 * r + a % 2) by {
      assert 2 * (p * q) == (2 * p) * q;
    }
    DivMod(a, 2 * p, q, 2 * r + a % 2);
  }

  lemma MulBound(d: int, e: int)
    requires d > 0
    ensures e > 0 ==> d * e >= d
    ensures e < 0 ==> d * e <= -d
  {
  }

  lemma DivMod(a: nat, d: nat, q: nat, r: nat)
    requires a == d * q + r && r < d
    ensures a / d == q && a % d == r
  {
    var e := a / d - q;
    assert d * (a / d) + a % d == a;
    assert d * e == d * (a / d) - d * q;
    MulBound(d, e);
  }

  lemma Euclid(a: nat, d: nat) returns (q: nat, r: nat)
    requires d > 0
    ensures a == d * q + r && r < d && q == a / d && r == a % d
  {
    q, r := a / d, a % d;
  }

  lemma HalfMod(a: nat, n: nat, q: nat, r: nat)
    requires a == (2 * n) * q + r && r < 2 * n
    ensures a % (2 * n) == r && a % n == (if r < n then r else r - n)
  {
    DivMod(a, 2 * n, q, r);
    assert (2 * n) * q == n * (2 * q);
    if r < n {
      DivMod(a, n, 2 * q, r);
    } else {
      assert n * (2 * q + 1) == n * (2 * q) + n;
      DivMod(a, n, 2 * q + 1, r - n);
    }
  }

  /** With 2^k buckets an item goes to the one that is the remainder of its hash value. */
  lemma SlotIsMod(hashv: nat, k: nat)
    ensures Slot(hashv, Pow2(k)) == hashv % Pow2(k)
  {
    MaskIsMod(hashv, k);
  }

  /** Doubling the buckets sends an item of bucket i to bucket i or i + n. */
  lemma SlotSplits(hashv: nat, k: nat)
    ensures var n := Pow2(k);
            Slot(hashv, 2 * n) == Slot(hashv, n) || Slot(hashv, 2 * n) == Slot(hashv, n) + n
  {
    MaskIsMod(hashv, k);
    MaskIsMod(hashv, k + 1);
    var q, r := Euclid(hashv, Pow2(k + 1));
    HalfMod(hashv, Pow2(k), q, r);
  }

  /** (n >> lb) + ((n & (b-1)) ? 1 : 0), for b = 2^lb. */
  function ShiftCeil(items: nat, log2: nat): nat {
    Shr(items, log2) + (if BitAnd(items, Pow2(log2) - 1) != 0 then 1 else 0)
  }

  lemma CeilOf(items: nat, p: nat, q: nat, r: nat, c: nat)
    requires items == p * q + r && r < p && c == q + (if r != 0 then 1 else 0)
    ensures items <= c * p
    ensures forall m: nat :: items <= m * p ==> c <= m
  {
    assert (q + 1) * p == p * q + p;
    forall m: nat | items <= m * p ensures c <= m {
      assert m < q ==> (m + 1) * p <= q * p;
      assert m == q ==> m * p == p * q;
    }
  }

  /** The shift and mask compute the ceiling of items / 2^log2: the least chain length that can hold all the
      items when they are spread evenly over 2^log2 buckets. */
  lemma ShiftCeilIsCeil(items: nat, log2: nat)
    ensures items <= ShiftCeil(items, log2) * Pow2(log2)
    ensures forall m: nat :: items <= m * Pow2(log2) ==> ShiftCeil(items, log2) <= m
  {
    MaskIsMod(items, log2);
    ShrIsDiv(items, log2);
    var q, r := Euclid(items, Pow2(log2));
    CeilOf(items, Pow2(log2), q, r, ShiftCeil(items, log2));
  }
}
