/** The bitwise AND of unsigned numbers, and why masking with the preshifted cache mask is "modulo size". */
module Masks {

  function Pow2(k: nat): (p: nat)
    ensures p > 0
  {
    if k == 0 then 1 else 2 * Pow2(k - 1)
  }

  /** `a & b`, bit by bit. */
  function And(a: nat, b: nat): nat {
    if a == 0 || b == 0 then 0 else a % 2 * (b % 2) + 2 * And(a / 2, b / 2)
  }

  lemma {:induction false} AndEven(a: nat, b: nat)
    ensures And(a, 2 * b) == 2 * And(a / 2, b)
  {
    assert 2 * b / 2 == b && 2 * b % 2 == 0;
  }

  lemma {:induction false} AndOdd(a: nat, b: nat)
    ensures And(a, 2 * b + 1) == a % 2 + 2 * And(a / 2, b)
  {
    assert (2 * b + 1) / 2 == b && (2 * b + 1) % 2 == 1;
  }

  lemma {:induction false} ProductBounds(d: int, k: int)
    requires d >= 0
    ensures k >= 1 ==> d * k >= d
    ensures k <= -1 ==> d * k <= -d
    ensures k == 0 ==> d * k == 0
  {
    if k >= 1 {
      assert d * k == d * (k - 1) + d;
    } else if k <= -1 {
      assert d * k == d * (k + 1) - d;
    }
  }

  lemma {:induction false} ModUnique(a: nat, d: nat, q: nat, r: nat)
    requires d > 0 && a == d * q + r && r < d
    ensures a % d == r && a / d == q
  {
    var k := a / d - q;
    assert a == d * (a / d) + a % d;
    assert d * k == r - a % d;
    ProductBounds(d, k);
  }

  lemma {:induction false} HalfMod(a: nat, p: nat)
    requires p > 0
    ensures a % (2 * p) == a % 2 + 2 * (a / 2 % p)
  {
    var q, r := a / 2 / p, a / 2 % p;
    assert a / 2 == q * p + r;
    assert a == (2 * p) * q + (2 * r + a % 2);
    ModUnique(a, 2 * p, q, 2 * r + a % 2);
  }

  /** Masking with 2^m - 1 is the remainder modulo 2^m. */
  lemma {:induction false} AndLowBits(a: nat, m: nat)
    ensures And(a, Pow2(m) - 1) == a % Pow2(m)
  {
    if m > 0 {
      var p := Pow2(m - 1);
      assert Pow2(m) - 1 == 2 * (p - 1) + 1;
      AndOdd(a, p - 1);
      AndLowBits(a / 2, m - 1);
      HalfMod(a, p);
    }
  }

  /** sizeof( struct _mulle_objc_cacheentry), two pointers of a 64 bit platform. */
  const ENTRY_SIZE: nat := 16

  /** The preshifted mask of a cache. */
  function CacheMask(size: nat): nat
    requires size > 0
  {
    (size - 1) * ENTRY_SIZE
  }

  /** `id & mask` is the byte offset of slot `(id / ENTRY_SIZE) % size`. */
  lemma {:induction false} PreshiftedMaskIsModulo(id: nat, m: nat)
    ensures And(id, CacheMask(Pow2(m))) == id / ENTRY_SIZE % Pow2(m) * ENTRY_SIZE
  {
    var low := Pow2(m) - 1;
    AndEven(id, 8 * low);
    AndEven(id / 2, 4 * low);
    AndEven(id / 4, 2 * low);
    AndEven(id / 8, low);
    assert id / 2 / 2 == id / 4 && id / 4 / 2 == id / 8 && id / 8 / 2 == id / 16;
    AndLowBits(id / 16, m);
  }

  /** `(offset + ENTRY_SIZE) & mask` moves to the next slot and from the last one to the first. */
  lemma {:induction false} StepWraps(slot: nat, m: nat)
    requires slot < Pow2(m)
    ensures And(slot * ENTRY_SIZE + ENTRY_SIZE, CacheMask(Pow2(m)))
            == (if slot + 1 < Pow2(m) then slot + 1 else 0) * ENTRY_SIZE
  {
    PreshiftedMaskIsModulo(slot * ENTRY_SIZE + ENTRY_SIZE, m);
    assert (slot * 16 + 16) / 16 == slot + 1;
    if slot + 1 < Pow2(m) {
      ModUnique(slot + 1, Pow2(m), 0, slot + 1);
    } else {
      ModUnique(slot + 1, Pow2(m), 1, 0);
    }
  }

  lemma {:induction false} Pow2Sum(a: nat, b: nat)
    ensures Pow2(a + b) == Pow2(a) * Pow2(b)
  {
    if b > 0 {
      Pow2Sum(a, b - 1);
      assert Pow2(a + b) == 2 * Pow2(a + b - 1);
    }
  }

  lemma {:induction false} Pow2Of22()
    ensures Pow2(22) == 0x40_0000
  {
    assert Pow2(2) == 4 && Pow2(3) == 8 && Pow2(5) == 32;
    Pow2Sum(5, 5);
    Pow2Sum(10, 10);
    Pow2Sum(20, 2);
  }

  lemma {:induction false} Factors(p: nat, q: nat)
    requires p * q == 0x40_0000
    ensures p <= 0x40_0000 && 0x1000_0000 == p * (64 * q)
  {
    ProductBounds(p, q);
    assert p * (64 * q) == 64 * (p * q);
  }

  /** Cache sizes up to the maximum divide 2^28, the number of different slots an id can ask for. */
  lemma {:induction false} SizeDividesIdSpace(m: nat)
    requires m <= 22
    ensures Pow2(m) <= 0x40_0000 && 0x1000_0000 % Pow2(m) == 0
  {
    var p, q := Pow2(m), Pow2(22 - m);
    assert p * q == 0x40_0000 by {
      Pow2Of22();
      Pow2Sum(m, 22 - m);
    }
    Factors(p, q);
    ModUnique(0x1000_0000, p, 64 * q, 0);
  }

  lemma {:induction false} ModSuccessor(a: nat, d: nat)
    requires d > 0
    ensures (a + 1) % d == if a % d + 1 < d then a % d + 1 else 0
  {
    assert a == d * (a / d) + a % d;
    if a % d + 1 < d {
      ModUnique(a + 1, d, a / d, a % d + 1);
    } else {
      assert a + 1 == d * (a / d) + d == d * (a / d + 1);
      ModUnique(a + 1, d, a / d + 1, 0);
    }
  }

  /** One past the largest mulle_objc_cache_uint_t. */
  const UINT32_SIZE: nat := 0x1_0000_0000

  lemma {:induction false} SlotOfOffset(slot: nat)
    ensures slot * ENTRY_SIZE / ENTRY_SIZE == slot
  {
    ModUnique(slot * ENTRY_SIZE, ENTRY_SIZE, slot, 0);
  }

  lemma {:induction false} Pow2Above22(m: nat)
    requires m > 22
    ensures Pow2(m) > 0x40_0000
  {
    Pow2Of22();
    if m > 23 {
      Pow2Above22(m - 1);
    }
  }

  lemma {:induction false} Pow2AtMost22(m: nat)
    requires Pow2(m) <= 0x40_0000
    ensures m <= 22
  {
    if m > 22 {
      Pow2Above22(m);
    }
  }

  lemma {:induction false} WrappedSlot(id: nat)
    requires id < UINT32_SIZE
    ensures (id + ENTRY_SIZE) % UINT32_SIZE / ENTRY_SIZE == if id + ENTRY_SIZE < UINT32_SIZE then id / ENTRY_SIZE + 1 else 0
    ensures id + ENTRY_SIZE >= UINT32_SIZE ==> id / ENTRY_SIZE + 1 == 0x1000_0000
  {
  }

  /** Adding to an id before masking may wrap around, which the mask does not notice. */
  lemma {:induction false} FirstStepWraps(id: nat, m: nat)
    requires id < UINT32_SIZE && m <= 22
    ensures var slot := id / ENTRY_SIZE % Pow2(m);
            And((id + ENTRY_SIZE) % UINT32_SIZE, CacheMask(Pow2(m)))
            == (if slot + 1 < Pow2(m) then slot + 1 else 0) * ENTRY_SIZE
  {
    var p, next := Pow2(m), (id + ENTRY_SIZE) % UINT32_SIZE;
    ModSuccessor(id / ENTRY_SIZE, p);
    PreshiftedMaskIsModulo(next, m);
    WrappedSlot(id);
    SizeDividesIdSpace(m);
    ModUnique(0, p, 0, 0);
    assert next / ENTRY_SIZE % p == (id / ENTRY_SIZE + 1) % p;
  }
}
