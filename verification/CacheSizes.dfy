/** The sizes a method cache can have: clamping and rounding of requests, and resizing. Arithmetic is that of a uint32_t. */
module CacheSizes {
  import opened Masks

  const MIN_CACHE_SIZE: bv32 := 4
  const MAX_CACHE_SIZE: bv32 := 0x40_0000

  datatype Strategy = Shrink | Stagnate | Grow

  predicate IsPowerOfTwo(size: bv32) {
    size != 0 && size & (size - 1) == 0
  }

  /** A power of two between the smallest and the largest cache size. */
  predicate IsCacheSize(size: bv32) {
    IsPowerOfTwo(size) && MIN_CACHE_SIZE <= size <= MAX_CACHE_SIZE
  }

  function Clamp(size: bv32): bv32 {
    if size < MIN_CACHE_SIZE then MIN_CACHE_SIZE else if size > MAX_CACHE_SIZE then MAX_CACHE_SIZE else size
  }

  /** Copies the topmost set bit of a number to all places below it. */
  method Smear(size: bv32) returns (r: bv32)
    requires size < 0x8000_0000
    ensures size <= r < 0x8000_0000 && IsPowerOfTwo(r + 1) && (size != 0 ==> (r + 1) >> 1 <= size)
  {
    r := size;
    r := r | (r >> 1);
    r := r | (r >> 2);
    r := r | (r >> 4);
    r := r | (r >> 8);
    r := r | (r >> 16);
  }

  /** There is no power of two between a number and a power of two that is less than twice as large. */
  lemma {:induction false} LeastPowerOfTwo(size: bv32, r: bv32, p: bv32)
    requires IsPowerOfTwo(r) && r >> 1 < size
    requires IsPowerOfTwo(p) && size <= p
    ensures r <= p
  {
  }

  lemma {:induction false} HalfBelowMaximum(r: bv32)
    requires IsPowerOfTwo(r) && r >> 1 < MAX_CACHE_SIZE
    ensures r <= MAX_CACHE_SIZE
  {
  }

  lemma {:induction false} AtLeastMinimum(size: bv32, r: bv32)
    requires MIN_CACHE_SIZE <= size <= MAX_CACHE_SIZE && size <= r
    ensures MIN_CACHE_SIZE <= r
  {
  }

  lemma {:induction false} PowerItself(r: bv32)
    requires MIN_CACHE_SIZE <= r && r & (r - 1) == 0
    ensures IsPowerOfTwo(r) && r >> 1 < r
  {
  }

  /** Rounds up to the next power of two, unless the number is one. */
  method RoundUp(size: bv32) returns (r: bv32)
    requires MIN_CACHE_SIZE <= size <= MAX_CACHE_SIZE
    ensures IsCacheSize(r) && r >> 1 < size <= r
  {
    r := size;
    if r & (r - 1) != 0 {
      var smeared := Smear(r - 1);
      r := smeared + 1;
      assert r >> 1 <= size - 1 < size <= r;
      HalfBelowMaximum(r);
    } else {
      PowerItself(r);
    }
    AtLeastMinimum(size, r);
  }

  /** The size of a new method cache: the least power of two that is not below the clamped request. */
  method ImpcacheNew(request: bv32) returns (size: bv32)
    ensures IsCacheSize(size) && Clamp(request) <= size
    ensures forall p: bv32 | IsPowerOfTwo(p) && Clamp(request) <= p :: size <= p
  {
    size := request;
    if size < MIN_CACHE_SIZE {
      size := MIN_CACHE_SIZE;
    }
    if size > MAX_CACHE_SIZE {
      size := MAX_CACHE_SIZE;
    }
    size := RoundUp(size);
    forall p: bv32 | IsPowerOfTwo(p) && Clamp(request) <= p ensures size <= p {
      LeastPowerOfTwo(Clamp(request), size, p);
    }
  }

  /** The size that is requested for the successor of a cache. */
  function Resize(size: bv32, strategy: Strategy): bv32 {
    match strategy
    case Stagnate => size
    case Shrink => if size <= MIN_CACHE_SIZE * 2 then MIN_CACHE_SIZE else size >> 1
    case Grow => size * 2
  }

  /** The successor of a method cache is of exactly the requested size, except that it stays below the maximum. */
  method ImpcacheGrowWithStrategy(size: bv32, strategy: Strategy) returns (newSize: bv32)
    requires IsCacheSize(size)
    ensures IsCacheSize(newSize)
    ensures newSize == if size == MAX_CACHE_SIZE && strategy == Grow then size else Resize(size, strategy)
    ensures strategy == Shrink ==> newSize == if size == MIN_CACHE_SIZE then MIN_CACHE_SIZE else size >> 1
  {
    newSize := ImpcacheNew(Resize(size, strategy));
    assert IsPowerOfTwo(Clamp(Resize(size, strategy)));
  }

  lemma {:induction false} NextPower(p: bv32, size: bv32)
    requires IsCacheSize(p) && IsCacheSize(size) && p < size
    ensures p + p <= size && IsCacheSize(p + p) && (p + p) as nat == 2 * (p as nat)
  {
    assert p <= 0x20_0000;
    assert p as nat <= 0x20_0000;
    assert (p + p) as nat == p as nat + p as nat;
  }

  /** Cache sizes are powers of two as numbers, too. */
  lemma {:induction false} CacheSizeIsPow2(size: bv32) returns (m: nat)
    requires IsCacheSize(size)
    ensures size as nat == Pow2(m) && 2 <= m <= 22
  {
    m := 2;
    var p: bv32 := 4;
    while p < size
      invariant IsCacheSize(p) && p <= size && p as nat == Pow2(m) && m >= 2
      decreases size - p
    {
      NextPower(p, size);
      m := m + 1;
      p := p + p;
    }
    Pow2AtMost22(m);
  }

  lemma {:induction false} DoubleIsCacheSize(p: bv32)
    requires IsCacheSize(p) && p as nat <= 0x20_0000
    ensures IsCacheSize(p * 2) && (p * 2) as nat == 2 * (p as nat)
  {
    assert p <= 0x20_0000;
    assert p * 2 == p + p;
    assert (p + p) as nat == p as nat + p as nat;
  }

  /** And the powers of two from 4 to 4M are cache sizes. */
  lemma {:induction false} Pow2IsCacheSize(m: nat) returns (size: bv32)
    requires 2 <= m <= 22
    ensures IsCacheSize(size) && size as nat == Pow2(m) && (m < 22 ==> size as nat <= 0x20_0000)
  {
    if m == 2 {
      size := 4;
      assert Pow2(2) == 4;
    } else {
      var half := Pow2IsCacheSize(m - 1);
      DoubleIsCacheSize(half);
      size := half * 2;
    }
    if m < 22 {
      Pow2AtMostHalf(m);
    }
  }

  lemma {:induction false} Pow2AtMostHalf(m: nat)
    requires m < 22
    ensures 2 * Pow2(m) <= 0x40_0000
  {
    Pow2Of22();
    Pow2Sum(m + 1, 21 - m);
    Factors(Pow2(m + 1), Pow2(21 - m));
  }

  lemma {:induction false} SameSize(size: nat, p: bv32)
    requires p as nat == size && size <= 0x40_0000
    ensures size as bv32 == p
  {
  }

  lemma {:induction false} GrowthOfPow2(m: nat, s: bv32, r: bv32, strategy: Strategy)
    requires 2 <= m <= 22 && IsCacheSize(s) && s as nat == Pow2(m) && strategy != Shrink
    requires r == if s == MAX_CACHE_SIZE && strategy == Grow then s else Resize(s, strategy)
    ensures r as nat == Pow2(if strategy == Grow && m < 22 then m + 1 else m)
  {
    if m == 22 {
      Pow2Of22();
    } else {
      Pow2AtMostHalf(m);
      DoubleIsCacheSize(s);
    }
  }

  /** The size of the cache that replaces one with 2^m entries: the same, or twice as large as long as that is possible. */
  method SuccessorSize(size: nat, ghost m: nat, strategy: Strategy) returns (newSize: nat, ghost newM: nat)
    requires 2 <= m <= 22 && size == Pow2(m) && size <= 0x40_0000 && strategy != Shrink
    ensures newSize == Pow2(newM) && newM == if strategy == Grow && m < 22 then m + 1 else m
  {
    ghost var p := Pow2IsCacheSize(m);
    SameSize(size, p);
    var s := size as bv32;
    var r := ImpcacheGrowWithStrategy(s, strategy);
    GrowthOfPow2(m, s, r, strategy);
    newSize := r as nat;
    newM := if strategy == Grow && m < 22 then m + 1 else m;
  }

  const DEFAULT_CACHE_SIZE: bv32 := 8

  /** The base 2 logarithm of a rounded request: the least one, from m on and up to 22, that is large enough. */
  ghost function Log2From(p: bv32, m: nat, request: bv32): nat
    decreases 22 - m
  {
    if m >= 22 || request <= p then m else Log2From(p + p, m + 1, request)
  }

  ghost function RoundedLog2(request: bv32): nat {
    Log2From(MIN_CACHE_SIZE, 2, request)
  }

  lemma {:induction false} RoundedSize(p: bv32, m: nat, request: bv32, size: bv32)
    requires IsCacheSize(p) && IsCacheSize(size) && p as nat == Pow2(m) && m <= 22 && p <= size
    requires Clamp(request) <= size && forall q: bv32 | IsPowerOfTwo(q) && Clamp(request) <= q :: size <= q
    ensures size as nat == Pow2(Log2From(p, m, request)) && m <= Log2From(p, m, request) <= 22
    decreases 22 - m
  {
    if request <= p {
      RequestFits(p, request, size);
    } else if m == 22 {
      LargestSize(p, size);
    } else {
      BelowLargest(p, m);
      RequestAbove(p, request, size);
      NextPower(p, size);
      RoundedSize(p + p, m + 1, request, size);
    }
  }

  lemma {:induction false} RequestFits(p: bv32, request: bv32, size: bv32)
    requires IsCacheSize(p) && p <= size && request <= p
    requires forall q: bv32 | IsPowerOfTwo(q) && Clamp(request) <= q :: size <= q
    ensures size == p
  {
    assert Clamp(request) <= p;
  }

  lemma {:induction false} RequestAbove(p: bv32, request: bv32, size: bv32)
    requires IsCacheSize(p) && p < MAX_CACHE_SIZE && p < request && Clamp(request) <= size
    ensures p < size
  {
  }

  lemma {:induction false} LargestSize(p: bv32, size: bv32)
    requires IsCacheSize(p) && IsCacheSize(size) && p <= size && p as nat == Pow2(22)
    ensures size as nat == Pow2(22)
  {
    Pow2Of22();
    SameSize(0x40_0000, p);
  }

  lemma {:induction false} BelowLargest(p: bv32, m: nat)
    requires IsCacheSize(p) && p as nat == Pow2(m) && m < 22
    ensures p < MAX_CACHE_SIZE
  {
    Pow2AtMostHalf(m);
    assert p as nat != 0x40_0000;
  }

  /** The size of the first cache of a class. */
  method InitialSize(request: bv32) returns (size: nat, ghost m: nat)
    ensures size == Pow2(m) && m == RoundedLog2(request) && 2 <= m <= 22
  {
    var r := ImpcacheNew(request);
    assert Pow2(2) == 4;
    RoundedSize(MIN_CACHE_SIZE, 2, request, r);
    m := RoundedLog2(request);
    size := r as nat;
  }
}
