/** The converse of "every probe ends": with one thread too many a cache can fill up, and then lookups do not come back. */
module CacheRaceOverflow {
  import opened Prelude
  import opened Masks
  import opened CacheSlots
  import opened CacheRace
  import opened CacheRaceFill
  import opened CacheRaceTheorems

  // ----- a full cache

  /** The thread looks for a key in a cache where every slot has a key, but none has that one. */
  ghost predicate Trapped(s: State, t: nat, key: nat, c: nat)
    requires t < |s.threads|
  {
    && (s.threads[t].LookKey? || s.threads[t].LookEmpty?)
    && s.threads[t].key == key && s.threads[t].c == c < |s.caches|
    && forall p | 0 <= p < s.caches[c].Size() :: s.caches[c].slots[p].key != 0 && s.caches[c].slots[p].key != key
  }

  lemma {:induction false} TrappedKept(s: State, m: Move, t: nat, key: nat, c: nat)
    requires Invariant(s) && t < |s.threads| && Trapped(s, t, key, c) && m.thread < |s.threads| && OpSane(m.op)
    ensures var s' := Step(s, m.thread, m.op); |s'.threads| == |s.threads| && Trapped(s', t, key, c)
  {
    InvariantKept(s, m);
    StepEvolves(s, m.thread, m.op);
    StepFrame(s, m.thread, m.op);
    assert PcShape(s.threads[t], s.caches, s.passed);
    var a, b := s.caches[c].slots, Step(s, m.thread, m.op).caches[c].slots;
    assert Evolved(a, b);
    assert forall p | 0 <= p < |a| :: b[p].key == a[p].key;
  }

  /** Once trapped, a lookup never ends, whatever anyone does. */
  lemma {:induction false} TrappedForever(s: State, moves: seq<Move>, t: nat, key: nat, c: nat)
    requires Invariant(s) && t < |s.threads| && Trapped(s, t, key, c) && Schedulable(moves, |s.threads|)
    ensures Trapped(Run(s, moves), t, key, c)
    decreases |moves|
  {
    if moves != [] {
      TrappedKept(s, moves[0], t, key, c);
      InvariantKept(s, moves[0]);
      TrappedForever(Step(s, moves[0].thread, moves[0].op), moves[1..], t, key, c);
    }
  }

  // ----- runs

  ghost predicate Reaches(s: State, s': State)
    requires Invariant(s)
  {
    exists moves :: Schedulable(moves, |s.threads|) && Run(s, moves) == s'
  }

  lemma {:induction false} ReachesSelf(s: State)
    requires Invariant(s)
    ensures Reaches(s, s)
  {
    assert Schedulable([], |s.threads|) && Run(s, []) == s;
  }

  lemma {:induction false} RunAppend(s: State, moves: seq<Move>, m: Move)
    requires Invariant(s) && Schedulable(moves, |s.threads|) && Schedulable(moves + [m], |s.threads|)
    requires m.thread < |s.threads| && OpSane(m.op)
    ensures Run(s, moves + [m]) == Step(Run(s, moves), m.thread, m.op)
    decreases |moves|
  {
    if moves == [] {
      InvariantKept(s, m);
      assert [] + [m] == [m];
    } else {
      InvariantKept(s, moves[0]);
      assert (moves + [m])[1..] == moves[1..] + [m];
      RunAppend(Step(s, moves[0].thread, moves[0].op), moves[1..], m);
    }
  }

  /** A property of states that is kept by all steps. */
  ghost predicate ClosedUnderSteps(holds: State -> bool) {
    && (forall s :: holds(s) ==> Shape(s))
    && (forall s, t: nat, op {:trigger Step(s, t, op)} ::
          holds(s) && t < |s.threads| && OpSane(op) ==> holds(Step(s, t, op)))
  }

  /** What can be reached is closed under steps. */
  lemma {:induction false} ReachabilityIsClosed(s0: State)
    requires Invariant(s0)
    ensures ClosedUnderSteps(s => Invariant(s) && Reaches(s0, s) && |s.threads| == |s0.threads|)
  {
    hide Step, Run, Shape, SlotsInv, FillInv;
    forall s, t: nat, op | Invariant(s) && Reaches(s0, s) && |s.threads| == |s0.threads| && t < |s.threads| && OpSane(op)
      ensures Invariant(Step(s, t, op)) && Reaches(s0, Step(s, t, op)) && |Step(s, t, op).threads| == |s0.threads|
    {
      var moves :| Schedulable(moves, |s0.threads|) && Run(s0, moves) == s;
      var m := Move(t, op);
      InvariantKept(s, m);
      assert Schedulable(moves + [m], |s0.threads|);
      RunAppend(s0, moves, m);
    }
  }

  // ----- filling a cache up

  /** An id whose home is slot `k`. */
  function KeyOf(k: nat, size: nat): nat {
    (size + k) * ENTRY_SIZE
  }

  lemma {:induction false} HomeOfKey(k: nat, size: nat)
    requires k < size
    ensures At(KeyOf(k, size), 0, size) == k && KeyOf(k, size) != 0
  {
    assert (size + k) * 16 / 16 == size + k;
    ModUnique(size + k, size, 1, k);
  }

  /** The threads that insert, in order. */
  function WhoInserts(inserts: seq<bool>): (who: seq<nat>)
    ensures |who| == Inserters(inserts)
    ensures forall i | 0 <= i < |who| :: who[i] < |inserts| && inserts[who[i]]
    ensures forall i, j | 0 <= i < j < |who| :: who[i] < who[j]
  {
    if inserts == [] then []
    else
      var rest := WhoInserts(inserts[1..]);
      (if inserts[0] then [0] else []) + seq(|rest|, i requires 0 <= i < |rest| => rest[i] + 1)
  }

  /** What does not change while these threads fill the cache: they may insert, and are different threads. */
  ghost predicate Crew(s: State, who: seq<nat>) {
    && |s.inserts| == |s.threads| && (forall i | 0 <= i < |who| :: who[i] < |s.threads| && s.inserts[who[i]])
    && forall i, j | 0 <= i < j < |who| :: who[i] < who[j]
  }

  /** The first `m` slots are published; the threads lo to hi of the crew have been admitted for the slots behind them. */
  ghost predicate Stage(s: State, who: seq<nat>, size: nat, m: nat, lo: nat, hi: nat) {
    && s.pivot == 0 && |s.caches| == 1 && s.caches[0].Size() == size && s.caches[0].n == m <= size
    && (forall p | 0 <= p < m :: s.caches[0].slots[p] == Entry(KeyOf(p, size), 1))
    && (forall p | m <= p < size :: s.caches[0].slots[p] == Entry(0, 0))
    && Crew(s, who) && lo <= hi <= |who| && m + (hi - lo) <= size
    && (forall i | lo <= i < hi :: s.threads[who[i]] == CasValue(KeyOf(m + (i - lo), size), 1, 0, 0))
    && (forall t | 0 <= t < |s.threads| && t !in who[lo..hi] :: s.threads[t] == Idle)
  }

  /** A thread looks at the count, and is admitted. */
  lemma {:induction false} AdmitFirst(holds: State -> bool, s: State, who: seq<nat>, size: nat, m: nat, lo: nat, hi: nat)
    returns (s': State)
    requires ClosedUnderSteps(holds) && holds(s)
    requires Stage(s, who, size, m, lo, hi) && hi < |who| && m + (hi - lo) < size && !ShouldGrow(m, size, s.fillrate)
    ensures var key := KeyOf(m + (hi - lo), size);
            holds(s') && s' == Go(s, who[hi], ProbeKey(key, 1, 0, 0)).(passed := s.passed + {(key, 1)})
  {
    var key, t := KeyOf(m + (hi - lo), size), who[hi];
    HomeOfKey(m + (hi - lo), size);
    var op := Fill(key, 1);
    var s1 := Step(s, t, op);
    assert s1 == Go(s, t, ReadPivot(key, 1)).(passed := s.passed + {(key, 1)});
    var s2 := Step(s1, t, op);
    assert s2 == Go(s1, t, CheckCount(key, 1, 0));
    s' := Step(s2, t, op);
  }

  lemma {:induction false} StageAdmitted(s: State, s': State, who: seq<nat>, size: nat, m: nat, lo: nat, hi: nat)
    requires Stage(s, who, size, m, lo, hi) && hi < |who| && m + (hi - lo) < size
    requires s'.caches == s.caches && s'.pivot == s.pivot && s'.inserts == s.inserts
    requires s'.threads == s.threads[who[hi] := CasValue(KeyOf(m + (hi - lo), size), 1, 0, 0)]
    ensures Stage(s', who, size, m, lo, hi + 1)
  {
    assert who[lo..hi + 1] == who[lo..hi] + [who[hi]];
  }

  lemma {:induction false} AdmitOne(holds: State -> bool, s: State, who: seq<nat>, size: nat, m: nat, lo: nat, hi: nat)
    returns (s': State)
    requires ClosedUnderSteps(holds) && holds(s)
    requires Stage(s, who, size, m, lo, hi) && hi < |who| && m + (hi - lo) < size && !ShouldGrow(m, size, s.fillrate)
    ensures holds(s') && |s'.threads| == |s.threads| && s'.fillrate == s.fillrate
    ensures Stage(s', who, size, m, lo, hi + 1)
  {
    var k, t := m + (hi - lo), who[hi];
    var key := KeyOf(k, size);
    HomeOfKey(k, size);
    var op := Fill(key, 1);
    var s3 := AdmitFirst(holds, s, who, size, m, lo, hi);
    var s4 := Step(s3, t, op);
    assert s4 == Go(s3, t, ProbeValue(key, 1, 0, 0));
    s' := Step(s4, t, op);
    assert s' == Go(s4, t, CasValue(key, 1, 0, 0));
    StageAdmitted(s, s', who, size, m, lo, hi);
  }

  lemma {:induction false} StagePublished(s: State, s': State, who: seq<nat>, size: nat, m: nat, lo: nat, hi: nat)
    requires Stage(s, who, size, m, lo, hi) && lo < hi && m < size
    requires s'.pivot == s.pivot && s'.inserts == s.inserts && s'.threads == s.threads[who[lo] := Idle]
    requires s'.caches == [WithSlot(s.caches[0], m, Entry(KeyOf(m, size), 1)).(n := m + 1)]
    ensures Stage(s', who, size, m + 1, lo + 1, hi)
  {
    assert who[lo..hi] == [who[lo]] + who[lo + 1..hi];
  }

  lemma {:induction false} PublishOne(holds: State -> bool, s: State, who: seq<nat>, size: nat, m: nat, lo: nat, hi: nat)
    returns (s': State)
    requires ClosedUnderSteps(holds) && holds(s)
    requires Stage(s, who, size, m, lo, hi) && lo < hi
    ensures holds(s') && |s'.threads| == |s.threads| && s'.fillrate == s.fillrate
    ensures Stage(s', who, size, m + 1, lo + 1, hi)
  {
    var key, t := KeyOf(m, size), who[lo];
    HomeOfKey(m, size);
    var op := Fill(1, 1);
    var cache := s.caches[0];
    var s1 := Step(s, t, op);
    assert s1 == Go(s, t, CountUp(key, 1, 0, 0)).(caches := [WithSlot(cache, m, Entry(0, 1))]);
    var s2 := Step(s1, t, op);
    assert s2 == Go(s1, t, WriteKey(key, 1, 0, 0)).(caches := [WithSlot(cache, m, Entry(0, 1)).(n := m + 1)]);
    s' := Step(s2, t, op);
    assert s' == Go(s2, t, Idle).(caches := [WithSlot(WithSlot(cache, m, Entry(0, 1)).(n := m + 1), m, Entry(key, 1))]);
    assert cache.slots[m := Entry(0, 1)][m := Entry(key, 1)] == cache.slots[m := Entry(key, 1)];
    StagePublished(s, s', who, size, m, lo, hi);
  }

  lemma {:induction false} StageSettled(s: State, who: seq<nat>, size: nat, m: nat, k: nat)
    requires Stage(s, who, size, m, k, k)
    ensures Stage(s, who, size, m, 0, 0)
  {
    assert who[k..k] == who[0..0];
  }

  /** One thread fills the cache up to the limit. */
  lemma {:induction false} FillToLimit(holds: State -> bool, s0: State, who: seq<nat>, size: nat) returns (s: State)
    requires ClosedUnderSteps(holds) && holds(s0) && Stage(s0, who, size, 0, 0, 0) && |who| > 0
    requires 0 < Limit(size, s0.fillrate) <= size
    ensures holds(s) && |s.threads| == |s0.threads| && s.fillrate == s0.fillrate
    ensures Stage(s, who, size, Limit(size, s0.fillrate) - 1, 0, 0)
  {
    s := s0;
    for m := 0 to Limit(size, s0.fillrate) - 1
      invariant holds(s) && |s.threads| == |s0.threads| && s.fillrate == s0.fillrate && Stage(s, who, size, m, 0, 0)
    {
      ShouldGrowAtLimit(m, size, s0.fillrate);
      s := AdmitOne(holds, s, who, size, m, 0, 0);
      s := PublishOne(holds, s, who, size, m, 0, 1);
      StageSettled(s, who, size, m + 1, 1);
    }
  }

  lemma {:induction false} AdmitAll(holds: State -> bool, s0: State, who: seq<nat>, size: nat, m: nat, count: nat)
    returns (s: State)
    requires ClosedUnderSteps(holds) && holds(s0) && Stage(s0, who, size, m, 0, 0)
    requires count <= |who| && m + count <= size && !ShouldGrow(m, size, s0.fillrate)
    ensures holds(s) && |s.threads| == |s0.threads| && Stage(s, who, size, m, 0, count)
  {
    s := s0;
    for hi := 0 to count
      invariant holds(s) && |s.threads| == |s0.threads| && s.fillrate == s0.fillrate && Stage(s, who, size, m, 0, hi)
    {
      s := AdmitOne(holds, s, who, size, m, 0, hi);
    }
  }

  lemma {:induction false} PublishAll(holds: State -> bool, s0: State, who: seq<nat>, size: nat, m: nat, count: nat)
    returns (s: State)
    requires ClosedUnderSteps(holds) && holds(s0) && Stage(s0, who, size, m, 0, count)
    ensures holds(s) && |s.threads| == |s0.threads| && Stage(s, who, size, m + count, count, count)
  {
    hide Stage, ClosedUnderSteps;
    s := s0;
    for lo := 0 to count
      invariant holds(s) && |s.threads| == |s0.threads| && Stage(s, who, size, m + lo, lo, count)
    {
      s := PublishOne(holds, s, who, size, m + lo, lo, count);
    }
  }

  /** Enough threads that have all seen the same count fill the rest. */
  lemma {:induction false} RaceToFull(holds: State -> bool, s0: State, who: seq<nat>, size: nat, m: nat) returns (s: State)
    requires ClosedUnderSteps(holds) && holds(s0) && Stage(s0, who, size, m, 0, 0)
    requires m <= size <= m + |who| && !ShouldGrow(m, size, s0.fillrate)
    ensures holds(s) && |s.threads| == |s0.threads| && Stage(s, who, size, size, 0, 0)
  {
    s := AdmitAll(holds, s0, who, size, m, size - m);
    s := PublishAll(holds, s, who, size, m, size - m);
    StageSettled(s, who, size, size, size - m);
  }

  lemma {:induction false} LimitWithin(size: nat, fillrate: nat)
    requires size > 1 && fillrate <= 90
    ensures 0 < Limit(size, fillrate) <= size
  {
    LimitPositive(size, fillrate);
    if fillrate > 0 {
      assert size * fillrate <= size * 90;
    }
  }

  /** With more inserting threads than `Enough` allows, there is a run after which the first cache is full. */
  lemma {:induction false} CacheFillsUp(holds: State -> bool, s0: State, who: seq<nat>, size: nat) returns (s: State)
    requires ClosedUnderSteps(holds) && holds(s0) && Stage(s0, who, size, 0, 0, 0)
    requires size > 1 && s0.fillrate <= 90 && !Enough(size, s0.fillrate, |who|)
    ensures holds(s) && |s.threads| == |s0.threads| && Stage(s, who, size, size, 0, 0)
  {
    LimitWithin(size, s0.fillrate);
    s := FillToLimit(holds, s0, who, size);
    ShouldGrowAtLimit(Limit(size, s0.fillrate) - 1, size, s0.fillrate);
    s := RaceToFull(holds, s, who, size, Limit(size, s0.fillrate) - 1);
  }

  lemma {:induction false} LookInFullCache(holds: State -> bool, s0: State, who: seq<nat>, size: nat, reader: nat)
    returns (s: State, key: nat)
    requires ClosedUnderSteps(holds) && holds(s0) && Stage(s0, who, size, size, 0, 0) && reader < |s0.threads| && size > 0
    ensures holds(s) && |s.threads| == |s0.threads| && Trapped(s, reader, key, 0)
  {
    key := KeyOf(size, size);
    var op := Lookup(key);
    assert s0.threads[reader] == Idle;
    var s1 := Step(s0, reader, op);
    assert s1 == Go(s0, reader, LookPivot(key));
    s := Step(s1, reader, op);
    assert s == Go(s1, reader, LookKey(key, 0, 0));
  }

  /**
   ... and then a lookup, by any thread, that never ends. So the number of inserting threads that `EveryProbeEnds`
   allows is exact.
   */
  lemma {:induction false} TooManyInsertersTrapALookup(size: nat, inserts: seq<bool>, fillrate: nat, reread: bool, reader: nat)
    returns (s: State, key: nat)
    requires size > 1 && fillrate <= 90 && !Enough(size, fillrate, Inserters(inserts)) && reader < |inserts|
    ensures Invariant(Initial(size, inserts, fillrate, reread))
    ensures Reaches(Initial(size, inserts, fillrate, reread), s) && Invariant(s) && |s.threads| == |inserts|
    ensures forall moves | Schedulable(moves, |inserts|) :: Trapped(Run(s, moves), reader, key, 0)
  {
    var s0, who := Initial(size, inserts, fillrate, reread), WhoInserts(inserts);
    InitialInvariant(size, inserts, fillrate, reread);
    ReachesSelf(s0);
    ReachabilityIsClosed(s0);
    var holds := (s: State) => Invariant(s) && Reaches(s0, s) && |s.threads| == |s0.threads|;
    assert Stage(s0, who, size, 0, 0, 0);
    s := CacheFillsUp(holds, s0, who, size);
    s, key := LookInFullCache(holds, s, who, size, reader);
    forall moves | Schedulable(moves, |inserts|) ensures Trapped(Run(s, moves), reader, key, 0) {
      TrappedForever(s, moves, reader, key, 0);
    }
  }

  /** A fill rate of 90 percent is too much for a cache of the default size, even for a single thread. */
  lemma {:induction false} DefaultCacheAt90Percent() returns (s: State, key: nat)
    ensures Invariant(Initial(8, [true], 90, false)) && Reaches(Initial(8, [true], 90, false), s)
    ensures Invariant(s) && |s.threads| == 1 && forall moves | Schedulable(moves, 1) :: Trapped(Run(s, moves), 0, key, 0)
  {
    assert Inserters([true]) == 1;
    s, key := TooManyInsertersTrapALookup(8, [true], 90, false, 0);
  }
}
