/** How full a cache can get while threads race to fill it, and why every probe therefore ends. */
module CacheRaceFill {
  import opened Masks
  import opened CacheSlots
  import opened CacheRace

  /** The thread has taken a slot that it has not counted yet. */
  function Uncounted(pc: Pc, c: nat): nat {
    if pc.CountUp? && pc.c == c then 1 else 0
  }

  /** The thread has seen that there is room, but has not taken a slot yet. */
  function Admitted(pc: Pc, c: nat): nat {
    if (pc.ProbeKey? || pc.ProbeValue? || pc.CasValue?) && pc.c == c then 1 else 0
  }

  function UncountedOn(threads: seq<Pc>, c: nat): nat {
    if threads == [] then 0 else Uncounted(threads[0], c) + UncountedOn(threads[1..], c)
  }

  function AdmittedOn(threads: seq<Pc>, c: nat): nat {
    if threads == [] then 0 else Admitted(threads[0], c) + AdmittedOn(threads[1..], c)
  }

  lemma {:induction false} CountsAfterMove(threads: seq<Pc>, t: nat, pc: Pc, c: nat)
    requires t < |threads|
    ensures UncountedOn(threads[t := pc], c) == UncountedOn(threads, c) - Uncounted(threads[t], c) + Uncounted(pc, c)
    ensures AdmittedOn(threads[t := pc], c) == AdmittedOn(threads, c) - Admitted(threads[t], c) + Admitted(pc, c)
  {
    if t == 0 {
      assert threads[t := pc][1..] == threads[1..];
    } else {
      assert threads[t := pc][1..] == threads[1..][t - 1 := pc];
      CountsAfterMove(threads[1..], t - 1, pc, c);
    }
  }

  /** The number of threads that insert. */
  function Inserters(inserts: seq<bool>): nat {
    if inserts == [] then 0 else (if inserts[0] then 1 else 0) + Inserters(inserts[1..])
  }

  /** A thread that never inserts is never on its way to. */
  ghost predicate OthersLook(threads: seq<Pc>, inserts: seq<bool>) {
    |threads| == |inserts| && forall t | 0 <= t < |threads| && !inserts[t] :: IsLooking(threads[t])
  }

  /** Uncounted and admitted threads are different threads that insert, and one that is neither leaves room for one more. */
  lemma {:induction false} CountsBounded(threads: seq<Pc>, inserts: seq<bool>, t: nat, c: nat)
    requires OthersLook(threads, inserts) && t < |threads| && inserts[t]
    ensures UncountedOn(threads, c) + AdmittedOn(threads, c) - Uncounted(threads[t], c) - Admitted(threads[t], c)
            < Inserters(inserts)
  {
    if t == 0 {
      CountsAtMostInserters(threads[1..], inserts[1..], c);
    } else {
      assert IsLooking(threads[0]) || inserts[0];
      CountsBounded(threads[1..], inserts[1..], t - 1, c);
    }
  }

  lemma {:induction false} CountsAtMostInserters(threads: seq<Pc>, inserts: seq<bool>, c: nat)
    requires OthersLook(threads, inserts)
    ensures UncountedOn(threads, c) + AdmittedOn(threads, c) <= Inserters(inserts)
  {
    if threads != [] {
      assert IsLooking(threads[0]) || inserts[0];
      CountsAtMostInserters(threads[1..], inserts[1..], c);
    }
  }

  lemma {:induction false} CountsOfUnknownCache(threads: seq<Pc>, caches: seq<Cache>, passed: set<(nat, nat)>, c: nat)
    requires forall t | 0 <= t < |threads| :: PcShape(threads[t], caches, passed)
    requires c >= |caches|
    ensures UncountedOn(threads, c) == 0 && AdmittedOn(threads, c) == 0
  {
    if threads != [] {
      assert PcShape(threads[0], caches, passed);
      CountsOfUnknownCache(threads[1..], caches, passed, c);
    }
  }

  /** The count lags behind the slots in use, and all slots in use have been admitted below the limit. */
  ghost predicate FillOk(s: State, c: nat)
    requires c < |s.caches|
  {
    var cache := s.caches[c];
    && Used(cache.slots) == cache.n + UncountedOn(s.threads, c)
    && Used(cache.slots) + AdmittedOn(s.threads, c) <= Limit(cache.Size(), s.fillrate) - 1 + Inserters(s.inserts)
  }

  ghost predicate FillInv(s: State) {
    OthersLook(s.threads, s.inserts) && forall c | 0 <= c < |s.caches| :: FillOk(s, c)
  }

  lemma {:induction false} NewCacheUnused(slots: Slots)
    requires forall p | 0 <= p < |slots| :: slots[p] == Entry(0, 0)
    ensures Used(slots) == 0
  {
    if slots != [] {
      NewCacheUnused(slots[1..]);
    }
  }

  lemma {:induction false} FillOkAfterCheck(s: State, t: nat, op: Op, c: nat)
    requires Shape(s) && t < |s.threads| && s.threads[t].CheckCount? && c < |s.caches| && FillOk(s, c)
    requires OthersLook(s.threads, s.inserts)
    ensures c < |Step(s, t, op).caches| && FillOk(Step(s, t, op), c)
  {
    var pc, s' := s.threads[t], Step(s, t, op);
    assert PcShape(pc, s.caches, s.passed);
    CountsAfterMove(s.threads, t, s'.threads[t], c);
    ShouldGrowAtLimit(s.caches[pc.c].n, s.caches[pc.c].Size(), s.fillrate);
    CountsBounded(s.threads, s.inserts, t, c);
  }

  /** A slot of the cache was written, and the thread knows what it was before. */
  lemma {:induction false} FillOkAfterWrite(s: State, s': State, t: nat, p: nat, e: Entry, pc: Pc)
    requires t < |s.threads| && IsAtSlot(s.threads[t])
    requires var c := s.threads[t].c; c < |s.caches| && p < s.caches[c].Size() && FillOk(s, c) && e.value != 0
    requires var c := s.threads[t].c; s' == Go(s, t, pc).(caches := s.caches[c := WithSlot(s.caches[c], p, e)])
    requires var c := s.threads[t].c;
             var taken := if s.caches[c].slots[p].value == 0 then 1 else 0;
             && Uncounted(pc, c) == Uncounted(s.threads[t], c) + taken
             && Admitted(pc, c) + taken <= Admitted(s.threads[t], c)
    ensures FillOk(s', s.threads[t].c)
  {
    var c := s.threads[t].c;
    CountsAfterMove(s.threads, t, pc, c);
    UsedAfterWrite(s.caches[c].slots, p, e);
  }

  lemma {:induction false} FillOkAfterCas(s: State, t: nat, op: Op)
    requires Shape(s) && SlotsInv(s) && t < |s.threads| && s.threads[t].CasValue? && s.threads[t].c < |s.caches|
    requires FillOk(s, s.threads[t].c)
    ensures s.threads[t].c < |Step(s, t, op).caches| && FillOk(Step(s, t, op), s.threads[t].c)
  {
    var pc := s.threads[t];
    assert PcShape(pc, s.caches, s.passed);
    var slot, p := SlotOf(pc, s.caches), At(pc.key, pc.j, s.caches[pc.c].Size());
    if slot.value == 0 {
      FillOkAfterWrite(s, Step(s, t, op), t, p, Entry(slot.key, pc.imp), CountUp(pc.key, pc.imp, pc.c, pc.j));
    } else {
      FillOkFrom(s, Step(s, t, op), t, pc.c);
    }
  }

  lemma {:induction false} FillOkAfterKey(s: State, t: nat, op: Op)
    requires Shape(s) && SlotsInv(s) && t < |s.threads| && s.threads[t].WriteKey? && s.threads[t].c < |s.caches|
    requires FillOk(s, s.threads[t].c)
    ensures s.threads[t].c < |Step(s, t, op).caches| && FillOk(Step(s, t, op), s.threads[t].c)
  {
    var pc := s.threads[t];
    assert PcShape(pc, s.caches, s.passed) && PcSlots(pc, s.caches, s.passed);
    var slot, p := SlotOf(pc, s.caches), At(pc.key, pc.j, s.caches[pc.c].Size());
    FillOkAfterWrite(s, Step(s, t, op), t, p, Entry(pc.key, slot.value), Idle);
  }

  lemma {:induction false} FillOkAfterCount(s: State, t: nat, op: Op, c: nat)
    requires Shape(s) && t < |s.threads| && s.threads[t].CountUp? && c < |s.caches| && FillOk(s, c)
    ensures c < |Step(s, t, op).caches| && FillOk(Step(s, t, op), c)
  {
    assert PcShape(s.threads[t], s.caches, s.passed);
    CountsAfterMove(s.threads, t, Step(s, t, op).threads[t], c);
  }

  /** Steps that leave the caches as they are can only give an admission back. */
  lemma {:induction false} FillOkFrom(s: State, s': State, t: nat, c: nat)
    requires t < |s.threads| && c < |s.caches| && FillOk(s, c) && |s'.threads| == |s.threads|
    requires c < |s'.caches| && s'.caches[c] == s.caches[c] && s'.threads == s.threads[t := s'.threads[t]] && s'.fillrate == s.fillrate
    requires s'.inserts == s.inserts
    requires Uncounted(s'.threads[t], c) == Uncounted(s.threads[t], c) && Admitted(s'.threads[t], c) <= Admitted(s.threads[t], c)
    ensures FillOk(s', c)
  {
    CountsAfterMove(s.threads, t, s'.threads[t], c);
  }

  lemma {:induction false} FillOkAtSlot(s: State, t: nat, op: Op, c: nat)
    requires Shape(s) && t < |s.threads| && c < |s.caches| && FillOk(s, c)
    requires var pc := s.threads[t];
             IsAtSlot(pc) && !IsLooking(pc) && !pc.CountUp? && (pc.CasValue? || pc.WriteKey? ==> pc.c != c)
    ensures c < |Step(s, t, op).caches| && FillOk(Step(s, t, op), c)
  {
    assert PcShape(s.threads[t], s.caches, s.passed);
    FillOkFrom(s, Step(s, t, op), t, c);
  }

  lemma {:induction false} FillOkLooking(s: State, t: nat, op: Op, c: nat)
    requires Shape(s) && t < |s.threads| && c < |s.caches| && FillOk(s, c) && IsLooking(s.threads[t])
    ensures c < |Step(s, t, op).caches| && FillOk(Step(s, t, op), c)
  {
    assert PcShape(s.threads[t], s.caches, s.passed);
    FillOkFrom(s, Step(s, t, op), t, c);
  }

  lemma {:induction false} FillOkOffSlot(s: State, t: nat, op: Op, c: nat)
    requires Shape(s) && t < |s.threads| && c < |s.caches| && FillOk(s, c)
    requires var pc := s.threads[t]; !IsAtSlot(pc) && !IsLooking(pc) && !pc.CheckCount?
    ensures c < |Step(s, t, op).caches| && FillOk(Step(s, t, op), c)
  {
    assert PcShape(s.threads[t], s.caches, s.passed);
    FillOkFrom(s, Step(s, t, op), t, c);
  }

  lemma {:induction false} FillOkKept(s: State, t: nat, op: Op, c: nat)
    requires Shape(s) && SlotsInv(s) && t < |s.threads| && c < |s.caches| && FillOk(s, c) && OthersLook(s.threads, s.inserts)
    ensures c < |Step(s, t, op).caches| && FillOk(Step(s, t, op), c)
  {
    var pc := s.threads[t];
    if pc.CheckCount? {
      FillOkAfterCheck(s, t, op, c);
    } else if pc.CountUp? {
      FillOkAfterCount(s, t, op, c);
    } else if pc.CasValue? && pc.c == c {
      FillOkAfterCas(s, t, op);
    } else if pc.WriteKey? && pc.c == c {
      FillOkAfterKey(s, t, op);
    } else if IsLooking(pc) {
      FillOkLooking(s, t, op, c);
    } else if IsAtSlot(pc) {
      FillOkAtSlot(s, t, op, c);
    } else {
      FillOkOffSlot(s, t, op, c);
    }
  }

  lemma {:induction false} OthersKeepLooking(s: State, t: nat, op: Op)
    requires Shape(s) && OthersLook(s.threads, s.inserts) && t < |s.threads| && OpSane(op)
    ensures OthersLook(Step(s, t, op).threads, Step(s, t, op).inserts)
  {
    StepFrame(s, t, op);
    assert PcShape(s.threads[t], s.caches, s.passed);
  }

  lemma {:induction false} FillKept(s: State, t: nat, op: Op)
    requires Shape(s) && SlotsInv(s) && FillInv(s) && t < |s.threads| && OpSane(op)
    ensures FillInv(Step(s, t, op))
  {
    hide SlotsInv, OthersLook;
    var s' := Step(s, t, op);
    StepFrame(s, t, op);
    OthersKeepLooking(s, t, op);
    forall c | 0 <= c < |s'.caches| ensures FillOk(s', c) {
      if c < |s.caches| {
        FillOkKept(s, t, op, c);
      } else {
        NewCacheUnused(s'.caches[c].slots);
        ShapeKept(s, t, op);
        LimitPositive(s'.caches[c].Size(), s.fillrate);
        CountsOfUnknownCache(s.threads, s.caches, s.passed, c);
        CountsAfterMove(s.threads, t, s'.threads[t], c);
        assert s'.threads == s.threads[t := s'.threads[t]];
      }
    }
  }

  lemma {:induction false} LimitPositive(size: nat, fillrate: nat)
    requires size > 0
    ensures Limit(size, fillrate) > 0
  {
    if fillrate > 0 {
      assert size * fillrate >= 1 * fillrate;
    }
  }

  // ----- free slots

  /** There are few enough threads that insert for the caches of that size. */
  predicate Enough(size: nat, fillrate: nat, inserters: nat) {
    inserters + Limit(size, fillrate) <= size
  }

  /** One thread is few enough if the cache is to grow with the last slot free. */
  lemma {:induction false} OneThreadNeedsAFreeSlot(size: nat, fillrate: nat)
    requires size > 0
    ensures Enough(size, fillrate, 1) <==> ShouldGrow(size - 1, size, fillrate)
  {
    ShouldGrowAtLimit(size - 1, size, fillrate);
  }

  /** What is enough for a cache is enough for one that is twice as large. */
  lemma {:induction false} EnoughForLarger(size: nat, fillrate: nat, inserters: nat)
    requires Enough(size, fillrate, inserters)
    ensures Enough(2 * size, fillrate, inserters)
  {
    if fillrate != 0 {
      assert 2 * size * fillrate == 2 * (size * fillrate);
    }
  }

  ghost predicate HasFreeSlot(cache: Cache) {
    exists p :: 0 <= p < cache.Size() && cache.slots[p].value == 0
  }

  /** In a cache that is large enough for the threads that insert some slot is free. */
  lemma {:induction false} FreeSlotRemains(s: State, c: nat)
    requires c < |s.caches| && FillOk(s, c) && Enough(s.caches[c].Size(), s.fillrate, Inserters(s.inserts))
    ensures HasFreeSlot(s.caches[c])
  {
    var p := FreeSlot(s.caches[c].slots);
    assert s.caches[c].slots[p].value == 0;
  }

  /** The steps that a probe has at most left. */
  ghost function ProbeStepsLeft(pc: Pc, caches: seq<Cache>): nat
    requires pc.ProbeKey? || pc.ProbeValue? || pc.LookKey? || pc.LookEmpty?
    requires pc.c < |caches| && pc.j < caches[pc.c].Size()
  {
    2 * (caches[pc.c].Size() - pc.j) - if pc.ProbeValue? || pc.LookEmpty? then 1 else 0
  }

  predicate IsProbing(pc: Pc) {
    pc.ProbeKey? || pc.ProbeValue? || pc.LookKey? || pc.LookEmpty?
  }

  /** No probe ever completes a lap: with every own step it ends or has fewer steps left. */
  lemma {:induction false} ProbesEnd(s: State, t: nat, op: Op)
    requires Shape(s) && SlotsInv(s) && FillInv(s) && t < |s.threads| && OpSane(op) && IsProbing(s.threads[t])
    requires Enough(s.caches[s.threads[t].c].Size(), s.fillrate, Inserters(s.inserts))
    ensures var pc, pc' := s.threads[t], Step(s, t, op).threads[t];
            IsProbing(pc') ==> pc'.c == pc.c && ProbeStepsLeft(pc', s.caches) < ProbeStepsLeft(pc, s.caches)
  {
    var pc := s.threads[t];
    var slots := s.caches[pc.c].slots;
    assert PcShape(pc, s.caches, s.passed) && PcSlots(pc, s.caches, s.passed);
    assert FillOk(s, pc.c) && SlotOk(slots, At(pc.key, pc.j, |slots|), s.passed);
    if slots[At(pc.key, pc.j, |slots|)].value != 0 {
      ChainEnds(slots, pc.key, pc.j + 1);
    }
  }
}
