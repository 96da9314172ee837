/**
 Threads that fill and read one cache pivot without locks, as a state machine.
 Each step is one atomic read, write, increment or compare-and-swap, so a run
 is any interleaving of the steps of the threads.
 */
module CacheRace {
  import opened CacheSlots

  datatype Cache = Cache(slots: Slots, n: nat) {
    function Size(): nat {
      |slots|
    }
  }

  /** Where a thread is. Fill steps carry the key and implementation that are to be cached; `j` counts probe steps. */
  datatype Pc =
    | Idle
    | ReadPivot(key: nat, imp: nat)                          // get the most recent cache
    | CheckCount(key: nat, imp: nat, c: nat)                 // should it grow ?
    | ReadPivotForSize(key: nat, imp: nat)                   // a convenient swap gets the cache for its size, ...
    | ReadPivotAgain(key: nat, imp: nat, bigger: nat)         // ... and then once more
    | Swap(key: nat, imp: nat, c: nat, bigger: nat)           // CAS the pivot from c to the new cache
    | ProbeKey(key: nat, imp: nat, c: nat, j: nat)           // does the slot have the key ?
    | ProbeValue(key: nat, imp: nat, c: nat, j: nat)         // is the slot free ?
    | CasValue(key: nat, imp: nat, c: nat, j: nat)           // CAS the value from NULL
    | ReadKeyAgain(key: nat, imp: nat, c: nat, j: nat)       // someone else got the slot, for our key ?
    | CountUp(key: nat, imp: nat, c: nat, j: nat)            // increment n
    | WriteKey(key: nat, imp: nat, c: nat, j: nat)           // publish
    | LookPivot(key: nat)
    | LookKey(key: nat, c: nat, j: nat)                      // does the slot have the key ?
    | LookEmpty(key: nat, c: nat, j: nat)                    // does the slot have no key ?
    | LookValue(key: nat, c: nat, j: nat)                    // read the implementation
    | Looked(key: nat, result: nat)                          // result 0 is a miss

  /** What an idle thread does next. */
  datatype Op = Fill(key: nat, imp: nat) | Lookup(key: nat)

  /**
   The pivot, all caches ever allocated, and the threads. `retired` are the
   caches that were replaced, `discarded` those that lost the race to become
   current, both in order. `inserts` says which threads ever insert; the other
   threads look up whatever they are given. `passed` is what fills were asked
   to cache. With `reread` the swap is the "convenient" one of the method caches.
   */
  datatype State = State(caches: seq<Cache>, pivot: nat, retired: seq<nat>, discarded: seq<nat>,
                         threads: seq<Pc>, inserts: seq<bool>, passed: set<(nat, nat)>, fillrate: nat, reread: bool)

  function NewCache(size: nat): Cache {
    Cache(seq(size, _ => Entry(0, 0)), 0)
  }

  /** The next probe step; after the last slot the probe goes around. */
  function Next(j: nat, size: nat): nat {
    if j + 1 < size then j + 1 else 0
  }

  /** Indices are in range, ids and implementations are not 0, and what is being filled was passed. */
  ghost predicate PcShape(pc: Pc, caches: seq<Cache>, passed: set<(nat, nat)>) {
    match pc
    case Idle => true
    case ReadPivot(key, imp) => key != 0 && imp != 0 && (key, imp) in passed
    case CheckCount(key, imp, c) => key != 0 && imp != 0 && (key, imp) in passed && c < |caches|
    case ReadPivotForSize(key, imp) => key != 0 && imp != 0 && (key, imp) in passed
    case ReadPivotAgain(key, imp, bigger) => key != 0 && imp != 0 && (key, imp) in passed && bigger < |caches|
    case Swap(key, imp, c, bigger) => key != 0 && imp != 0 && (key, imp) in passed && c < |caches| && bigger < |caches|
    case LookPivot(key) => key != 0
    case LookKey(key, c, j) => key != 0 && c < |caches| && j < caches[c].Size()
    case LookEmpty(key, c, j) => key != 0 && c < |caches| && j < caches[c].Size()
    case LookValue(key, c, j) => key != 0 && c < |caches| && j < caches[c].Size()
    case Looked(key, result) => key != 0
    case _ => pc.key != 0 && pc.imp != 0 && (pc.key, pc.imp) in passed && pc.c < |caches| && pc.j < caches[pc.c].Size()
  }

  /** The thread is at a slot of a cache. */
  predicate IsAtSlot(pc: Pc) {
    || pc.ProbeKey? || pc.ProbeValue? || pc.CasValue? || pc.ReadKeyAgain? || pc.CountUp? || pc.WriteKey?
    || pc.LookKey? || pc.LookEmpty? || pc.LookValue?
  }

  predicate IsLooking(pc: Pc) {
    pc.Idle? || pc.LookPivot? || pc.LookKey? || pc.LookEmpty? || pc.LookValue? || pc.Looked?
  }

  ghost predicate Shape(s: State) {
    && s.pivot < |s.caches| && |s.inserts| == |s.threads|
    && (forall c | 0 <= c < |s.caches| :: s.caches[c].Size() > 1)
    && (forall t | 0 <= t < |s.threads| :: PcShape(s.threads[t], s.caches, s.passed))
  }

  // ----- steps

  ghost function Go(s: State, t: nat, pc: Pc): State
    requires t < |s.threads|
  {
    s.(threads := s.threads[t := pc])
  }

  /** The slot a probing thread looks at. */
  ghost function SlotOf(pc: Pc, caches: seq<Cache>): Entry
    requires IsAtSlot(pc) && pc.c < |caches| && pc.j < caches[pc.c].Size()
  {
    caches[pc.c].slots[At(pc.key, pc.j, caches[pc.c].Size())]
  }

  function WithSlot(cache: Cache, p: nat, e: Entry): Cache
    requires p < |cache.slots|
  {
    cache.(slots := cache.slots[p := e])
  }

  /** The size of the cache that replaces one that is too full. Method caches do not grow beyond 4M entries. */
  function Bigger(size: nat, reread: bool): nat {
    if reread && size >= 0x40_0000 then size else 2 * size
  }

  ghost function Allocate(s: State, t: nat, size: nat, pc: Pc): State
    requires t < |s.threads|
  {
    Go(s, t, pc).(caches := s.caches + [NewCache(Bigger(size, s.reread))])
  }

  ghost function Start(s: State, t: nat, op: Op): State
    requires t < |s.threads| == |s.inserts|
  {
    if op.Fill? && s.inserts[t] then Go(s, t, ReadPivot(op.key, op.imp)).(passed := s.passed + {(op.key, op.imp)})
    else Go(s, t, LookPivot(op.key))
  }

  /** One step of thread `t`. */
  ghost function Step(s: State, t: nat, op: Op): State
    requires Shape(s) && t < |s.threads|
  {
    match s.threads[t]
    case Idle => Start(s, t, op)
    case Looked(_, _) => Start(s, t, op)
    // filling
    case ReadPivot(key, imp) => Go(s, t, CheckCount(key, imp, s.pivot))
    case CheckCount(key, imp, c) =>
      var cache := s.caches[c];
      if ShouldGrow(cache.n, cache.Size(), s.fillrate) then
        if s.reread then Go(s, t, ReadPivotForSize(key, imp))
        else Allocate(s, t, cache.Size(), Swap(key, imp, c, |s.caches|))
      else
        Go(s, t, ProbeKey(key, imp, c, 0))
    case ReadPivotForSize(key, imp) => Allocate(s, t, s.caches[s.pivot].Size(), ReadPivotAgain(key, imp, |s.caches|))
    case ReadPivotAgain(key, imp, bigger) => Go(s, t, Swap(key, imp, s.pivot, bigger))
    case Swap(key, imp, c, bigger) =>
      var s' := Go(s, t, ReadPivot(key, imp));
      if s.pivot == c then s'.(pivot := bigger, retired := s.retired + [c])
      else s'.(discarded := s.discarded + [bigger])
    case ProbeKey(key, imp, c, j) =>
      Go(s, t, if SlotOf(s.threads[t], s.caches).key == key then CasValue(key, imp, c, j) else ProbeValue(key, imp, c, j))
    case ProbeValue(key, imp, c, j) =>
      Go(s, t, if SlotOf(s.threads[t], s.caches).value == 0 then CasValue(key, imp, c, j)
               else ProbeKey(key, imp, c, Next(j, s.caches[c].Size())))
    case CasValue(key, imp, c, j) =>
      var slot := SlotOf(s.threads[t], s.caches);
      if slot.value == 0 then
        Go(s, t, CountUp(key, imp, c, j))
          .(caches := s.caches[c := WithSlot(s.caches[c], At(key, j, s.caches[c].Size()), Entry(slot.key, imp))])
      else Go(s, t, ReadKeyAgain(key, imp, c, j))
    case ReadKeyAgain(key, imp, c, j) =>
      Go(s, t, if SlotOf(s.threads[t], s.caches).key == key then Idle else ReadPivot(key, imp))
    case CountUp(key, imp, c, j) =>
      Go(s, t, WriteKey(key, imp, c, j)).(caches := s.caches[c := s.caches[c].(n := s.caches[c].n + 1)])
    case WriteKey(key, imp, c, j) =>
      var slot := SlotOf(s.threads[t], s.caches);
      Go(s, t, Idle)
        .(caches := s.caches[c := WithSlot(s.caches[c], At(key, j, s.caches[c].Size()), Entry(key, slot.value))])
    // looking up
    case LookPivot(key) => Go(s, t, LookKey(key, s.pivot, 0))
    case LookKey(key, c, j) =>
      Go(s, t, if SlotOf(s.threads[t], s.caches).key == key then LookValue(key, c, j) else LookEmpty(key, c, j))
    case LookEmpty(key, c, j) =>
      Go(s, t, if SlotOf(s.threads[t], s.caches).key == 0 then Looked(key, 0)
               else LookKey(key, c, Next(j, s.caches[c].Size())))
    case LookValue(key, c, j) => Go(s, t, Looked(key, SlotOf(s.threads[t], s.caches).value))
  }

  predicate OpSane(op: Op) {
    op.key != 0 && (op.Fill? ==> op.imp != 0)
  }

  // ----- what no step undoes

  /** A value that is set stays, and a key that is visible stays with its value. */
  ghost predicate Evolved(a: Slots, b: Slots) {
    && |a| == |b|
    && (forall p | 0 <= p < |a| && a[p].value != 0 :: b[p].value == a[p].value)
    && (forall p | 0 <= p < |a| && a[p].key != 0 :: b[p].key == a[p].key)
  }

  ghost predicate AllEvolved(a: seq<Cache>, b: seq<Cache>) {
    && |a| <= |b|
    && (forall c | 0 <= c < |a| :: Evolved(a[c].slots, b[c].slots) && a[c].n <= b[c].n)
  }

  lemma {:induction false} ChainSurvives(a: Slots, b: Slots, id: nat, j: nat)
    requires Evolved(a, b) && j <= |a| && ChainTo(a, id, j)
    ensures ChainTo(b, id, j)
  {
  }

  // ----- what threads know about slots, and slots about threads

  /** The thread has set the value of that slot, but not yet written its key. */
  ghost predicate IsWriter(pc: Pc, caches: seq<Cache>, c: nat, p: nat) {
    && (pc.CountUp? || pc.WriteKey?)
    && pc.c == c < |caches| && pc.j < caches[c].Size() && At(pc.key, pc.j, caches[c].Size()) == p
  }

  ghost predicate PcSlots(pc: Pc, caches: seq<Cache>, passed: set<(nat, nat)>)
    requires PcShape(pc, caches, passed)
  {
    match pc
    case ProbeKey(key, _, c, j) => ChainTo(caches[c].slots, key, j)
    case ProbeValue(key, _, c, j) => ChainTo(caches[c].slots, key, j)
    case CasValue(key, _, c, j) => ChainTo(caches[c].slots, key, j)
    case ReadKeyAgain(key, _, c, j) => ChainTo(caches[c].slots, key, j)
    case CountUp(key, imp, c, j) => ChainTo(caches[c].slots, key, j) && SlotOf(pc, caches) == Entry(0, imp)
    case WriteKey(key, imp, c, j) => ChainTo(caches[c].slots, key, j) && SlotOf(pc, caches) == Entry(0, imp)
    case LookKey(key, c, j) => ChainTo(caches[c].slots, key, j)
    case LookEmpty(key, c, j) => ChainTo(caches[c].slots, key, j)
    case LookValue(key, c, j) => SlotOf(pc, caches).key == key
    case Looked(key, result) => result != 0 ==> (key, result) in passed
    case _ => true
  }

  /** A visible key sits on a value that was passed for it, at the end of a chain without gaps. */
  ghost predicate SlotOk(slots: Slots, p: nat, passed: set<(nat, nat)>)
    requires p < |slots|
  {
    slots[p].key != 0 ==>
      slots[p].value != 0 && (slots[p].key, slots[p].value) in passed
      && ChainTo(slots, slots[p].key, Steps(slots[p].key, p, |slots|))
  }

  /** Value set, but no key yet. */
  ghost predicate HalfPublished(e: Entry) {
    e.key == 0 && e.value != 0
  }

  ghost predicate SlotsInv(s: State)
    requires Shape(s)
  {
    && (forall t | 0 <= t < |s.threads| :: PcSlots(s.threads[t], s.caches, s.passed))
    && (forall c, p | 0 <= c < |s.caches| && 0 <= p < |s.caches[c].slots| :: SlotOk(s.caches[c].slots, p, s.passed))
    && (forall c, p | 0 <= c < |s.caches| && 0 <= p < |s.caches[c].slots| && HalfPublished(s.caches[c].slots[p]) ::
          exists t :: 0 <= t < |s.threads| && IsWriter(s.threads[t], s.caches, c, p))
    && (forall t, u, c, p | 0 <= t < |s.threads| && 0 <= u < |s.threads|
                            && IsWriter(s.threads[t], s.caches, c, p) && IsWriter(s.threads[u], s.caches, c, p) :: t == u)
  }

  // ----- the slot invariant is kept

  lemma {:induction false} PcShapeSurvives(pc: Pc, a: seq<Cache>, b: seq<Cache>, passed: set<(nat, nat)>, passed': set<(nat, nat)>)
    requires PcShape(pc, a, passed) && passed <= passed' && |a| <= |b|
    requires forall c | 0 <= c < |a| :: a[c].Size() == b[c].Size()
    ensures PcShape(pc, b, passed')
  {
  }

  /** What every step leaves alone: the other threads, the sizes of the caches, and what was passed. */
  ghost predicate Framed(s: State, s': State, t: nat) {
    && |s'.threads| == |s.threads| && (forall u | 0 <= u < |s.threads| && u != t :: s'.threads[u] == s.threads[u])
    && |s.caches| <= |s'.caches| && (forall c | 0 <= c < |s.caches| :: s.caches[c].Size() == s'.caches[c].Size())
    && s'.inserts == s.inserts && s.passed <= s'.passed && s'.fillrate == s.fillrate && s'.reread == s.reread
  }

  lemma {:induction false} LookingFrame(s: State, t: nat, op: Op)
    requires Shape(s) && t < |s.threads| && IsLooking(s.threads[t])
    ensures Framed(s, Step(s, t, op), t)
  {
    assert PcShape(s.threads[t], s.caches, s.passed);
  }

  lemma {:induction false} SlotFrame(s: State, t: nat, op: Op)
    requires Shape(s) && t < |s.threads| && IsAtSlot(s.threads[t]) && !IsLooking(s.threads[t])
    ensures Framed(s, Step(s, t, op), t)
  {
    assert PcShape(s.threads[t], s.caches, s.passed);
  }

  lemma {:induction false} StepFrame(s: State, t: nat, op: Op)
    requires Shape(s) && t < |s.threads|
    ensures Framed(s, Step(s, t, op), t)
  {
    if IsLooking(s.threads[t]) {
      LookingFrame(s, t, op);
    } else if IsAtSlot(s.threads[t]) {
      SlotFrame(s, t, op);
    } else {
      assert PcShape(s.threads[t], s.caches, s.passed);
    }
  }

  lemma {:induction false} LookingShapeKept(s: State, t: nat, op: Op)
    requires Shape(s) && t < |s.threads| && OpSane(op) && IsLooking(s.threads[t])
    ensures var s' := Step(s, t, op); |s'.threads| == |s.threads| && PcShape(s'.threads[t], s'.caches, s'.passed)
  {
    assert PcShape(s.threads[t], s.caches, s.passed);
  }

  lemma {:induction false} SlotShapeKept(s: State, t: nat, op: Op)
    requires Shape(s) && t < |s.threads| && IsAtSlot(s.threads[t]) && !IsLooking(s.threads[t])
    ensures var s' := Step(s, t, op); |s'.threads| == |s.threads| && PcShape(s'.threads[t], s'.caches, s'.passed)
  {
    assert PcShape(s.threads[t], s.caches, s.passed);
  }

  lemma {:induction false} FillingShapeKept(s: State, t: nat, op: Op)
    requires Shape(s) && t < |s.threads| && !IsLooking(s.threads[t])
    ensures var s' := Step(s, t, op); |s'.threads| == |s.threads| && PcShape(s'.threads[t], s'.caches, s'.passed)
  {
    if IsAtSlot(s.threads[t]) {
      SlotShapeKept(s, t, op);
    } else {
      assert PcShape(s.threads[t], s.caches, s.passed);
    }
  }

  lemma {:induction false} CachesKept(s: State, t: nat, op: Op)
    requires Shape(s) && t < |s.threads| && OpSane(op)
    ensures var s' := Step(s, t, op);
            s'.pivot < |s'.caches| && forall c | 0 <= c < |s'.caches| :: s'.caches[c].Size() > 1
  {
    assert PcShape(s.threads[t], s.caches, s.passed);
  }

  lemma {:induction false} ShapeFrom(s: State, s': State, t: nat)
    requires Shape(s) && Framed(s, s', t) && t < |s.threads|
    requires s'.pivot < |s'.caches| && forall c | 0 <= c < |s'.caches| :: s'.caches[c].Size() > 1
    requires PcShape(s'.threads[t], s'.caches, s'.passed)
    ensures Shape(s')
  {
    forall u | 0 <= u < |s.threads| && u != t ensures PcShape(s'.threads[u], s'.caches, s'.passed) {
      PcShapeSurvives(s.threads[u], s.caches, s'.caches, s.passed, s'.passed);
    }
  }

  lemma {:induction false} ShapeKept(s: State, t: nat, op: Op)
    requires Shape(s) && t < |s.threads| && OpSane(op)
    ensures Shape(Step(s, t, op))
  {
    StepFrame(s, t, op);
    if IsLooking(s.threads[t]) {
      LookingShapeKept(s, t, op);
    } else {
      FillingShapeKept(s, t, op);
    }
    CachesKept(s, t, op);
    ShapeFrom(s, Step(s, t, op), t);
  }

  /** No step takes anything back that is visible in a cache. */
  lemma {:induction false} StepEvolves(s: State, t: nat, op: Op)
    requires Shape(s) && SlotsInv(s) && t < |s.threads|
    ensures AllEvolved(s.caches, Step(s, t, op).caches)
  {
    var pc := s.threads[t];
    assert PcShape(pc, s.caches, s.passed);
    if pc.CasValue? || pc.WriteKey? {
      var p := At(pc.key, pc.j, s.caches[pc.c].Size());
      assert SlotOk(s.caches[pc.c].slots, p, s.passed);
      assert PcSlots(pc, s.caches, s.passed);
    }
  }

  lemma {:induction false} PcSlotsSurvive(pc: Pc, a: seq<Cache>, b: seq<Cache>, passed: set<(nat, nat)>, passed': set<(nat, nat)>)
    requires PcShape(pc, a, passed) && PcShape(pc, b, passed') && PcSlots(pc, a, passed) && AllEvolved(a, b)
    requires pc.CountUp? || pc.WriteKey? ==> SlotOf(pc, b) == SlotOf(pc, a)
    requires passed <= passed'
    ensures PcSlots(pc, b, passed')
  {
  }

  /** The thread that moves still knows what its program counter says. */
  lemma {:induction false} OwnSlotsKeptAtSlot(s: State, t: nat, op: Op)
    requires Shape(s) && SlotsInv(s) && t < |s.threads| && OpSane(op) && Shape(Step(s, t, op)) && IsAtSlot(s.threads[t])
    ensures var s' := Step(s, t, op); PcSlots(s'.threads[t], s'.caches, s'.passed)
  {
    hide AllEvolved, HalfPublished;
    var pc, s' := s.threads[t], Step(s, t, op);
    assert PcShape(pc, s.caches, s.passed) && PcSlots(pc, s.caches, s.passed);
    StepEvolves(s, t, op);
    var slots := s.caches[pc.c].slots;
    assert SlotOk(slots, At(pc.key, pc.j, |slots|), s.passed);
    ChainSurvives(slots, s'.caches[pc.c].slots, pc.key, if pc.LookValue? then 0 else pc.j);
  }

  lemma {:induction false} OwnSlotsKept(s: State, t: nat, op: Op)
    requires Shape(s) && SlotsInv(s) && t < |s.threads| && OpSane(op) && Shape(Step(s, t, op))
    ensures var s' := Step(s, t, op); PcSlots(s'.threads[t], s'.caches, s'.passed)
  {
    if IsAtSlot(s.threads[t]) {
      OwnSlotsKeptAtSlot(s, t, op);
    } else {
      assert PcShape(s.threads[t], s.caches, s.passed) && PcSlots(s.threads[t], s.caches, s.passed);
    }
  }

  /** Only its writer writes the key of a slot. */
  lemma {:induction false} KeyOfWriter(s: State, t: nat, op: Op, c: nat, p: nat)
    requires Shape(s) && t < |s.threads| && c < |s.caches| && p < |s.caches[c].slots| && !IsWriter(s.threads[t], s.caches, c, p)
    ensures var s' := Step(s, t, op);
            c < |s'.caches| && p < |s'.caches[c].slots| && s'.caches[c].slots[p].key == s.caches[c].slots[p].key
  {
    assert PcShape(s.threads[t], s.caches, s.passed);
  }

  /** A slot that another thread has claimed is not touched. */
  lemma {:induction false} OtherSlotsKept(s: State, s': State, t: nat, u: nat)
    requires Shape(s) && SlotsInv(s) && Shape(s') && Framed(s, s', t) && AllEvolved(s.caches, s'.caches)
    requires t < |s.threads| && u < |s.threads| && u != t
    requires var pc := s.threads[u];
             (pc.CountUp? || pc.WriteKey?) && pc.c < |s.caches| && pc.j < s.caches[pc.c].Size() ==>
               SlotOf(pc, s'.caches).key == SlotOf(pc, s.caches).key
    ensures PcSlots(s'.threads[u], s'.caches, s'.passed)
  {
    var pc := s.threads[u];
    assert PcShape(pc, s.caches, s.passed) && PcSlots(pc, s.caches, s.passed);
    assert PcShape(s'.threads[u], s'.caches, s'.passed);
    PcSlotsSurvive(pc, s.caches, s'.caches, s.passed, s'.passed);
  }

  /** What is written to a slot comes with what its writer knows. */
  lemma {:induction false} SlotOkWritten(s: State, t: nat, op: Op, c: nat, p: nat)
    requires Shape(s) && SlotsInv(s) && t < |s.threads| && IsWriter(s.threads[t], s.caches, c, p)
    ensures var s' := Step(s, t, op);
            && c < |s'.caches| && p < |s'.caches[c].slots| && |s'.caches[c].slots| == |s.caches[c].slots|
            && var e := s'.caches[c].slots[p];
               e.key != 0 ==> e.value != 0 && (e.key, e.value) in s.passed && s.passed <= s'.passed
                              && ChainTo(s.caches[c].slots, e.key, Steps(e.key, p, |s.caches[c].slots|))
  {
    assert PcShape(s.threads[t], s.caches, s.passed) && PcSlots(s.threads[t], s.caches, s.passed);
  }

  lemma {:induction false} SlotOkKept(s: State, t: nat, op: Op, c: nat, p: nat)
    requires Shape(s) && SlotsInv(s) && t < |s.threads| && OpSane(op) && c < |s.caches| && p < |s.caches[c].slots|
    ensures var s' := Step(s, t, op); c < |s'.caches| && p < |s'.caches[c].slots| && SlotOk(s'.caches[c].slots, p, s'.passed)
  {
    var s' := Step(s, t, op);
    StepFrame(s, t, op);
    StepEvolves(s, t, op);
    var a, b := s.caches[c].slots, s'.caches[c].slots;
    assert SlotOk(a, p, s.passed);
    if IsWriter(s.threads[t], s.caches, c, p) {
      SlotOkWritten(s, t, op, c, p);
    } else {
      KeyOfWriter(s, t, op, c, p);
    }
    if b[p].key != 0 {
      ChainSurvives(a, b, b[p].key, Steps(b[p].key, p, |a|));
    }
  }

  lemma {:induction false} NewSlotsEmpty(s: State, t: nat, op: Op, c: nat, p: nat)
    requires Shape(s) && t < |s.threads| && |s.caches| <= c < |Step(s, t, op).caches|
    requires p < |Step(s, t, op).caches[c].slots|
    ensures Step(s, t, op).caches[c].slots[p] == Entry(0, 0)
  {
    assert PcShape(s.threads[t], s.caches, s.passed);
  }

  /** A half-published slot belongs to its writer until the key is there. */
  lemma {:induction false} WriterStays(s: State, t: nat, op: Op, c: nat, p: nat)
    requires Shape(s) && t < |s.threads| && IsWriter(s.threads[t], s.caches, c, p)
    requires var s' := Step(s, t, op); c < |s'.caches| && p < |s'.caches[c].slots| && s'.caches[c].slots[p].key == 0
    ensures var s' := Step(s, t, op); |s'.threads| == |s.threads| && IsWriter(s'.threads[t], s'.caches, c, p)
  {
    assert PcShape(s.threads[t], s.caches, s.passed);
  }

  lemma {:induction false} HalfPublishedBy(s: State, t: nat, op: Op, c: nat, p: nat)
    requires Shape(s) && t < |s.threads|
    requires var s' := Step(s, t, op); c < |s'.caches| && p < |s'.caches[c].slots| && HalfPublished(s'.caches[c].slots[p])
    requires c < |s.caches| && p < |s.caches[c].slots| ==> !HalfPublished(s.caches[c].slots[p])
    ensures var s' := Step(s, t, op); |s'.threads| == |s.threads| && IsWriter(s'.threads[t], s'.caches, c, p)
  {
    assert PcShape(s.threads[t], s.caches, s.passed);
  }

  lemma {:induction false} HalfPublishedKept(s: State, t: nat, op: Op, c: nat, p: nat)
    requires Shape(s) && SlotsInv(s) && t < |s.threads| && OpSane(op) && Framed(s, Step(s, t, op), t)
    requires var s' := Step(s, t, op); c < |s'.caches| && p < |s'.caches[c].slots| && HalfPublished(s'.caches[c].slots[p])
    ensures var s' := Step(s, t, op); exists u :: 0 <= u < |s'.threads| && IsWriter(s'.threads[u], s'.caches, c, p)
  {
    var s' := Step(s, t, op);
    if c < |s.caches| && p < |s.caches[c].slots| && HalfPublished(s.caches[c].slots[p]) {
      var u :| 0 <= u < |s.threads| && IsWriter(s.threads[u], s.caches, c, p);
      if u == t {
        WriterStays(s, t, op, c, p);
      }
      assert IsWriter(s'.threads[u], s'.caches, c, p);
    } else {
      HalfPublishedBy(s, t, op, c, p);
    }
  }

  lemma {:induction false} OffSlotClaims(s: State, t: nat, op: Op, c: nat, p: nat)
    requires Shape(s) && t < |s.threads| && !IsAtSlot(s.threads[t])
    ensures var s' := Step(s, t, op); |s'.threads| == |s.threads| && !IsWriter(s'.threads[t], s'.caches, c, p)
  {
    assert PcShape(s.threads[t], s.caches, s.passed);
  }

  /** A thread that starts to write a slot finds it free, so no one else is writing it. */
  lemma {:induction false} StepClaims(s: State, t: nat, op: Op, c: nat, p: nat)
    requires Shape(s) && SlotsInv(s) && t < |s.threads| && OpSane(op)
    requires var s' := Step(s, t, op); |s'.threads| == |s.threads| && IsWriter(s'.threads[t], s'.caches, c, p)
    ensures c < |s.caches| && p < |s.caches[c].slots|
    ensures IsWriter(s.threads[t], s.caches, c, p) || s.caches[c].slots[p].value == 0
  {
    assert PcShape(s.threads[t], s.caches, s.passed);
    if !IsAtSlot(s.threads[t]) {
      OffSlotClaims(s, t, op, c, p);
    }
  }

  lemma {:induction false} OneWriterKept(s: State, s': State, t: nat, u: nat, v: nat, c: nat, p: nat)
    requires Shape(s) && SlotsInv(s) && Framed(s, s', t) && t < |s.threads|
    requires IsWriter(s'.threads[t], s'.caches, c, p) ==>
               c < |s.caches| && p < |s.caches[c].slots|
               && (IsWriter(s.threads[t], s.caches, c, p) || s.caches[c].slots[p].value == 0)
    requires u < |s.threads| && v < |s.threads|
    requires IsWriter(s'.threads[u], s'.caches, c, p) && IsWriter(s'.threads[v], s'.caches, c, p)
    ensures u == v
  {
    forall w | 0 <= w < |s.threads| && w != t && IsWriter(s'.threads[w], s'.caches, c, p)
      ensures IsWriter(s.threads[w], s.caches, c, p) && s.caches[c].slots[p].value != 0
    {
      assert PcShape(s.threads[w], s.caches, s.passed) && PcSlots(s.threads[w], s.caches, s.passed);
    }
  }

  lemma {:induction false} SlotsKept(s: State, t: nat, op: Op)
    requires Shape(s) && SlotsInv(s) && t < |s.threads| && OpSane(op)
    ensures Shape(Step(s, t, op)) && SlotsInv(Step(s, t, op))
  {
    ShapeKept(s, t, op);
    StepFrame(s, t, op);
    StepEvolves(s, t, op);
    var s' := Step(s, t, op);
    forall u | 0 <= u < |s'.threads| ensures PcSlots(s'.threads[u], s'.caches, s'.passed) {
      if u == t {
        OwnSlotsKept(s, t, op);
      } else {
        var pc := s.threads[u];
        assert PcShape(pc, s.caches, s.passed);
        if pc.CountUp? || pc.WriteKey? {
          var p := At(pc.key, pc.j, s.caches[pc.c].Size());
          assert IsWriter(pc, s.caches, pc.c, p);
          KeyOfWriter(s, t, op, pc.c, p);
        }
        OtherSlotsKept(s, s', t, u);
      }
    }
    forall c, p | 0 <= c < |s'.caches| && 0 <= p < |s'.caches[c].slots| ensures SlotOk(s'.caches[c].slots, p, s'.passed) {
      if c < |s.caches| {
        SlotOkKept(s, t, op, c, p);
      } else {
        NewSlotsEmpty(s, t, op, c, p);
      }
    }
    forall c, p | 0 <= c < |s'.caches| && 0 <= p < |s'.caches[c].slots| && HalfPublished(s'.caches[c].slots[p])
      ensures exists u :: 0 <= u < |s'.threads| && IsWriter(s'.threads[u], s'.caches, c, p)
    {
      HalfPublishedKept(s, t, op, c, p);
    }
    forall u, v, c, p | 0 <= u < |s'.threads| && 0 <= v < |s'.threads|
                        && IsWriter(s'.threads[u], s'.caches, c, p) && IsWriter(s'.threads[v], s'.caches, c, p)
      ensures u == v
    {
      if IsWriter(s'.threads[t], s'.caches, c, p) {
        StepClaims(s, t, op, c, p);
      }
      OneWriterKept(s, s', t, u, v, c, p);
    }
  }
}
