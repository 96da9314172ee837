/** What a fill has achieved when it ends, and what a full cache is replaced for. */
module CacheRaceInsert {
  import opened Prelude
  import opened CacheSlots
  import opened CacheRace
  import opened CacheRaceFill
  import opened CacheRaceOwners
  import opened CacheRaceTheorems
  import opened CacheRaceLookup

  // ----- a fill leaves its key in a cache

  /** A cache that is or was current has the key. */
  ghost predicate Filled(s: State, key: nat) {
    exists c, p :: c in History(s) && c < |s.caches| && 0 <= p < |s.caches[c].slots| && s.caches[c].slots[p].key == key
  }

  /** The fill goes on, or it has ended and the key is there. */
  ghost predicate Fills(s: State, t: nat, key: nat, imp: nat) {
    t < |s.threads| &&
    match s.threads[t]
    case Idle => Filled(s, key)
    case _ => !IsLooking(s.threads[t]) && s.threads[t].key == key && s.threads[t].imp == imp
  }

  lemma {:induction false} HistoryStays(s: State, t: nat, op: Op)
    requires Shape(s) && t < |s.threads|
    ensures forall c | c in History(s) :: c in History(Step(s, t, op))
  {
    var s', pc := Step(s, t, op), s.threads[t];
    assert PcShape(pc, s.caches, s.passed);
    assert (s'.retired == s.retired && s'.pivot == s.pivot) || s'.retired == s.retired + [s.pivot];
  }

  lemma {:induction false} KeyStays(s: State, t: nat, op: Op, key: nat)
    requires Invariant(s) && t < |s.threads| && Filled(s, key) && key != 0
    ensures Filled(Step(s, t, op), key)
  {
    hide Step, FillInv, OwnersInv;
    var c, p :| c in History(s) && c < |s.caches| && 0 <= p < |s.caches[c].slots| && s.caches[c].slots[p].key == key;
    HistoryStays(s, t, op);
    StepEvolves(s, t, op);
    assert Evolved(s.caches[c].slots, Step(s, t, op).caches[c].slots);
    assert Step(s, t, op).caches[c].slots[p].key == key;
  }

  lemma {:induction false} FillStep(s: State, t: nat, op: Op, key: nat, imp: nat)
    requires Invariant(s) && Fills(s, t, key, imp) && !s.threads[t].Idle?
    ensures Fills(Step(s, t, op), t, key, imp)
  {
    hide SlotsInv, FillInv, Exclusive, Exhaustive, Doubling;
    var pc, s' := s.threads[t], Step(s, t, op);
    assert PcShape(pc, s.caches, s.passed);
    if pc.ReadKeyAgain? || pc.WriteKey? {
      assert pc.c in History(s) && History(s') == History(s);
      assert s'.threads[t].Idle? ==> s'.caches[pc.c].slots[At(pc.key, pc.j, s.caches[pc.c].Size())].key == key;
    }
  }

  /** When a fill ends, in whatever way, its key is visible in a cache that is or was current, and will stay so. */
  lemma {:induction false} FillLeavesKey(s: State, moves: seq<Move>, t: nat, key: nat, imp: nat)
    requires Invariant(s) && key != 0 && Fills(s, t, key, imp)
    requires Schedulable(moves, |s.threads|) && NothingElse(s, t, moves)
    ensures Fills(Run(s, moves), t, key, imp)
    decreases |moves|
  {
    if moves != [] {
      var m := moves[0];
      InvariantKept(s, m);
      if m.thread == t {
        FillStep(s, t, m.op, key, imp);
      } else {
        StepFrame(s, m.thread, m.op);
        if s.threads[t].Idle? {
          KeyStays(s, m.thread, m.op, key);
        }
      }
      FillLeavesKey(Step(s, m.thread, m.op), moves[1..], t, key, imp);
    }
  }

  // ----- a fill of a key that is visible takes no slot

  ghost predicate KeyAt(slots: Slots, key: nat, j: nat) {
    j < |slots| && slots[At(key, j, |slots|)].key == key
  }

  /** The fill has not passed the key, and has not taken a slot. */
  ghost predicate Revisits(s: State, t: nat, key: nat, imp: nat, c: nat, d: nat) {
    && t < |s.threads| && c < |s.caches| && KeyAt(s.caches[c].slots, key, d)
    && match s.threads[t]
       case Idle => true
       case ProbeKey(k, i, c', j) => k == key && i == imp && c' == c && j <= d
       case ProbeValue(k, i, c', j) => k == key && i == imp && c' == c && j < d
       case CasValue(k, i, c', j) => k == key && i == imp && c' == c && KeyAt(s.caches[c].slots, key, j)
       case ReadKeyAgain(k, i, c', j) => k == key && i == imp && c' == c && KeyAt(s.caches[c].slots, key, j)
       case _ => false
  }

  lemma {:induction false} RevisitStep(s: State, t: nat, op: Op, key: nat, imp: nat, c: nat, d: nat)
    requires Invariant(s) && key != 0 && Revisits(s, t, key, imp, c, d) && !s.threads[t].Idle?
    ensures Revisits(Step(s, t, op), t, key, imp, c, d)
  {
    hide FillInv, OwnersInv;
    var pc, slots := s.threads[t], s.caches[c].slots;
    assert PcShape(pc, s.caches, s.passed);
    assert SlotOk(slots, At(key, d, |slots|), s.passed) && SlotOk(slots, At(key, pc.j, |slots|), s.passed);
    assert Steps(key, At(key, d, |slots|), |slots|) == d;
  }

  lemma {:induction false} RevisitOther(s: State, m: Move, t: nat, key: nat, imp: nat, c: nat, d: nat)
    requires Invariant(s) && key != 0 && Revisits(s, t, key, imp, c, d)
    requires m.thread < |s.threads| && OpSane(m.op) && m.thread != t
    ensures Revisits(Step(s, m.thread, m.op), t, key, imp, c, d)
  {
    hide Step, FillInv, OwnersInv;
    StepFrame(s, m.thread, m.op);
    StepEvolves(s, m.thread, m.op);
    assert PcShape(s.threads[t], s.caches, s.passed);
    assert Evolved(s.caches[c].slots, Step(s, m.thread, m.op).caches[c].slots);
  }

  /** A fill of a key that is visible when it starts to probe never takes another slot. */
  lemma {:induction false} VisibleIsNotFilledAgain(s: State, moves: seq<Move>, t: nat, key: nat, imp: nat, c: nat, d: nat)
    requires Invariant(s) && key != 0 && Revisits(s, t, key, imp, c, d)
    requires Schedulable(moves, |s.threads|) && NothingElse(s, t, moves)
    ensures Revisits(Run(s, moves), t, key, imp, c, d)
    decreases |moves|
  {
    if moves != [] {
      var m := moves[0];
      InvariantKept(s, m);
      if m.thread == t {
        RevisitStep(s, t, m.op, key, imp, c, d);
      } else {
        RevisitOther(s, m, t, key, imp, c, d);
      }
      VisibleIsNotFilledAgain(Step(s, m.thread, m.op), moves[1..], t, key, imp, c, d);
    }
  }

  // ----- full caches

  /** The cache was found to be filled up to a third, or up to the fill rate. */
  ghost predicate IsFull(cache: Cache, fillrate: nat) {
    if fillrate == 0 then 3 * cache.n >= cache.Size() else 100 * cache.n >= cache.Size() * fillrate
  }

  /** In the generic fill path, what is replaced, or is about to be, is full. */
  ghost predicate OnlyFullReplaced(s: State) {
    !s.reread ==>
      && (forall c | c in s.retired :: c < |s.caches| && IsFull(s.caches[c], s.fillrate))
      && (forall t | 0 <= t < |s.threads| && s.threads[t].Swap? ::
            s.threads[t].c < |s.caches| && IsFull(s.caches[s.threads[t].c], s.fillrate))
  }

  lemma {:induction false} OnlyFullReplacedKept(s: State, m: Move)
    requires Invariant(s) && OnlyFullReplaced(s) && m.thread < |s.threads| && OpSane(m.op)
    ensures OnlyFullReplaced(Step(s, m.thread, m.op))
  {
    hide FillInv, Exclusive, Exhaustive, Published, Evolved;
    var s', pc := Step(s, m.thread, m.op), s.threads[m.thread];
    assert PcShape(pc, s.caches, s.passed);
    StepFrame(s, m.thread, m.op);
    StepEvolves(s, m.thread, m.op);
    forall c | 0 <= c < |s.caches| && IsFull(s.caches[c], s.fillrate) ensures IsFull(s'.caches[c], s.fillrate) {
      assert Evolved(s.caches[c].slots, s'.caches[c].slots) && s.caches[c].n <= s'.caches[c].n;
    }
    assert !s.reread ==> !pc.ReadPivotAgain?;
  }

  /** A cache is only replaced when it is full. (A method cache is replaced by what was read again, which may be a newer one.) */
  lemma {:induction false} ReplacedWereFull(s: State, moves: seq<Move>, c: nat)
    requires Invariant(s) && Schedulable(moves, |s.threads|) && OnlyFullReplaced(s) && !s.reread
    ensures var s' := Run(s, moves);
            OnlyFullReplaced(s') && (c in s'.retired ==> c < |s'.caches| && IsFull(s'.caches[c], s.fillrate))
    decreases |moves|
  {
    if moves != [] {
      var m := moves[0];
      InvariantKept(s, m);
      StepFrame(s, m.thread, m.op);
      OnlyFullReplacedKept(s, m);
      ReplacedWereFull(Step(s, m.thread, m.op), moves[1..], c);
    }
  }

  lemma {:induction false} RetiredStays(s: State, moves: seq<Move>, c: nat)
    requires Invariant(s) && Schedulable(moves, |s.threads|) && c in s.retired
    ensures c in Run(s, moves).retired
    decreases |moves|
  {
    if moves != [] {
      var m := moves[0];
      InvariantKept(s, m);
      RetiredStep(s, m);
      RetiredStays(Step(s, m.thread, m.op), moves[1..], c);
    }
  }

  lemma {:induction false} RetiredStep(s: State, m: Move)
    requires Invariant(s) && m.thread < |s.threads|
    ensures forall c | c in s.retired :: c in Step(s, m.thread, m.op).retired
  {
    assert PcShape(s.threads[m.thread], s.caches, s.passed);
  }

  /** Once a thread has tried to replace a cache, that cache is never current again: the thread has done it, or another one had. */
  lemma {:induction false} ReplacedForGood(s: State, m: Move, moves: seq<Move>)
    requires Invariant(s) && m.thread < |s.threads| && OpSane(m.op) && s.threads[m.thread].Swap?
    requires Invariant(Step(s, m.thread, m.op)) && |Step(s, m.thread, m.op).threads| == |s.threads| && Schedulable(moves, |s.threads|)
    ensures Run(Step(s, m.thread, m.op), moves).pivot != s.threads[m.thread].c
  {
    var s', pc := Step(s, m.thread, m.op), s.threads[m.thread];
    assert pc.c in s'.retired;
    RetiredStays(s', moves, pc.c);
    var r := Run(s', moves);
    var i :| 0 <= i < |r.retired| && r.retired[i] == pc.c;
    assert History(r)[i] == pc.c && History(r)[|r.retired|] == r.pivot;
  }

  /**
   A new cache is free, and twice as large as the one that the thread found full. A method cache is twice as large as
   the one that is read for its size, or as large if that has 4M entries.
   */
  lemma {:induction false} AllocatesLarger(s: State, m: Move)
    requires Invariant(s) && m.thread < |s.threads| && |Step(s, m.thread, m.op).caches| > |s.caches|
    ensures var s', pc := Step(s, m.thread, m.op), s.threads[m.thread];
            var size := s.caches[if s.reread || !pc.CheckCount? then s.pivot else pc.c].Size();
            && |s'.caches| == |s.caches| + 1 && (s.reread <==> pc.ReadPivotForSize?)
            && s'.caches[|s.caches|].Size() == (if s.reread && size >= 0x40_0000 then size else 2 * size)
            && s'.caches[|s.caches|].n == 0 && Used(s'.caches[|s.caches|].slots) == 0
  {
    var pc := s.threads[m.thread];
    assert PcShape(pc, s.caches, s.passed);
    assert !s.reread ==> !pc.ReadPivotForSize?;
    NewCacheUnused(Step(s, m.thread, m.op).caches[|s.caches|].slots);
  }
}
