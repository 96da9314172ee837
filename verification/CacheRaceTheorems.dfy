/** What holds after every run of racing fills and lookups, whatever the schedule. */
module CacheRaceTheorems {
  import opened Prelude
  import opened CacheSlots
  import opened CacheRace
  import opened CacheRaceFill
  import opened CacheRaceOwners

  ghost predicate Invariant(s: State) {
    Shape(s) && SlotsInv(s) && FillInv(s) && OwnersInv(s)
  }

  /** A new pivot with one empty cache, and threads that have done nothing yet. */
  ghost function Initial(size: nat, inserts: seq<bool>, fillrate: nat, reread: bool): State {
    State([NewCache(size)], 0, [], [], seq(|inserts|, _ => Idle), inserts, {}, fillrate, reread)
  }

  lemma {:induction false} IdleCounts(threads: seq<Pc>, c: nat)
    requires forall t | 0 <= t < |threads| :: threads[t] == Idle
    ensures UncountedOn(threads, c) == 0 && AdmittedOn(threads, c) == 0
  {
    if threads != [] {
      IdleCounts(threads[1..], c);
    }
  }

  lemma {:induction false} InitialFill(size: nat, inserts: seq<bool>, fillrate: nat, reread: bool)
    requires size > 1
    ensures FillInv(Initial(size, inserts, fillrate, reread))
  {
    var s := Initial(size, inserts, fillrate, reread);
    NewCacheUnused(s.caches[0].slots);
    IdleCounts(s.threads, 0);
    LimitPositive(size, fillrate);
    assert FillOk(s, 0);
  }

  lemma {:induction false} InitialOwners(size: nat, inserts: seq<bool>, fillrate: nat, reread: bool)
    requires size > 1
    ensures OwnersInv(Initial(size, inserts, fillrate, reread))
  {
    assert History(Initial(size, inserts, fillrate, reread)) == [0];
  }

  lemma {:induction false} InitialInvariant(size: nat, inserts: seq<bool>, fillrate: nat, reread: bool)
    requires size > 1
    ensures Invariant(Initial(size, inserts, fillrate, reread))
  {
    hide FillInv, OwnersInv;
    InitialFill(size, inserts, fillrate, reread);
    InitialOwners(size, inserts, fillrate, reread);
  }

  /** A move of one thread. The operation matters only to a thread that is idle. */
  datatype Move = Move(thread: nat, op: Op)

  ghost predicate Schedulable(moves: seq<Move>, threads: nat) {
    forall i | 0 <= i < |moves| :: moves[i].thread < threads && OpSane(moves[i].op)
  }

  lemma {:induction false} InvariantKept(s: State, m: Move)
    requires Invariant(s) && m.thread < |s.threads| && OpSane(m.op)
    ensures Invariant(Step(s, m.thread, m.op)) && |Step(s, m.thread, m.op).threads| == |s.threads|
    ensures Step(s, m.thread, m.op).fillrate == s.fillrate && Step(s, m.thread, m.op).inserts == s.inserts
  {
    StepFrame(s, m.thread, m.op);
    SlotsKept(s, m.thread, m.op);
    FillKept(s, m.thread, m.op);
    OwnersKept(s, m.thread, m.op);
  }

  /** The state after a schedule. The invariant holds in all of them. */
  ghost function Run(s: State, moves: seq<Move>): (r: State)
    requires Invariant(s) && Schedulable(moves, |s.threads|)
    ensures Invariant(r) && |r.threads| == |s.threads| && r.fillrate == s.fillrate && r.inserts == s.inserts
    decreases |moves|
  {
    if moves == [] then s
    else
      InvariantKept(s, moves[0]);
      Run(Step(s, moves[0].thread, moves[0].op), moves[1..])
  }

  // ----- visible entries

  lemma {:induction false} EvolvedTransitive(a: seq<Cache>, b: seq<Cache>, c: seq<Cache>)
    requires AllEvolved(a, b) && AllEvolved(b, c)
    ensures AllEvolved(a, c)
  {
    forall i | 0 <= i < |a| ensures Evolved(a[i].slots, c[i].slots) {
      assert Evolved(a[i].slots, b[i].slots) && Evolved(b[i].slots, c[i].slots);
    }
  }

  /** Whatever happens, a visible key keeps its slot and its value, in every cache ever allocated. */
  lemma {:induction false} VisibleEntriesNeverChange(s: State, moves: seq<Move>)
    requires Invariant(s) && Schedulable(moves, |s.threads|)
    ensures AllEvolved(s.caches, Run(s, moves).caches)
    decreases |moves|
  {
    if moves != [] {
      var m := moves[0];
      StepEvolves(s, m.thread, m.op);
      InvariantKept(s, m);
      VisibleEntriesNeverChange(Step(s, m.thread, m.op), moves[1..]);
      EvolvedTransitive(s.caches, Step(s, m.thread, m.op).caches, Run(s, moves).caches);
    }
  }

  /** A slot whose value is set but whose key is not has one writer, who will write a key with just that value. */
  lemma {:induction false} HalfPublishedHasOneWriter(s: State, c: nat, p: nat) returns (t: nat)
    requires Invariant(s) && c < |s.caches| && p < s.caches[c].Size() && HalfPublished(s.caches[c].slots[p])
    ensures t < |s.threads| && IsWriter(s.threads[t], s.caches, c, p)
    ensures s.caches[c].slots[p].value == s.threads[t].imp
    ensures forall u | 0 <= u < |s.threads| && IsWriter(s.threads[u], s.caches, c, p) :: u == t
  {
    t :| 0 <= t < |s.threads| && IsWriter(s.threads[t], s.caches, c, p);
    assert PcShape(s.threads[t], s.caches, s.passed) && PcSlots(s.threads[t], s.caches, s.passed);
  }

  /** All fills of a key were asked to cache the same implementation. */
  ghost predicate Functional(passed: set<(nat, nat)>) {
    forall a, b | a in passed && b in passed && a.0 == b.0 :: a.1 == b.1
  }

  /** If fills agree on what a key means, then so do all slots with that key, in all caches, duplicates included, ... */
  lemma {:induction false} SlotsAgree(s: State, c: nat, p: nat, d: nat, q: nat)
    requires Invariant(s) && Functional(s.passed)
    requires c < |s.caches| && p < s.caches[c].Size() && d < |s.caches| && q < s.caches[d].Size()
    requires s.caches[c].slots[p].key == s.caches[d].slots[q].key != 0
    ensures s.caches[c].slots[p].value == s.caches[d].slots[q].value != 0
  {
    assert SlotOk(s.caches[c].slots, p, s.passed) && SlotOk(s.caches[d].slots, q, s.passed);
  }

  /** In every run, a lookup that comes by its key reads an implementation that was passed for that key, and not NULL. */
  lemma {:induction false} HitsArePassed(s0: State, moves: seq<Move>, m: Move)
    requires Invariant(s0) && Schedulable(moves, |s0.threads|) && m.thread < |s0.threads|
    ensures var s := Run(s0, moves);
            var pc := s.threads[m.thread];
            pc.LookValue? ==>
              exists imp :: imp != 0 && (pc.key, imp) in s.passed && Step(s, m.thread, m.op) == Go(s, m.thread, Looked(pc.key, imp))
  {
    var s := Run(s0, moves);
    var pc := s.threads[m.thread];
    assert PcShape(pc, s.caches, s.passed) && PcSlots(pc, s.caches, s.passed);
    if pc.LookValue? {
      assert SlotOk(s.caches[pc.c].slots, At(pc.key, pc.j, s.caches[pc.c].Size()), s.passed);
    }
  }

  /** And what it has read stays right: if fills agree, it is the one implementation of the key. */
  lemma {:induction false} HitsAreRight(s0: State, moves: seq<Move>, t: nat)
    requires Invariant(s0) && Schedulable(moves, |s0.threads|) && t < |s0.threads|
    ensures var s := Run(s0, moves);
            s.threads[t].Looked? && s.threads[t].result != 0 ==>
              && (s.threads[t].key, s.threads[t].result) in s.passed
              && (Functional(s.passed) ==>
                    forall imp | (s.threads[t].key, imp) in s.passed :: s.threads[t].result == imp)
  {
    var s := Run(s0, moves);
    assert PcSlots(s.threads[t], s.caches, s.passed);
  }

  /** A visible key is found by every probe that goes by values: there is no free slot before it. */
  lemma {:induction false} NoGapBeforeKey(s: State, c: nat, p: nat, j: nat)
    requires Invariant(s) && c < |s.caches| && p < s.caches[c].Size() && s.caches[c].slots[p].key != 0
    requires j < s.caches[c].Size() && s.caches[c].slots[At(s.caches[c].slots[p].key, j, s.caches[c].Size())].value == 0
    ensures Steps(s.caches[c].slots[p].key, p, s.caches[c].Size()) < j
  {
    assert SlotOk(s.caches[c].slots, p, s.passed);
    assert At(s.caches[c].slots[p].key, Steps(s.caches[c].slots[p].key, p, s.caches[c].Size()), s.caches[c].Size()) == p;
  }

  // ----- fill

  /** The slots in use never exceed the limit by more than the threads that insert, and the count never exceeds the slots in use. */
  lemma {:induction false} FillBound(s: State, moves: seq<Move>, c: nat)
    requires Invariant(s) && Schedulable(moves, |s.threads|) && c < |Run(s, moves).caches|
    ensures var cache := Run(s, moves).caches[c];
            && cache.n <= Used(cache.slots)
            && Used(cache.slots) <= Limit(cache.Size(), s.fillrate) - 1 + Inserters(s.inserts)
            && (if s.fillrate == 0 then 3 * (Used(cache.slots) - Inserters(s.inserts)) < cache.Size()
                else 100 * (Used(cache.slots) - Inserters(s.inserts)) < cache.Size() * s.fillrate)
  {
    var s' := Run(s, moves);
    assert FillOk(s', c) && s'.caches[c].Size() > 1;
    BelowLimit(s'.caches[c].Size(), s.fillrate);
    UsedBelow(Used(s'.caches[c].slots), Limit(s'.caches[c].Size(), s.fillrate), Inserters(s.inserts));
  }

  lemma {:induction false} UsedBelow(used: nat, limit: nat, inserters: nat)
    requires used <= limit - 1 + inserters
    ensures 3 * (used - inserters) <= 3 * (limit - 1) && 100 * (used - inserters) <= 100 * (limit - 1)
  {
  }

  ghost predicate EnoughEverywhere(s: State) {
    forall c | 0 <= c < |s.caches| :: Enough(s.caches[c].Size(), s.fillrate, Inserters(s.inserts))
  }

  lemma {:induction false} EnoughKept(s: State, m: Move)
    requires Invariant(s) && m.thread < |s.threads| && OpSane(m.op) && EnoughEverywhere(s)
    ensures EnoughEverywhere(Step(s, m.thread, m.op))
  {
    var pc := s.threads[m.thread];
    assert PcShape(pc, s.caches, s.passed);
    StepFrame(s, m.thread, m.op);
    if pc.CheckCount? {
      EnoughForLarger(s.caches[pc.c].Size(), s.fillrate, Inserters(s.inserts));
    } else if pc.ReadPivotForSize? {
      EnoughForLarger(s.caches[s.pivot].Size(), s.fillrate, Inserters(s.inserts));
    }
  }

  lemma {:induction false} EnoughInRun(s: State, moves: seq<Move>)
    requires Invariant(s) && Schedulable(moves, |s.threads|) && EnoughEverywhere(s)
    ensures EnoughEverywhere(Run(s, moves))
    decreases |moves|
  {
    if moves != [] {
      EnoughKept(s, moves[0]);
      InvariantKept(s, moves[0]);
      EnoughInRun(Step(s, moves[0].thread, moves[0].op), moves[1..]);
    }
  }

  /** With few enough inserting threads for the first cache, every cache has a free slot, in every state of every run, ... */
  lemma {:induction false} SomeSlotIsFree(size: nat, inserts: seq<bool>, fillrate: nat, reread: bool, moves: seq<Move>)
    requires size > 1 && Enough(size, fillrate, Inserters(inserts)) && Schedulable(moves, |inserts|)
    ensures Invariant(Initial(size, inserts, fillrate, reread))
    ensures var caches := Run(Initial(size, inserts, fillrate, reread), moves).caches;
            forall c | 0 <= c < |caches| :: HasFreeSlot(caches[c])
  {
    var s0 := Initial(size, inserts, fillrate, reread);
    InitialInvariant(size, inserts, fillrate, reread);
    EnoughInRun(s0, moves);
    var s := Run(s0, moves);
    forall c | 0 <= c < |s.caches| ensures HasFreeSlot(s.caches[c]) {
      assert FillOk(s, c);
      FreeSlotRemains(s, c);
    }
  }

  /** ... and every probe of every thread, inserting or not, ends. */
  lemma {:induction false} EveryProbeEnds(size: nat, inserts: seq<bool>, fillrate: nat, reread: bool, moves: seq<Move>, m: Move)
    requires size > 1 && Enough(size, fillrate, Inserters(inserts)) && Schedulable(moves, |inserts|)
    requires m.thread < |inserts| && OpSane(m.op)
    ensures Invariant(Initial(size, inserts, fillrate, reread))
    ensures var s := Run(Initial(size, inserts, fillrate, reread), moves);
            IsProbing(s.threads[m.thread]) ==>
              var pc, pc' := s.threads[m.thread], Step(s, m.thread, m.op).threads[m.thread];
              IsProbing(pc') ==> pc'.c == pc.c && pc.c < |s.caches| && pc.j < s.caches[pc.c].Size()
                                 && pc'.j < s.caches[pc.c].Size()
                                 && ProbeStepsLeft(pc', s.caches) < ProbeStepsLeft(pc, s.caches)
  {
    var s0 := Initial(size, inserts, fillrate, reread);
    InitialInvariant(size, inserts, fillrate, reread);
    EnoughInRun(s0, moves);
    var s := Run(s0, moves);
    var pc := s.threads[m.thread];
    if IsProbing(pc) {
      assert PcShape(pc, s.caches, s.passed);
      ProbesEnd(s, m.thread, m.op);
    }
  }

  // ----- caches

  /** Every cache is current, replaced once, discarded once, or private to exactly one thread. */
  lemma {:induction false} CachesConserved(s: State, c: nat)
    requires Invariant(s) && c < |s.caches|
    ensures c == s.pivot || c in s.retired || c in s.discarded
            || exists t :: 0 <= t < |s.threads| && Private(s.threads[t]) == Some(c)
    ensures c == s.pivot ==> c !in s.retired && c !in s.discarded
    ensures c in s.retired ==> c !in s.discarded
    ensures forall t | 0 <= t < |s.threads| && Private(s.threads[t]) == Some(c) ::
              c != s.pivot && c !in s.retired && c !in s.discarded
              && forall u | 0 <= u < |s.threads| && Private(s.threads[u]) == Some(c) :: u == t
    ensures NoDuplicates(s.retired) && NoDuplicates(s.discarded)
  {
    var h := History(s);
    assert h[|s.retired|] == s.pivot;
    assert forall i | 0 <= i < |s.retired| :: h[i] == s.retired[i];
    assert forall x | x in s.retired :: x in h;
  }

  /** The loser of a race was never seen by another thread, and never will be. */
  lemma {:induction false} LosersNeverPublished(s: State, moves: seq<Move>, c: nat)
    requires Invariant(s) && Schedulable(moves, |s.threads|) && c in s.discarded
    ensures c in Run(s, moves).discarded && c !in History(Run(s, moves))
    ensures forall t | 0 <= t < |s.threads| && HasCache(Run(s, moves).threads[t]) :: Run(s, moves).threads[t].c != c
    decreases |moves|
  {
    hide FillInv, SlotsInv;
    if moves != [] {
      InvariantKept(s, moves[0]);
      LosersNeverPublished(Step(s, moves[0].thread, moves[0].op), moves[1..], c);
    }
  }

  /** The caches that were current in turn, oldest first, are each twice as large as the one before. */
  lemma {:induction false} SizesDouble(s: State, i: nat)
    requires Invariant(s) && !s.reread && i + 1 < |History(s)|
    ensures History(s)[i] < |s.caches| && History(s)[i + 1] < |s.caches|
    ensures s.caches[History(s)[i + 1]].Size() == 2 * s.caches[History(s)[i]].Size()
  {
    assert History(s)[i] in History(s) && History(s)[i + 1] in History(s);
  }
}
