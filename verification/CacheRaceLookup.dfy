/** When a lookup finds a key that is visible as it starts, whatever the other threads do meanwhile. */
module CacheRaceLookup {
  import opened Prelude
  import opened Masks
  import opened CacheSlots
  import opened CacheRace
  import opened CacheRaceFill
  import opened CacheRaceOwners
  import opened CacheRaceTheorems
  import opened CacheRaceOverflow

  // ----- what is followed

  /** The first slot of the probe that has the key. */
  ghost predicate FirstAt(slots: Slots, key: nat, d: nat) {
    && d < |slots| && slots[At(key, d, |slots|)].key == key
    && forall j: nat | j < d :: slots[At(key, j, |slots|)].key != key
  }

  /** The key is there, and the slots that are probed before it all have keys, too. */
  ghost predicate KeysUpTo(slots: Slots, key: nat, d: nat) {
    && d < |slots| && slots[At(key, d, |slots|)].key == key
    && forall j: nat | j < d :: slots[At(key, j, |slots|)].key != 0
  }

  /** The thread does not start anything else: it makes no move once its lookup or fill has ended. */
  ghost predicate NothingElse(s: State, t: nat, moves: seq<Move>)
    requires Invariant(s) && t < |s.threads| && Schedulable(moves, |s.threads|)
    decreases |moves|
  {
    moves == [] ||
    (InvariantKept(s, moves[0]);
     && (moves[0].thread == t ==> !s.threads[t].Looked? && !s.threads[t].Idle?)
     && NothingElse(Step(s, moves[0].thread, moves[0].op), t, moves[1..]))
  }

  /** The number of moves that are those of one thread. */
  function OwnMoves(moves: seq<Move>, t: nat): nat {
    if moves == [] then 0 else (if moves[0].thread == t then 1 else 0) + OwnMoves(moves[1..], t)
  }

  // ----- lookups

  /** The lookup has not passed the key. If it has ended, it has got the value of a slot with the key. */
  ghost predicate LooksAt(pc: Pc, slots: Slots, key: nat, c: nat, d: nat) {
    match pc
    case LookKey(k, c', j) => k == key && c' == c && j <= d
    case LookEmpty(k, c', j) => k == key && c' == c && j < d
    case LookValue(k, c', j) => k == key && c' == c && j <= d
    case Looked(k, result) => k == key && result != 0 && Entry(key, result) in slots
    case _ => false
  }

  ghost predicate Looks(s: State, t: nat, key: nat, c: nat, d: nat) {
    t < |s.threads| && c < |s.caches| && KeysUpTo(s.caches[c].slots, key, d) && LooksAt(s.threads[t], s.caches[c].slots, key, c, d)
  }

  /** The steps that it has at most left. */
  function StepsLeft(pc: Pc, d: nat): int {
    match pc
    case LookKey(_, _, j) => 2 * (d - j) + 2
    case LookEmpty(_, _, j) => 2 * (d - j) + 1
    case LookValue(_, _, _) => 1
    case _ => 0
  }

  lemma {:induction false} KeysStay(a: Slots, b: Slots, key: nat, d: nat)
    requires Evolved(a, b) && key != 0 && KeysUpTo(a, key, d)
    ensures KeysUpTo(b, key, d)
  {
  }

  lemma {:induction false} EntryStays(a: Slots, b: Slots, e: Entry)
    requires Evolved(a, b) && e in a && e.key != 0 && e.value != 0
    ensures e in b
  {
    var p :| 0 <= p < |a| && a[p] == e;
    assert b[p] == e;
  }

  lemma {:induction false} LookStep(s: State, t: nat, op: Op, key: nat, c: nat, d: nat)
    requires Invariant(s) && key != 0 && Looks(s, t, key, c, d) && !s.threads[t].Looked?
    ensures var s' := Step(s, t, op);
            Looks(s', t, key, c, d) && StepsLeft(s'.threads[t], d) < StepsLeft(s.threads[t], d)
  {
    var pc, slots := s.threads[t], s.caches[c].slots;
    assert PcShape(pc, s.caches, s.passed) && PcSlots(pc, s.caches, s.passed);
    if pc.LookValue? {
      assert SlotOk(slots, At(key, pc.j, |slots|), s.passed);
    }
  }

  lemma {:induction false} OtherStep(s: State, m: Move, t: nat, key: nat, c: nat, d: nat)
    requires Invariant(s) && key != 0 && Looks(s, t, key, c, d) && m.thread < |s.threads| && OpSane(m.op) && m.thread != t
    ensures var s' := Step(s, m.thread, m.op); Looks(s', t, key, c, d) && s'.threads[t] == s.threads[t]
  {
    hide Step, KeysUpTo, FillInv, OwnersInv;
    StepFrame(s, m.thread, m.op);
    StepEvolves(s, m.thread, m.op);
    var a, b := s.caches[c].slots, Step(s, m.thread, m.op).caches[c].slots;
    assert Evolved(a, b);
    KeysStay(a, b, key, d);
    var pc := s.threads[t];
    if pc.Looked? {
      EntryStays(a, b, Entry(key, pc.result));
    }
  }

  /** A lookup that has not passed its key gets it, in so many of its own moves. */
  lemma {:induction false} LooksOn(s: State, moves: seq<Move>, t: nat, key: nat, c: nat, d: nat)
    requires Invariant(s) && key != 0 && Looks(s, t, key, c, d)
    requires Schedulable(moves, |s.threads|) && NothingElse(s, t, moves)
    ensures var s' := Run(s, moves);
            Looks(s', t, key, c, d) && OwnMoves(moves, t) + StepsLeft(s'.threads[t], d) <= StepsLeft(s.threads[t], d)
    decreases |moves|
  {
    if moves != [] {
      var m := moves[0];
      InvariantKept(s, m);
      if m.thread == t {
        LookStep(s, t, m.op, key, c, d);
      } else {
        OtherStep(s, m, t, key, c, d);
      }
      LooksOn(Step(s, m.thread, m.op), moves[1..], t, key, c, d);
    }
  }

  /** The thread is about to look for a key, and the d-th slot that it would probe is the first one that has it. */
  ghost predicate AboutToLook(s: State, t: nat, key: nat, d: nat) {
    Invariant(s) && key != 0 && t < |s.threads| && s.threads[t] == LookPivot(key) && FirstAt(s.caches[s.pivot].slots, key, d)
  }

  /** It has not got anything else than an implementation from a slot with the key, and has got that after so many moves. */
  ghost predicate Hits(s: State, t: nat, key: nat, c: nat, moves: nat, d: nat) {
    && t < |s.threads| && c < |s.caches|
    && (s.threads[t].Looked? ==> s.threads[t].key == key && s.threads[t].result != 0
                                 && Entry(key, s.threads[t].result) in s.caches[c].slots)
    && (moves >= 2 * d + 3 ==> s.threads[t].Looked?)
  }

  /** The first move of a lookup. Until then, other threads can only help. */
  lemma {:induction false} LookupHits(s: State, moves: seq<Move>, t: nat, op: Op, key: nat, d: nat)
    requires AboutToLook(s, t, key, d) && KeysUpTo(s.caches[s.pivot].slots, key, d) && OpSane(op)
    requires Invariant(Step(s, t, op)) && Schedulable(moves, |s.threads|) && |Step(s, t, op).threads| == |s.threads|
    requires NothingElse(Step(s, t, op), t, moves)
    ensures Hits(Run(Step(s, t, op), moves), t, key, s.pivot, OwnMoves(moves, t) + 1, d)
  {
    hide FillInv, OwnersInv, SlotsInv;
    assert Step(s, t, op).threads[t] == LookKey(key, s.pivot, 0);
    LooksOn(Step(s, t, op), moves, t, key, s.pivot, d);
  }

  // ----- a miss

  /** The lookup goes on alone up to a slot that has no key (yet). */
  lemma {:induction false} MissesAlone(s: State, t: nat, key: nat, c: nat, j: nat, g: nat) returns (moves: seq<Move>)
    requires Invariant(s) && key != 0 && t < |s.threads| && s.threads[t] == LookKey(key, c, j)
    requires c < |s.caches| && j <= g < |s.caches[c].slots| && s.caches[c].slots[At(key, g, |s.caches[c].slots|)].key == 0
    requires var slots := s.caches[c].slots;
             forall i: nat | j <= i < g :: slots[At(key, i, |slots|)].key != 0 && slots[At(key, i, |slots|)].key != key
    ensures Schedulable(moves, |s.threads|) && NothingElse(s, t, moves) && Run(s, moves).threads[t] == Looked(key, 0)
    decreases g - j
  {
    hide FillInv, OwnersInv, SlotsInv;
    var m := Move(t, Lookup(key));
    var s' := Step(s, t, m.op);
    var s'' := Step(s', t, m.op);
    InvariantKept(s, m);
    InvariantKept(s', m);
    assert PcShape(s.threads[t], s.caches, s.passed);
    assert s' == Go(s, t, LookEmpty(key, c, j));
    var rest: seq<Move> := [];
    if j < g {
      assert s'' == Go(s', t, LookKey(key, c, j + 1));
      rest := MissesAlone(s'', t, key, c, j + 1, g);
    } else {
      assert s'' == Go(s', t, Looked(key, 0));
    }
    moves := [m] + ([m] + rest);
    OneMoreMove(s', m, t, rest);
    OneMoreMove(s, m, t, [m] + rest);
  }

  lemma {:induction false} OneMoreMove(s: State, m: Move, t: nat, rest: seq<Move>)
    requires Invariant(s) && m.thread == t < |s.threads| && OpSane(m.op) && !s.threads[t].Looked? && !s.threads[t].Idle?
    requires Invariant(Step(s, t, m.op)) && |Step(s, t, m.op).threads| == |s.threads|
    requires Schedulable(rest, |s.threads|) && NothingElse(Step(s, t, m.op), t, rest)
    ensures Schedulable([m] + rest, |s.threads|) && NothingElse(s, t, [m] + rest)
    ensures Run(s, [m] + rest) == Run(Step(s, t, m.op), rest)
  {
    assert ([m] + rest)[1..] == rest && ([m] + rest)[0] == m;
  }

  lemma {:induction false} FirstGap(slots: Slots, key: nat, d: nat) returns (g: nat)
    requires d <= |slots|
    ensures g <= d && (forall j: nat | j < g :: slots[At(key, j, |slots|)].key != 0)
    ensures g < d ==> slots[At(key, g, |slots|)].key == 0
  {
    g := 0;
    while g < d && slots[At(key, g, |slots|)].key != 0
      invariant g <= d && forall j: nat | j < g :: slots[At(key, j, |slots|)].key != 0
    {
      g := g + 1;
    }
  }

  /** Every run of the lookup hits. */
  ghost predicate AlwaysHits(s: State, t: nat, key: nat, d: nat)
    requires Invariant(s) && t < |s.threads|
  {
    forall moves: seq<Move> | Schedulable(moves, |s.threads|) && NothingElse(s, t, moves) && moves != [] && moves[0].thread == t ::
      Hits(Run(s, moves), t, key, s.pivot, OwnMoves(moves, t), d)
  }

  /**
   Exactly when a key that is visible as a lookup reads the pivot is sure to be found, by every schedule: if no slot before it is
   without a key. (Such a slot has its value already, and will have another key.)
   */
  lemma {:induction false} LookupHitsExactly(s: State, t: nat, key: nat, d: nat)
    requires AboutToLook(s, t, key, d)
    ensures AlwaysHits(s, t, key, d) <==> KeysUpTo(s.caches[s.pivot].slots, key, d)
  {
    hide KeysUpTo, FillInv, OwnersInv, SlotsInv;
    var slots := s.caches[s.pivot].slots;
    if KeysUpTo(slots, key, d) {
      forall moves: seq<Move> | Schedulable(moves, |s.threads|) && NothingElse(s, t, moves) && moves != [] && moves[0].thread == t
        ensures Hits(Run(s, moves), t, key, s.pivot, OwnMoves(moves, t), d)
      {
        InvariantKept(s, moves[0]);
        LookupHits(s, moves[1..], t, moves[0].op, key, d);
      }
    } else {
      var moves := LookupMisses(s, t, key, d);
    }
  }

  /** Otherwise, with nobody else running, it misses. */
  lemma {:induction false} LookupMisses(s: State, t: nat, key: nat, d: nat) returns (moves: seq<Move>)
    requires AboutToLook(s, t, key, d) && !KeysUpTo(s.caches[s.pivot].slots, key, d)
    ensures Schedulable(moves, |s.threads|) && NothingElse(s, t, moves) && moves != [] && moves[0].thread == t
    ensures Run(s, moves).threads[t] == Looked(key, 0)
  {
    var slots := s.caches[s.pivot].slots;
    var g := FirstGap(slots, key, d);
    var m := Move(t, Lookup(key));
    InvariantKept(s, m);
    assert Step(s, t, m.op) == Go(s, t, LookKey(key, s.pivot, 0));
    var rest := MissesAlone(Step(s, t, m.op), t, key, s.pivot, 0, g);
    moves := [m] + rest;
    OneMoreMove(s, m, t, rest);
  }

  lemma {:induction false} FirstVisible(slots: Slots, key: nat, j: nat) returns (d: nat)
    requires j < |slots| && slots[At(key, j, |slots|)].key == key
    ensures d <= j && FirstAt(slots, key, d)
  {
    d := 0;
    while slots[At(key, d, |slots|)].key != key
      invariant d <= j && forall i: nat | i < d :: slots[At(key, i, |slots|)].key != key
      decreases j - d
    {
      d := d + 1;
    }
  }

  // ----- a visible key that is missed

  /** Two threads that fill, and one that looks up, with a cache of four entries. */
  ghost function Three(slots: Slots, n: nat, a: Pc, b: Pc, c: Pc, passed: set<(nat, nat)>): State {
    State([Cache(slots, n)], 0, [], [], [a, b, c], [true, true, false], passed, 0, false)
  }

  const EMPTY: Slots := [Entry(0, 0), Entry(0, 0), Entry(0, 0), Entry(0, 0)]
  const CLAIMED: Slots := EMPTY[0 := Entry(0, 5)]

  lemma {:induction false} SameHome()
    ensures At(64, 0, 4) == 0 && At(128, 0, 4) == 0 && At(128, 1, 4) == 1
  {
    assert 64 / ENTRY_SIZE == 4 && 128 / ENTRY_SIZE == 8;
  }

  lemma {:induction false} StepsTo(holds: State -> bool, s: State, t: nat, op: Op)
    requires ClosedUnderSteps(holds) && holds(s) && t < |s.threads| && OpSane(op)
    ensures Shape(s) && holds(Step(s, t, op))
  {
    hide Step, Shape;
  }

  /** A thread that is alone starts to fill. */
  lemma {:induction false} FillStarts(holds: State -> bool, s: State, t: nat, key: nat, imp: nat)
    requires ClosedUnderSteps(holds) && holds(s) && t < |s.threads| == |s.inserts| && s.threads[t] == Idle && s.inserts[t]
    requires key != 0 && imp != 0 && s.pivot < |s.caches| && !ShouldGrow(s.caches[s.pivot].n, s.caches[s.pivot].Size(), s.fillrate)
    ensures holds(Go(s, t, ProbeKey(key, imp, s.pivot, 0)).(passed := s.passed + {(key, imp)}))
  {
    var op, s0 := Fill(key, imp), s.(passed := s.passed + {(key, imp)});
    StepsTo(holds, s, t, op);
    var s1 := Go(s0, t, ReadPivot(key, imp));
    assert s1 == Step(s, t, op);
    StepsTo(holds, s1, t, op);
    var s2 := Go(s0, t, CheckCount(key, imp, s.pivot));
    assert s2 == Step(s1, t, op);
    StepsTo(holds, s2, t, op);
    assert Go(s0, t, ProbeKey(key, imp, s.pivot, 0)) == Step(s2, t, op);
  }

  /** It goes by slots that are in use, and gets to a free one. */
  lemma {:induction false} FillProbes(holds: State -> bool, s: State, t: nat, key: nat, imp: nat, c: nat, j: nat, g: nat)
    requires ClosedUnderSteps(holds) && holds(s) && t < |s.threads| && s.threads[t] == ProbeKey(key, imp, c, j) && key != 0
    requires c < |s.caches| && j <= g < s.caches[c].Size() && s.caches[c].slots[At(key, g, s.caches[c].Size())] == Entry(0, 0)
    requires var slots := s.caches[c].slots;
             forall i: nat | j <= i < g :: slots[At(key, i, |slots|)].value != 0 && slots[At(key, i, |slots|)].key != key
    ensures holds(Go(s, t, CasValue(key, imp, c, g)))
    decreases g - j
  {
    var op := Lookup(key);
    StepsTo(holds, s, t, op);
    var s1 := Go(s, t, ProbeValue(key, imp, c, j));
    assert s1 == Step(s, t, op);
    StepsTo(holds, s1, t, op);
    if j < g {
      var s2 := Go(s, t, ProbeKey(key, imp, c, j + 1));
      assert s2 == Step(s1, t, op);
      FillProbes(holds, s2, t, key, imp, c, j + 1, g);
      assert Go(s2, t, CasValue(key, imp, c, g)) == Go(s, t, CasValue(key, imp, c, g));
    } else {
      assert Go(s, t, CasValue(key, imp, c, g)) == Step(s1, t, op);
    }
  }

  /** It claims the slot, ... */
  lemma {:induction false} FillClaims(holds: State -> bool, s: State, t: nat, key: nat, imp: nat, j: nat, p: nat)
    requires ClosedUnderSteps(holds) && holds(s) && t < |s.threads| && s.threads[t] == CasValue(key, imp, 0, j) && key != 0
    requires |s.caches| == 1 && j < s.caches[0].Size() && p == At(key, j, s.caches[0].Size()) && s.caches[0].slots[p] == Entry(0, 0)
    ensures holds(Go(s, t, CountUp(key, imp, 0, j)).(caches := [WithSlot(s.caches[0], p, Entry(0, imp))]))
  {
    StepsTo(holds, s, t, Lookup(key));
    var cache := WithSlot(s.caches[0], p, Entry(0, imp));
    assert s.caches[0 := cache] == [cache];
  }

  /** ... counts it, and publishes the key. */
  lemma {:induction false} FillPublishes(holds: State -> bool, s: State, t: nat, key: nat, imp: nat, j: nat, p: nat)
    requires ClosedUnderSteps(holds) && holds(s) && t < |s.threads| && s.threads[t] == CountUp(key, imp, 0, j) && key != 0
    requires |s.caches| == 1 && j < s.caches[0].Size() && p == At(key, j, s.caches[0].Size())
    ensures holds(Go(s, t, Idle).(caches := [Cache(s.caches[0].slots[p := Entry(key, s.caches[0].slots[p].value)], s.caches[0].n + 1)]))
  {
    var op, counted := Lookup(key), Cache(s.caches[0].slots, s.caches[0].n + 1);
    StepsTo(holds, s, t, op);
    assert s.caches[0 := counted] == [counted];
    var s1 := Go(s, t, WriteKey(key, imp, 0, j)).(caches := [counted]);
    assert s1 == Step(s, t, op);
    StepsTo(holds, s1, t, op);
    var written := WithSlot(counted, p, Entry(key, s.caches[0].slots[p].value));
    assert s1.caches[0 := written] == [written];
    assert Step(s1, t, op) == Go(s, t, Idle).(caches := [written]);
  }

  /** The first thread has set the value for key 64, and gets no further. */
  lemma {:induction false} ClaimSlot(holds: State -> bool)
    requires ClosedUnderSteps(holds) && holds(Three(EMPTY, 0, Idle, Idle, Idle, {}))
    ensures holds(Three(CLAIMED, 0, CountUp(64, 5, 0, 0), Idle, Idle, {(64, 5)}))
  {
    hide Step, ClosedUnderSteps, At;
    SameHome();
    var s0, passed := Three(EMPTY, 0, Idle, Idle, Idle, {}), {(64, 5)};
    FillStarts(holds, s0, 0, 64, 5);
    var s1 := Three(EMPTY, 0, ProbeKey(64, 5, 0, 0), Idle, Idle, passed);
    assert s1 == Go(s0, 0, ProbeKey(64, 5, 0, 0)).(passed := s0.passed + {(64, 5)});
    FillProbes(holds, s1, 0, 64, 5, 0, 0, 0);
    var s2 := Three(EMPTY, 0, CasValue(64, 5, 0, 0), Idle, Idle, passed);
    assert s2 == Go(s1, 0, CasValue(64, 5, 0, 0));
    FillClaims(holds, s2, 0, 64, 5, 0, 0);
    assert Three(CLAIMED, 0, CountUp(64, 5, 0, 0), Idle, Idle, passed)
        == Go(s2, 0, CountUp(64, 5, 0, 0)).(caches := [WithSlot(s2.caches[0], 0, Entry(0, 5))]);
  }

  const PUBLISHED: Slots := CLAIMED[1 := Entry(128, 6)]

  /** The second one publishes its key in the next slot. */
  lemma {:induction false} PublishNextSlot(holds: State -> bool)
    requires ClosedUnderSteps(holds) && holds(Three(CLAIMED, 0, CountUp(64, 5, 0, 0), Idle, Idle, {(64, 5)}))
    ensures holds(Three(PUBLISHED, 1, CountUp(64, 5, 0, 0), Idle, Idle, {(64, 5), (128, 6)}))
  {
    hide Step, ClosedUnderSteps, At;
    SameHome();
    var a, passed := CountUp(64, 5, 0, 0), {(64, 5), (128, 6)};
    var s0, s1 := Three(CLAIMED, 0, a, Idle, Idle, {(64, 5)}), Three(CLAIMED, 0, a, ProbeKey(128, 6, 0, 0), Idle, passed);
    FillStarts(holds, s0, 1, 128, 6);
    assert s1 == Go(s0, 1, ProbeKey(128, 6, 0, 0)).(passed := s0.passed + {(128, 6)});
    FillProbes(holds, s1, 1, 128, 6, 0, 0, 1);
    var s2 := Three(CLAIMED, 0, a, CasValue(128, 6, 0, 1), Idle, passed);
    assert s2 == Go(s1, 1, CasValue(128, 6, 0, 1));
    FillClaims(holds, s2, 1, 128, 6, 1, 1);
    var slots := CLAIMED[1 := Entry(0, 6)];
    var s3 := Three(slots, 0, a, CountUp(128, 6, 0, 1), Idle, passed);
    assert s3 == Go(s2, 1, CountUp(128, 6, 0, 1)).(caches := [WithSlot(s2.caches[0], 1, Entry(0, 6))]);
    FillPublishes(holds, s3, 1, 128, 6, 1, 1);
    assert slots[1 := Entry(128, 6)] == PUBLISHED;
    assert Three(PUBLISHED, 1, a, Idle, Idle, passed) == Go(s3, 1, Idle).(caches := [Cache(PUBLISHED, 1)]);
  }

  /** So key 128 is visible, but a lookup of it can end without it, since the slot before it has a value but no key yet. */
  lemma {:induction false} LookupCanMiss() returns (s: State, moves: seq<Move>)
    ensures Invariant(Initial(4, [true, true, false], 0, false)) && Reaches(Initial(4, [true, true, false], 0, false), s)
    ensures Invariant(s) && |s.threads| == 3 && s.threads[2] == LookPivot(128) && s.caches[s.pivot].slots[1] == Entry(128, 6)
    ensures Schedulable(moves, 3) && NothingElse(s, 2, moves) && Run(s, moves).threads[2] == Looked(128, 0)
  {
    hide Invariant, KeysUpTo, Step, Run, Reaches, ClosedUnderSteps;
    var s0 := Initial(4, [true, true, false], 0, false);
    InitialInvariant(4, [true, true, false], 0, false);
    ReachesSelf(s0);
    ReachabilityIsClosed(s0);
    var holds := (s: State) => Invariant(s) && Reaches(s0, s) && |s.threads| == |s0.threads|;
    InitialThree();
    ClaimSlot(holds);
    PublishNextSlot(holds);
    s := Three(PUBLISHED, 1, CountUp(64, 5, 0, 0), Idle, LookPivot(128), {(64, 5), (128, 6)});
    LookNext(holds);
    PublishedAfterGap();
    moves := LookupMisses(s, 2, 128, 1);
  }

  lemma {:induction false} PublishedAfterGap()
    ensures FirstAt(PUBLISHED, 128, 1) && !KeysUpTo(PUBLISHED, 128, 1)
  {
    SameHome();
  }

  lemma {:induction false} InitialThree()
    ensures Initial(4, [true, true, false], 0, false) == Three(EMPTY, 0, Idle, Idle, Idle, {})
  {
    assert NewCache(4).slots == EMPTY;
    assert seq(3, _ => Idle) == [Idle, Idle, Idle];
  }

  lemma {:induction false} LookNext(holds: State -> bool)
    requires ClosedUnderSteps(holds) && holds(Three(PUBLISHED, 1, CountUp(64, 5, 0, 0), Idle, Idle, {(64, 5), (128, 6)}))
    ensures holds(Three(PUBLISHED, 1, CountUp(64, 5, 0, 0), Idle, LookPivot(128), {(64, 5), (128, 6)}))
  {
    var a, passed := CountUp(64, 5, 0, 0), {(64, 5), (128, 6)};
    var s0 := Three(PUBLISHED, 1, a, Idle, Idle, passed);
    StepsTo(holds, s0, 2, Lookup(128));
    assert Step(s0, 2, Lookup(128)) == Three(PUBLISHED, 1, a, Idle, LookPivot(128), passed);
  }
}
