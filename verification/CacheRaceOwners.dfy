/** Where the caches are that racing threads allocate: private to one thread, current, replaced, or discarded. */
module CacheRaceOwners {
  import opened Prelude
  import opened CacheSlots
  import opened CacheRace

  /** All caches that ever were current, oldest first. */
  ghost function History(s: State): seq<nat> {
    s.retired + [s.pivot]
  }

  /** The cache that a thread has allocated and not yet tried to install. */
  ghost function Private(pc: Pc): Option<nat> {
    if pc.ReadPivotAgain? || pc.Swap? then Some(pc.bigger) else None
  }

  /** The thread has got hold of a cache through the pivot. */
  predicate HasCache(pc: Pc) {
    !pc.Idle? && !pc.ReadPivot? && !pc.ReadPivotForSize? && !pc.ReadPivotAgain? && !pc.LookPivot? && !pc.Looked?
  }

  ghost predicate NoDuplicates(s: seq<nat>) {
    forall i, j | 0 <= i < j < |s| :: s[i] != s[j]
  }

  ghost predicate IsPristine(cache: Cache) {
    cache.n == 0 && forall p | 0 <= p < |cache.slots| :: cache.slots[p] == Entry(0, 0)
  }

  /** No cache has two owners or was released twice. */
  ghost predicate Exclusive(s: State) {
    && NoDuplicates(History(s)) && NoDuplicates(s.discarded)
    && (forall c | c in s.discarded :: c !in History(s))
    && (forall t | 0 <= t < |s.threads| && Private(s.threads[t]).Some? ::
          Private(s.threads[t]).value !in History(s) && Private(s.threads[t]).value !in s.discarded)
    && (forall t, u | 0 <= t < |s.threads| && 0 <= u < |s.threads| && Private(s.threads[t]).Some?
                      && Private(s.threads[t]) == Private(s.threads[u]) :: t == u)
  }

  /** No cache is lost. */
  ghost predicate Exhaustive(s: State) {
    && (forall c | c in History(s) :: c < |s.caches|)
    && (forall c | c in s.discarded :: c < |s.caches|)
    && (forall c | 0 <= c < |s.caches| && c !in History(s) && c !in s.discarded ::
          exists t :: 0 <= t < |s.threads| && Private(s.threads[t]) == Some(c))
  }

  /** Threads only ever see caches that were current, and private caches are untouched. */
  ghost predicate Published(s: State) {
    && (forall t | 0 <= t < |s.threads| && HasCache(s.threads[t]) :: s.threads[t].c in History(s))
    && (forall t | 0 <= t < |s.threads| && Private(s.threads[t]).Some? ::
          Private(s.threads[t]).value < |s.caches| && IsPristine(s.caches[Private(s.threads[t]).value]))
  }

  function SizeOf(caches: seq<Cache>, c: nat): nat {
    if c < |caches| then caches[c].Size() else 0
  }

  /** In the generic fill path each cache is twice as large as the one it replaced. */
  ghost predicate Doubling(s: State) {
    !s.reread ==>
      && (forall i, j | 0 <= i < |History(s)| && 0 <= j < |History(s)| && j == i + 1 ::
            SizeOf(s.caches, History(s)[j]) == 2 * SizeOf(s.caches, History(s)[i]))
      && (forall t | 0 <= t < |s.threads| && s.threads[t].Swap? ::
            SizeOf(s.caches, s.threads[t].bigger) == 2 * SizeOf(s.caches, s.threads[t].c))
      && (forall t | 0 <= t < |s.threads| :: !s.threads[t].ReadPivotForSize? && !s.threads[t].ReadPivotAgain?)
  }

  ghost predicate OwnersInv(s: State) {
    Exclusive(s) && Exhaustive(s) && Published(s) && Doubling(s)
  }

  // ----- steps that do not change owners

  /** The thread that moves keeps what it owns, and nothing is installed or released. */
  ghost predicate SameOwners(s: State, s': State, t: nat)
    requires t < |s.threads|
  {
    && Framed(s, s', t) && |s'.caches| == |s.caches|
    && s'.pivot == s.pivot && s'.retired == s.retired && s'.discarded == s.discarded
    && Private(s'.threads[t]) == Private(s.threads[t])
    && (HasCache(s'.threads[t]) ==> s'.threads[t].c in History(s))
    && (s'.threads[t].Swap? || s'.threads[t].ReadPivotAgain? || s'.threads[t].ReadPivotForSize? ==> s.reread)
    && (forall c | 0 <= c < |s.caches| && c !in History(s) :: s'.caches[c] == s.caches[c])
  }

  lemma {:induction false} SameOwnersExclusive(s: State, s': State, t: nat)
    requires t < |s.threads| && Exclusive(s) && SameOwners(s, s', t)
    ensures Exclusive(s')
  {
    assert History(s') == History(s);
    assert forall u | 0 <= u < |s.threads| :: Private(s'.threads[u]) == Private(s.threads[u]);
  }

  lemma {:induction false} SameOwnersExhaustive(s: State, s': State, t: nat)
    requires t < |s.threads| && Exhaustive(s) && SameOwners(s, s', t)
    ensures Exhaustive(s')
  {
    assert History(s') == History(s);
    forall c | 0 <= c < |s'.caches| && c !in History(s') && c !in s'.discarded
      ensures exists u :: 0 <= u < |s'.threads| && Private(s'.threads[u]) == Some(c)
    {
      var u :| 0 <= u < |s.threads| && Private(s.threads[u]) == Some(c);
      assert Private(s'.threads[u]) == Some(c);
    }
  }

  lemma {:induction false} SameOwnersPublished(s: State, s': State, t: nat)
    requires t < |s.threads| && Exclusive(s) && Published(s) && SameOwners(s, s', t)
    ensures Published(s')
  {
    assert History(s') == History(s);
    assert forall u | 0 <= u < |s.threads| :: Private(s'.threads[u]) == Private(s.threads[u]);
  }

  lemma {:induction false} SameOwnersDoubling(s: State, s': State, t: nat)
    requires t < |s.threads| && Doubling(s) && SameOwners(s, s', t)
    ensures Doubling(s')
  {
    assert History(s') == History(s);
    assert forall c :: SizeOf(s'.caches, c) == SizeOf(s.caches, c);
  }

  lemma {:induction false} SameOwnersKept(s: State, s': State, t: nat)
    requires t < |s.threads| && OwnersInv(s) && SameOwners(s, s', t)
    ensures OwnersInv(s')
  {
    SameOwnersExclusive(s, s', t);
    SameOwnersExhaustive(s, s', t);
    SameOwnersPublished(s, s', t);
    SameOwnersDoubling(s, s', t);
  }

  // ----- allocation

  /** Thread `t` gets a new pristine cache of its own. */
  ghost predicate Allocated(s: State, s': State, t: nat)
    requires t < |s.threads|
  {
    && Framed(s, s', t) && |s'.caches| == |s.caches| + 1 && s'.caches[..|s.caches|] == s.caches
    && s'.pivot == s.pivot && s'.retired == s.retired && s'.discarded == s.discarded
    && Private(s.threads[t]).None? && Private(s'.threads[t]) == Some(|s.caches|)
    && IsPristine(s'.caches[|s.caches|])
    && (HasCache(s'.threads[t]) ==> s'.threads[t].c in History(s))
    && (s'.threads[t].ReadPivotAgain? ==> s.reread) && !s'.threads[t].ReadPivotForSize?
    && (s'.threads[t].Swap? && !s.reread ==>
          SizeOf(s'.caches, s'.threads[t].bigger) == 2 * SizeOf(s'.caches, s'.threads[t].c))
  }

  lemma {:induction false} AllocationExhaustive(s: State, s': State, t: nat)
    requires t < |s.threads| && Exhaustive(s) && Allocated(s, s', t)
    ensures Exhaustive(s')
  {
    assert History(s') == History(s);
    forall c | 0 <= c < |s'.caches| && c !in History(s') && c !in s'.discarded
      ensures exists u :: 0 <= u < |s'.threads| && Private(s'.threads[u]) == Some(c)
    {
      var u := t;
      if c < |s.caches| {
        u :| 0 <= u < |s.threads| && Private(s.threads[u]) == Some(c);
      }
      assert Private(s'.threads[u]) == Some(c);
    }
  }

  lemma {:induction false} AllocationExclusive(s: State, s': State, t: nat)
    requires t < |s.threads| && Exclusive(s) && Exhaustive(s) && Published(s) && Allocated(s, s', t)
    ensures Exclusive(s')
  {
    assert History(s') == History(s);
    assert forall u | 0 <= u < |s.threads| && u != t :: Private(s'.threads[u]) == Private(s.threads[u]);
  }

  lemma {:induction false} AllocationPublished(s: State, s': State, t: nat)
    requires t < |s.threads| && Published(s) && Allocated(s, s', t)
    ensures Published(s')
  {
    assert History(s') == History(s);
    assert forall c | 0 <= c < |s.caches| :: s'.caches[c] == s'.caches[..|s.caches|][c];
    assert forall u | 0 <= u < |s.threads| && u != t :: Private(s'.threads[u]) == Private(s.threads[u]);
  }

  lemma {:induction false} AllocationDoubling(s: State, s': State, t: nat)
    requires t < |s.threads| && Exhaustive(s) && Published(s) && Doubling(s) && Allocated(s, s', t)
    ensures Doubling(s')
  {
    assert History(s') == History(s);
    assert forall c | 0 <= c < |s.caches| :: SizeOf(s'.caches, c) == SizeOf(s.caches, c);
    assert forall i | 0 <= i < |History(s)| :: History(s)[i] in History(s);
    forall u | 0 <= u < |s.threads| && u != t && s'.threads[u].Swap? && !s.reread
      ensures SizeOf(s'.caches, s'.threads[u].bigger) == 2 * SizeOf(s'.caches, s'.threads[u].c)
    {
      assert Private(s.threads[u]) == Some(s.threads[u].bigger) && s.threads[u].c in History(s);
    }
  }

  lemma {:induction false} AllocationKeepsOwners(s: State, s': State, t: nat)
    requires t < |s.threads| && OwnersInv(s) && Allocated(s, s', t)
    ensures OwnersInv(s')
  {
    AllocationExhaustive(s, s', t);
    AllocationExclusive(s, s', t);
    AllocationPublished(s, s', t);
    AllocationDoubling(s, s', t);
  }

  // ----- the race for the pivot

  /** Thread `t` makes its private cache the current one. */
  ghost predicate Installs(s: State, s': State, t: nat)
    requires t < |s.threads|
  {
    && Framed(s, s', t) && s'.caches == s.caches && s.threads[t].Swap? && s.threads[t].c == s.pivot
    && s'.pivot == s.threads[t].bigger && s'.retired == s.retired + [s.pivot] && s'.discarded == s.discarded
    && s'.threads[t].ReadPivot?
  }

  lemma {:induction false} InstallDoubling(s: State, s': State, t: nat)
    requires t < |s.threads| && Doubling(s) && Installs(s, s', t)
    ensures Doubling(s')
  {
    assert History(s') == History(s) + [s.threads[t].bigger];
    assert History(s)[|s.retired|] == s.pivot;
  }

  lemma {:induction false} InstallKeepsOwners(s: State, s': State, t: nat)
    requires t < |s.threads| && OwnersInv(s) && Installs(s, s', t)
    ensures OwnersInv(s')
  {
    InstallDoubling(s, s', t);
    var own := s.threads[t].bigger;
    assert Private(s.threads[t]) == Some(own);
    assert History(s') == History(s) + [own];
    forall c | 0 <= c < |s'.caches| && c !in History(s') && c !in s'.discarded
      ensures exists u :: 0 <= u < |s'.threads| && Private(s'.threads[u]) == Some(c)
    {
      var u :| 0 <= u < |s.threads| && Private(s.threads[u]) == Some(c);
      assert Private(s'.threads[u]) == Some(c);
    }
  }

  /** Thread `t` has lost the race and frees its private cache. */
  ghost predicate Discards(s: State, s': State, t: nat)
    requires t < |s.threads|
  {
    && Framed(s, s', t) && s'.caches == s.caches && s.threads[t].Swap?
    && s'.pivot == s.pivot && s'.retired == s.retired && s'.discarded == s.discarded + [s.threads[t].bigger]
    && s'.threads[t].ReadPivot?
  }

  lemma {:induction false} DiscardKeepsOwners(s: State, s': State, t: nat)
    requires t < |s.threads| && OwnersInv(s) && Discards(s, s', t)
    ensures OwnersInv(s')
  {
    assert Private(s.threads[t]) == Some(s.threads[t].bigger);
    assert History(s') == History(s);
    forall c | 0 <= c < |s'.caches| && c !in History(s') && c !in s'.discarded
      ensures exists u :: 0 <= u < |s'.threads| && Private(s'.threads[u]) == Some(c)
    {
      var u :| 0 <= u < |s.threads| && Private(s.threads[u]) == Some(c);
      assert Private(s'.threads[u]) == Some(c);
    }
  }

  // ----- every step

  lemma {:induction false} StepAllocates(s: State, t: nat, op: Op)
    requires Shape(s) && t < |s.threads| && OpSane(op) && Framed(s, Step(s, t, op), t) && Published(s)
    requires (s.threads[t].CheckCount? && !s.reread) || s.threads[t].ReadPivotForSize?
    requires s.threads[t].ReadPivotForSize? ==> s.reread
    ensures var s' := Step(s, t, op); SameOwners(s, s', t) || Allocated(s, s', t)
  {
    assert PcShape(s.threads[t], s.caches, s.passed);
    assert Step(s, t, op).caches[..|s.caches|] == s.caches;
  }

  lemma {:induction false} StepSwaps(s: State, t: nat, op: Op)
    requires Shape(s) && t < |s.threads| && OpSane(op) && Framed(s, Step(s, t, op), t) && s.threads[t].Swap?
    ensures var s' := Step(s, t, op); Installs(s, s', t) || Discards(s, s', t)
  {
  }

  lemma {:induction false} SlotStepMoves(s: State, t: nat, op: Op)
    requires Shape(s) && t < |s.threads| && Framed(s, Step(s, t, op), t) && Published(s) && IsAtSlot(s.threads[t])
    ensures SameOwners(s, Step(s, t, op), t)
  {
    assert PcShape(s.threads[t], s.caches, s.passed);
  }

  lemma {:induction false} StepMoves(s: State, t: nat, op: Op)
    requires Shape(s) && t < |s.threads| && OpSane(op) && Framed(s, Step(s, t, op), t) && Published(s) && Doubling(s)
    requires !(s.threads[t].CheckCount? && !s.reread) && !s.threads[t].ReadPivotForSize? && !s.threads[t].Swap?
    ensures SameOwners(s, Step(s, t, op), t)
  {
    if IsAtSlot(s.threads[t]) {
      SlotStepMoves(s, t, op);
    } else {
      assert PcShape(s.threads[t], s.caches, s.passed);
      assert s.pivot == History(s)[|s.retired|];
    }
  }

  lemma {:induction false} OwnersKept(s: State, t: nat, op: Op)
    requires Shape(s) && OwnersInv(s) && t < |s.threads| && OpSane(op)
    ensures OwnersInv(Step(s, t, op))
  {
    var s' := Step(s, t, op);
    StepFrame(s, t, op);
    if (s.threads[t].CheckCount? && !s.reread) || s.threads[t].ReadPivotForSize? {
      StepAllocates(s, t, op);
      if SameOwners(s, s', t) {
        SameOwnersKept(s, s', t);
      } else {
        AllocationKeepsOwners(s, s', t);
      }
    } else if s.threads[t].Swap? {
      StepSwaps(s, t, op);
      if Installs(s, s', t) {
        InstallKeepsOwners(s, s', t);
      } else {
        DiscardKeepsOwners(s, s', t);
      }
    } else {
      StepMoves(s, t, op);
      SameOwnersKept(s, s', t);
    }
  }
}
