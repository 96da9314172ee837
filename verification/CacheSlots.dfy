/** The slots of an open-addressed cache as a value: homes, probe chains, and the finite map they stand for. */
module CacheSlots {
  import opened Masks

  /** A slot. Key 0 is "no id" and value 0 is NULL. */
  datatype Entry = Entry(key: nat, value: nat)

  type Slots = seq<Entry>

  /** The slot at which probing for an id starts. */
  function Home(id: nat, size: nat): (p: nat)
    requires size > 0
    ensures p < size
  {
    id / ENTRY_SIZE % size
  }

  /** The slot that is looked at after `j` steps. */
  function At(id: nat, j: nat, size: nat): (p: nat)
    requires j < size
    ensures p < size
  {
    var p := Home(id, size) + j;
    if p < size then p else p - size
  }

  /** The number of steps it takes to get to a slot. */
  function Steps(id: nat, p: nat, size: nat): (j: nat)
    requires p < size
    ensures j < size && At(id, j, size) == p
  {
    var home := Home(id, size);
    if home <= p then p - home else p + size - home
  }

  /** A lap over the cache visits every slot exactly once. */
  lemma {:induction false} OneLapVisitsEverySlotOnce(id: nat, p: nat, size: nat)
    requires p < size
    ensures exists j: nat | j < size :: At(id, j, size) == p
    ensures forall i: nat, j: nat | i < size && j < size && At(id, i, size) == At(id, j, size) :: i == j
  {
    assert At(id, Steps(id, p, size), size) == p;
  }

  /** The first `j` slots that are probed for an id are in use. */
  ghost predicate ChainTo(slots: Slots, id: nat, j: nat)
    requires j <= |slots|
  {
    forall i: nat | i < j :: slots[At(id, i, |slots|)].value != 0
  }

  /** Every slot between the home of a published key and the key itself is in use. */
  ghost predicate Chained(slots: Slots) {
    forall p | 0 <= p < |slots| && slots[p].key != 0 :: ChainTo(slots, slots[p].key, Steps(slots[p].key, p, |slots|))
  }

  ghost predicate DistinctKeys(slots: Slots) {
    forall p, q | 0 <= p < |slots| && 0 <= q < |slots| && slots[p].key == slots[q].key != 0 :: p == q
  }

  /** No write is under way: keys sit exactly on the slots that are in use. */
  ghost predicate Settled(slots: Slots) {
    forall p | 0 <= p < |slots| :: slots[p].key == 0 <==> slots[p].value == 0
  }

  ghost predicate WellFormed(slots: Slots) {
    Settled(slots) && DistinctKeys(slots) && Chained(slots)
  }

  /** The finite map that a cache stands for. */
  ghost function Contents(slots: Slots): map<nat, nat>
    requires WellFormed(slots)
  {
    map e | e in slots && e.key != 0 :: e.key := e.value
  }

  /** The number of slots in use. */
  function Used(slots: Slots): (n: nat)
    ensures n <= |slots|
  {
    if slots == [] then 0 else (if slots[0].value != 0 then 1 else 0) + Used(slots[1..])
  }

  lemma {:induction false} UsedAfterWrite(slots: Slots, p: nat, e: Entry)
    requires p < |slots| && e.value != 0
    ensures Used(slots[p := e]) == Used(slots) + if slots[p].value == 0 then 1 else 0
  {
    if p == 0 {
      assert slots[p := e][1..] == slots[1..];
    } else {
      assert slots[p := e][1..] == slots[1..][p - 1 := e];
      UsedAfterWrite(slots[1..], p - 1, e);
    }
  }

  /** If not all slots are in use, one is free. */
  lemma {:induction false} FreeSlot(slots: Slots) returns (p: nat)
    requires Used(slots) < |slots|
    ensures p < |slots| && slots[p].value == 0
  {
    if slots[0].value == 0 {
      p := 0;
    } else {
      var q := FreeSlot(slots[1..]);
      p := q + 1;
    }
  }

  /** If any slot is counted, one is in use. */
  lemma {:induction false} SlotInUse(slots: Slots) returns (p: nat)
    requires Used(slots) > 0
    ensures p < |slots| && slots[p].value != 0
  {
    if slots[0].value != 0 {
      p := 0;
    } else {
      var q := SlotInUse(slots[1..]);
      p := q + 1;
    }
  }

  /** A chain cannot go around a cache that is not full. */
  lemma {:induction false} ChainEnds(slots: Slots, id: nat, j: nat)
    requires j <= |slots| && Used(slots) < |slots| && ChainTo(slots, id, j)
    ensures j < |slots|
  {
    var p := FreeSlot(slots);
    assert At(id, Steps(id, p, |slots|), |slots|) == p;
  }

  /** A probe gets to a key before it gets to a free slot. */
  lemma {:induction false} KeyBeforeFreeSlot(slots: Slots, id: nat, j: nat, q: nat)
    requires WellFormed(slots) && id != 0 && j < |slots| && q < |slots|
    requires slots[At(id, j, |slots|)].value == 0
    ensures slots[q].key == id ==> Steps(id, q, |slots|) < j
  {
    if slots[q].key == id {
      assert ChainTo(slots, id, Steps(id, q, |slots|));
    }
  }

  /** Where a probe stops, it has found the id or the proof of its absence. */
  lemma {:induction false} ProbeDecides(slots: Slots, id: nat, j: nat)
    requires WellFormed(slots) && id != 0 && j < |slots|
    requires forall i: nat | i < j :: slots[At(id, i, |slots|)].key != id
    requires slots[At(id, j, |slots|)].value == 0
    ensures id !in Contents(slots)
  {
    forall q | 0 <= q < |slots| ensures slots[q].key != id {
      KeyBeforeFreeSlot(slots, id, j, q);
      assert At(id, Steps(id, q, |slots|), |slots|) == q;
    }
  }

  lemma {:induction false} ProbeHits(slots: Slots, p: nat)
    requires WellFormed(slots) && p < |slots| && slots[p].key != 0
    ensures slots[p].key in Contents(slots) && Contents(slots)[slots[p].key] == slots[p].value
  {
    assert slots[p] in slots;
  }

  /** Writing an absent id where its probe ended adds it to the map. */
  lemma {:induction false} InsertExtendsMap(slots: Slots, id: nat, j: nat, value: nat)
    requires WellFormed(slots) && id != 0 && value != 0 && j < |slots|
    requires ChainTo(slots, id, j) && slots[At(id, j, |slots|)].value == 0 && id !in Contents(slots)
    ensures var slots' := slots[At(id, j, |slots|) := Entry(id, value)];
            WellFormed(slots') && Contents(slots') == Contents(slots)[id := value]
  {
    var at := At(id, j, |slots|);
    var slots' := slots[at := Entry(id, value)];
    forall p | 0 <= p < |slots| && slots[p].key != 0 ensures slots[p].key != id {
      ProbeHits(slots, p);
    }
    forall p | 0 <= p < |slots'| && slots'[p].key != 0
      ensures ChainTo(slots', slots'[p].key, Steps(slots'[p].key, p, |slots'|))
    {
      if p == at {
        assert Steps(id, at, |slots|) == j;
      } else {
        assert ChainTo(slots, slots[p].key, Steps(slots[p].key, p, |slots|));
      }
    }
    InsertContents(slots, at, id, value);
  }

  lemma {:induction false} InsertContents(slots: Slots, at: nat, id: nat, value: nat)
    requires at < |slots| && slots[at].key == 0 && id != 0
    requires WellFormed(slots) && WellFormed(slots[at := Entry(id, value)]) && id !in Contents(slots)
    ensures Contents(slots[at := Entry(id, value)]) == Contents(slots)[id := value]
  {
    var slots' := slots[at := Entry(id, value)];
    forall e: Entry | e.key != 0 && e.key != id ensures e in slots <==> e in slots' {
      if e in slots {
        var p :| 0 <= p < |slots| && slots[p] == e;
        assert slots'[p] == e;
      }
    }
    assert slots'[at] == Entry(id, value) && slots'[at] in slots';
    forall e | e in slots' && e.key == id ensures e == Entry(id, value) {
      var p :| 0 <= p < |slots'| && slots'[p] == e;
      assert slots'[at].key == id;
    }
  }

  lemma {:induction false} NothingUsed(slots: Slots, p: nat)
    requires Used(slots) == 0 && p < |slots|
    ensures slots[p].value == 0
  {
    if p > 0 {
      NothingUsed(slots[1..], p - 1);
    }
  }

  /** Whether a slot holds a key that a probe finds in `bucket` steps; 3 stands for "3 or more". */
  ghost predicate FoundIn(slots: Slots, bucket: nat, p: nat)
    requires p < |slots|
  {
    slots[p].key != 0 &&
    var steps := Steps(slots[p].key, p, |slots|);
    bucket == if steps > 3 then 3 else steps
  }

  ghost function FoundAmong(slots: Slots, bucket: nat, n: nat): (found: set<nat>)
    requires n <= |slots|
    ensures forall p :: p in found <==> 0 <= p < n && FoundIn(slots, bucket, p)
  {
    if n == 0 then {}
    else FoundAmong(slots, bucket, n - 1) + if FoundIn(slots, bucket, n - 1) then {n - 1} else {}
  }

  /** One more slot counts for exactly one bucket if it holds a key, and for none if it does not. */
  lemma {:induction false} FoundAmongNext(slots: Slots, bucket: nat, n: nat)
    requires n < |slots|
    ensures |FoundAmong(slots, bucket, n + 1)| == |FoundAmong(slots, bucket, n)| + if FoundIn(slots, bucket, n) then 1 else 0
  {
    assert n !in FoundAmong(slots, bucket, n);
  }

  /** The hits of the first `n` slots, by bucket. */
  ghost predicate CountsHits(slots: Slots, n: nat, counts: seq<nat>, total: nat)
    requires n <= |slots|
  {
    && |counts| == 4 && total == counts[0] + counts[1] + counts[2] + counts[3]
    && counts[0] == |FoundAmong(slots, 0, n)| && counts[1] == |FoundAmong(slots, 1, n)|
    && counts[2] == |FoundAmong(slots, 2, n)| && counts[3] == |FoundAmong(slots, 3, n)|
  }

  lemma {:induction false} CountsNextHit(slots: Slots, n: nat, counts: seq<nat>, total: nat, bucket: nat)
    requires n < |slots| && CountsHits(slots, n, counts, total) && FoundIn(slots, bucket, n)
    ensures bucket < 4 && CountsHits(slots, n + 1, counts[bucket := counts[bucket] + 1], total + 1)
  {
    FoundAmongNext(slots, 0, n);
    FoundAmongNext(slots, 1, n);
    FoundAmongNext(slots, 2, n);
    FoundAmongNext(slots, 3, n);
  }

  lemma {:induction false} CountsNextFree(slots: Slots, n: nat, counts: seq<nat>, total: nat)
    requires n < |slots| && CountsHits(slots, n, counts, total) && slots[n].key == 0
    ensures CountsHits(slots, n + 1, counts, total)
  {
    FoundAmongNext(slots, 0, n);
    FoundAmongNext(slots, 1, n);
    FoundAmongNext(slots, 2, n);
    FoundAmongNext(slots, 3, n);
  }

  lemma {:induction false} NoHits(slots: Slots, n: nat)
    requires n <= |slots| && Settled(slots) && Used(slots) == 0
    ensures CountsHits(slots, n, [0, 0, 0, 0], 0)
  {
    if n > 0 {
      NothingUsed(slots, n - 1);
      NoHits(slots, n - 1);
      CountsNextFree(slots, n - 1, [0, 0, 0, 0], 0);
    }
  }

  /** The least count with which a cache of that size is to grow. */
  function Limit(size: nat, fillrate: nat): nat {
    if fillrate == 0 then (size + 2) / 3 else (size * fillrate + 99) / 100
  }

  /** Whether the count has reached the fill rate: a third by default, else a percentage. */
  predicate ShouldGrow(n: nat, size: nat, fillrate: nat) {
    if fillrate == 0 then n * 3 >= size else n * 100 >= size * fillrate
  }

  /** The limit is the fill rate, rounded up. */
  lemma {:induction false} BelowLimit(size: nat, fillrate: nat)
    requires size > 0
    ensures if fillrate == 0 then 3 * (Limit(size, fillrate) - 1) < size <= 3 * Limit(size, fillrate)
            else 100 * (Limit(size, fillrate) - 1) < size * fillrate <= 100 * Limit(size, fillrate)
  {
  }

  lemma {:induction false} ShouldGrowAtLimit(n: nat, size: nat, fillrate: nat)
    ensures ShouldGrow(n, size, fillrate) <==> n >= Limit(size, fillrate)
  {
  }
}
