/** A cache in memory: probing by byte offset over an array of entries, and adding entries. */
module Cache {
  import opened Masks
  import opened CacheSlots

  class Cache {
    const size: nat
    const mask: nat
    const entries: array<Entry>
    var n: nat
    ghost const log2: nat

    ghost function Slots(): Slots
      reads entries
    {
      entries[..]
    }

    /** No entry is being written, and at least one slot is free, so that every probe ends. */
    ghost predicate Valid()
      reads this, entries
    {
      && size == entries.Length == Pow2(log2)
      && mask == CacheMask(size)
      && WellFormed(Slots())
      && n == Used(Slots()) < size
    }

    ghost function Map(): map<nat, nat>
      requires Valid()
      reads this, entries
    {
      Contents(Slots())
    }

    /** The size must be a power of two, larger than 1. */
    constructor (size: nat, ghost log2: nat)
      requires size == Pow2(log2) && size > 1
      ensures Valid() && fresh(entries) && this.size == size && this.log2 == log2 && n == 0 && Map() == map[]
    {
      this.size := size;
      this.log2 := log2;
      mask := CacheMask(size);
      n := 0;
      entries := new Entry[size](_ => Entry(0, 0));
      new;
      AllFree(Slots());
    }

    /** The masked offset is the slot of the j-th step. */
    lemma {:induction false} OffsetOfStep(id: nat, j: nat, offset: nat)
      requires Valid() && j < size
      requires if j == 0 then offset == id else offset == At(id, j - 1, size) * ENTRY_SIZE + ENTRY_SIZE
      ensures And(offset, mask) == At(id, j, size) * ENTRY_SIZE
      ensures And(offset, mask) / ENTRY_SIZE == At(id, j, size)
    {
      if j == 0 {
        PreshiftedMaskIsModulo(id, log2);
      } else {
        StepWraps(At(id, j - 1, size), log2);
      }
    }

    /** Finds the slot with a matching id, or the first free slot. */
    method ProbeEntryoffset(uniqueid: nat) returns (offset: nat, ghost steps: nat)
      requires Valid() && uniqueid != 0
      ensures steps < size && offset == At(uniqueid, steps, size) * ENTRY_SIZE && offset / ENTRY_SIZE < size
      ensures ChainTo(Slots(), uniqueid, steps)
      ensures var entry := entries[offset / ENTRY_SIZE];
              if uniqueid in Map() then entry == Entry(uniqueid, Map()[uniqueid]) else entry == Entry(0, 0)
    {
      offset := uniqueid;
      steps := 0;
      while true
        invariant if steps == 0 then offset == uniqueid
                  else steps <= size && offset == At(uniqueid, steps - 1, size) * ENTRY_SIZE + ENTRY_SIZE
        invariant steps < size && ChainTo(Slots(), uniqueid, steps)
        invariant forall i: nat | i < steps :: entries[At(uniqueid, i, size)].key != uniqueid
        decreases size - steps
      {
        OffsetOfStep(uniqueid, steps, offset);
        offset := And(offset, mask);
        var entry := entries[offset / ENTRY_SIZE];
        if entry.key == uniqueid {
          ProbeHits(Slots(), At(uniqueid, steps, size));
          return;
        }
        if entry.value == 0 {
          ProbeDecides(Slots(), uniqueid, steps);
          return;
        }
        ChainEnds(Slots(), uniqueid, steps + 1);
        offset := offset + ENTRY_SIZE;
        steps := steps + 1;
      }
    }

    /** The number of steps to a matching id, or -1. */
    method ProbeEntryindex(uniqueid: nat) returns (index: int)
      requires Valid() && uniqueid != 0
      ensures index >= 0 <==> uniqueid in Map()
      ensures index >= 0 ==> index < size && entries[At(uniqueid, index, size)].key == uniqueid
    {
      var offset := uniqueid;
      index := 0;
      while true
        invariant 0 <= index < size
        invariant if index == 0 then offset == uniqueid
                  else offset == At(uniqueid, index - 1, size) * ENTRY_SIZE + ENTRY_SIZE
        invariant ChainTo(Slots(), uniqueid, index)
        invariant forall i: nat | i < index :: entries[At(uniqueid, i, size)].key != uniqueid
        decreases size - index
      {
        OffsetOfStep(uniqueid, index, offset);
        offset := And(offset, mask);
        var entry := entries[offset / ENTRY_SIZE];
        if entry.key == uniqueid {
          ProbeHits(Slots(), At(uniqueid, index, size));
          return;
        }
        if entry.value == 0 {
          ProbeDecides(Slots(), uniqueid, index);
          return -1;
        }
        ChainEnds(Slots(), uniqueid, index + 1);
        offset := offset + ENTRY_SIZE;
        index := index + 1;
      }
    }

    /** The cached value of an id, or NULL. */
    method ProbeFunctionpointer(uniqueid: nat) returns (value: nat)
      requires Valid() && uniqueid != 0
      ensures value == if uniqueid in Map() then Map()[uniqueid] else 0
      ensures value != 0 <==> uniqueid in Map()
    {
      var offset, _ := ProbeEntryoffset(uniqueid);
      var entry := entries[offset / ENTRY_SIZE];
      value := entry.value;
      if uniqueid in Map() {
        ghost var p := offset / ENTRY_SIZE;
        assert entries[p] == Slots()[p];
      }
    }

    /** The lookup of the inlined dispatch loops: stops at the id or at a slot without a key. */
    method ProbeInline(uniqueid: nat) returns (value: nat)
      requires Valid() && uniqueid != 0
      ensures value == if uniqueid in Map() then Map()[uniqueid] else 0
      ensures value != 0 <==> uniqueid in Map()
    {
      var offset := uniqueid;
      ghost var steps := 0;
      while true
        invariant if steps == 0 then offset == uniqueid
                  else steps <= size && offset == At(uniqueid, steps - 1, size) * ENTRY_SIZE + ENTRY_SIZE
        invariant steps < size && ChainTo(Slots(), uniqueid, steps)
        invariant forall i: nat | i < steps :: entries[At(uniqueid, i, size)].key != uniqueid
        decreases size - steps
      {
        OffsetOfStep(uniqueid, steps, offset);
        offset := And(offset, mask);
        var entry := entries[offset / ENTRY_SIZE];
        if entry.key == uniqueid {
          ProbeHits(Slots(), At(uniqueid, steps, size));
          return entry.value;
        }
        if entry.key == 0 {
          ProbeDecides(Slots(), uniqueid, steps);
          return 0;
        }
        ChainEnds(Slots(), uniqueid, steps + 1);
        offset := offset + ENTRY_SIZE;
        steps := steps + 1;
      }
    }

    /** Looks at the home slot only. */
    method ProbeHome(uniqueid: nat) returns (entry: Entry)
      requires Valid() && uniqueid != 0
      ensures entry == entries[Home(uniqueid, size)]
      ensures entry.key == uniqueid ==> uniqueid in Map() && Map()[uniqueid] == entry.value
    {
      var offset := And(uniqueid, mask);
      OffsetOfStep(uniqueid, 0, uniqueid);
      entry := entries[offset / ENTRY_SIZE];
      if entry.key == uniqueid {
        ProbeHits(Slots(), At(uniqueid, 0, size));
      }
    }

    /** The slot of the j-th step after the home slot; the last one is the home slot again. */
    ghost function After(id: nat, j: nat): nat
      requires size > 0 && 1 <= j <= size
    {
      if j < size then At(id, j, size) else Home(id, size)
    }

    lemma {:induction false} AfterNext(id: nat, j: nat)
      requires size > 0 && 1 <= j <= size
      ensures var slot := if j == 1 then Home(id, size) else After(id, j - 1);
              After(id, j) == if slot + 1 < size then slot + 1 else 0
    {
    }

    lemma {:induction false} OffsetAfter(id: nat, j: nat, offset: nat)
      requires Valid() && log2 <= 22 && 1 <= j <= size && id < UINT32_SIZE
      requires if j == 1 then offset == id else offset == After(id, j - 1) * ENTRY_SIZE
      ensures And((offset + ENTRY_SIZE) % UINT32_SIZE, mask) == After(id, j) * ENTRY_SIZE
      ensures And((offset + ENTRY_SIZE) % UINT32_SIZE, mask) / ENTRY_SIZE == After(id, j)
    {
      SizeDividesIdSpace(log2);
      AfterNext(id, j);
      if j == 1 {
        FirstStepWraps(id, log2);
      } else {
        var slot := After(id, j - 1);
        StepWraps(slot, log2);
        ModUnique(offset + ENTRY_SIZE, UINT32_SIZE, 0, offset + ENTRY_SIZE);
      }
      SlotOfOffset(After(id, j));
    }

    /** Where the probe after a collision stops, the id is absent. */
    lemma {:induction false} CollisionDecides(id: nat, j: nat)
      requires Valid() && id != 0 && 1 <= j <= size
      requires entries[Home(id, size)].key != id && entries[After(id, j)].key == 0
      requires forall i: nat | 1 <= i < j :: entries[After(id, i)].key !in {0, id}
      ensures id !in Map()
    {
      assert At(id, 0, size) == Home(id, size);
      if entries[Home(id, size)].key == 0 {
        ProbeDecides(Slots(), id, 0);
      } else {
        forall i: nat | i < j ensures entries[At(id, i, size)].key != id {
          assert i > 0 ==> After(id, i) == At(id, i, size);
        }
        ProbeDecides(Slots(), id, j);
      }
    }

    /** If the home slot is in use, there is a free slot before the lap is over. */
    lemma {:induction false} FreeSlotAfter(id: nat) returns (j: nat)
      requires Valid() && entries[Home(id, size)].key != 0
      ensures 1 <= j < size && entries[After(id, j)].key == 0
    {
      var p := FreeSlot(Slots());
      j := Steps(id, p, size);
      assert At(id, 0, size) == Home(id, size);
    }

    /** The lookup after a miss on the home slot, which starts one slot later, even if the home slot is free. */
    method ProbeCollision(uniqueid: nat) returns (value: nat)
      requires Valid() && 0 < uniqueid < UINT32_SIZE && log2 <= 22
      requires entries[Home(uniqueid, size)].key != uniqueid
      ensures value == if uniqueid in Map() then Map()[uniqueid] else 0
      ensures value != 0 <==> uniqueid in Map()
    {
      hide ChainTo;
      var offset := uniqueid;
      ghost var steps := 1;
      while true
        invariant 1 <= steps <= size
        invariant if steps == 1 then offset == uniqueid else offset == After(uniqueid, steps - 1) * ENTRY_SIZE
        invariant forall i: nat | 1 <= i < steps :: entries[After(uniqueid, i)].key !in {0, uniqueid}
        decreases size - steps
      {
        OffsetAfter(uniqueid, steps, offset);
        offset := (offset + ENTRY_SIZE) % UINT32_SIZE;
        offset := And(offset, mask);
        var entry := entries[offset / ENTRY_SIZE];
        if entry.key == uniqueid {
          ProbeHits(Slots(), offset / ENTRY_SIZE);
          return entry.value;
        }
        if entry.key == 0 {
          CollisionDecides(uniqueid, steps);
          return 0;
        }
        if entries[Home(uniqueid, size)].key != 0 {
          ghost var last := FreeSlotAfter(uniqueid);
          assert steps < last;
        }
        steps := steps + 1;
      }
    }

    /** The distance of a key from its home, which may be on the other side of the wrap around. */
    method StepsOfEntry(p: nat) returns (steps: nat)
      requires Valid() && p < size && entries[p].key != 0
      ensures steps == Steps(entries[p].key, p, size)
    {
      var id, offset := entries[p].key, p * ENTRY_SIZE;
      var expected := And(id, mask);
      OffsetOfStep(id, 0, id);
      steps := if expected > offset then size * ENTRY_SIZE - expected + offset else offset - expected;
      steps := steps / ENTRY_SIZE;
    }

    /** Counts the entry of one slot. */
    method CountHit(p: nat, counts: seq<nat>, total: nat) returns (counts': seq<nat>, total': nat)
      requires Valid() && p < size && CountsHits(Slots(), p, counts, total)
      ensures CountsHits(Slots(), p + 1, counts', total')
    {
      if entries[p].key == 0 {
        CountsNextFree(Slots(), p, counts, total);
        return counts, total;
      }
      var steps := StepsOfEntry(p);
      if steps > 3 {
        steps := 3;
      }
      CountsNextHit(Slots(), p, counts, total, steps);
      return counts[steps := counts[steps] + 1], total + 1;
    }

    /** How many keys are found after 0, 1, 2, and 3 or more steps. */
    method CalculateHits() returns (counts: seq<nat>, total: nat)
      requires Valid()
      ensures CountsHits(Slots(), size, counts, total)
    {
      counts, total := [0, 0, 0, 0], 0;
      if n == 0 {
        NoHits(Slots(), size);
        return;
      }
      for p := 0 to size
        invariant CountsHits(Slots(), p, counts, total)
      {
        counts, total := CountHit(p, counts, total);
      }
    }

    /** Adds an entry to a cache that has enough space. An entry that is there already stays. */
    method AddFunctionpointerInactive(pointer: nat, uniqueid: nat)
      requires Valid() && uniqueid != 0 && pointer != 0
      requires n + 1 < size
      modifies this, entries
      ensures Valid()
      ensures Map() == if uniqueid in old(Map()) then old(Map()) else old(Map())[uniqueid := pointer]
      ensures n == old(n) + if uniqueid in old(Map()) then 0 else 1
    {
      var offset, steps := ProbeEntryoffset(uniqueid);
      var p := offset / ENTRY_SIZE;
      if entries[p].key != 0 {
        return;
      }
      InsertExtendsMap(Slots(), uniqueid, steps, pointer);
      UsedAfterWrite(Slots(), p, Entry(uniqueid, pointer));
      ghost var slots := Slots();
      entries[p] := Entry(uniqueid, pointer);
      assert Slots() == slots[p := Entry(uniqueid, pointer)];
      n := n + 1;
    }

    /** Adds an entry in the three steps that make it visible to others: value, count, key. Fails if others were faster. */
    method AddFunctionpointerEntry(pointer: nat, uniqueid: nat) returns (ok: bool)
      requires Valid() && uniqueid != 0 && pointer != 0
      requires n + 1 < size
      modifies this, entries
      ensures Valid() && ok
      ensures Map() == if uniqueid in old(Map()) then old(Map()) else old(Map())[uniqueid := pointer]
    {
      var offset, steps := ProbeEntryoffset(uniqueid);
      var p := offset / ENTRY_SIZE;
      if entries[p].value != 0 {
        return entries[p].key == uniqueid;
      }
      InsertExtendsMap(Slots(), uniqueid, steps, pointer);
      UsedAfterWrite(Slots(), p, Entry(uniqueid, pointer));
      ghost var slots := Slots();
      entries[p] := entries[p].(value := pointer);
      n := n + 1;
      entries[p] := entries[p].(key := uniqueid);
      assert Slots() == slots[p := Entry(uniqueid, pointer)];
      ok := true;
    }
  }

  lemma {:induction false} AllFree(slots: Slots)
    requires |slots| > 0 && forall p | 0 <= p < |slots| :: slots[p] == Entry(0, 0)
    ensures WellFormed(slots) && Used(slots) == 0 && Contents(slots) == map[]
  {
    if |slots| > 1 {
      AllFree(slots[1..]);
    }
  }
}
