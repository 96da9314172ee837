/**
 The wait queues of the load resolver: lists of parked loads, keyed by the
 (lossy) hash of the class each of them waits for.
 */
module WaitQueues {
  import opened Prelude
  import opened LoadSpec

  /** INTPTR_MAX of a 32 bit or of a 64 bit platform. */
  type IntptrMax = x: int | x == 0x7FFF_FFFF || x == 0x7FFF_FFFF_FFFF_FFFF witness 0x7FFF_FFFF

  /** Which wait list a class has. */
  type Hash = UniqueId -> nat

  /** `classid & INTPTR_MAX`, where INTPTR_MAX + 1 is a power of two, with 0 replaced. */
  function WaitqueueHash(classid: UniqueId, intptrMax: IntptrMax): nat {
    var hash := classid % (intptrMax + 1);
    if hash == 0 then intptrMax else hash
  }

  function PlatformHash(intptrMax: IntptrMax): Hash {
    (classid: UniqueId) => WaitqueueHash(classid, intptrMax)
  }

  /** Which class ids share a wait list: none on LP64, those that differ by the top bit (or straddle it) on ILP32. */
  lemma {:induction false} WaitqueueHashAliases(a: UniqueId, b: UniqueId, intptrMax: IntptrMax)
    requires a < b
    ensures PlatformHash(intptrMax)(a) == PlatformHash(intptrMax)(b) <==>
            intptrMax == 0x7FFF_FFFF && (b - a == 0x8000_0000 || (a == 0x7FFF_FFFF && b == 0x8000_0000))
  {
    if intptrMax == 0x7FFF_FFFF {
      assert a % 0x8000_0000 == if a < 0x8000_0000 then a else a - 0x8000_0000;
      assert b % 0x8000_0000 == if b < 0x8000_0000 then b else b - 0x8000_0000;
    }
  }

  /** A hashtable of wait lists. `at` says on which list each parked load is. */
  class WaitQueue {
    var lists: map<nat, seq<Load>>
    ghost var at: map<Load, nat>

    /** Each load of `at` is on its list and on no other, and on it only once. */
    ghost predicate Valid()
      reads this
    {
      && (forall k | k in lists :: NoRepeats(lists[k]))
      && (forall k, l | k in lists && l in lists[k] :: l in at && at[l] == k)
      && (forall l | l in at :: at[l] in lists && l in lists[at[l]])
    }

    constructor ()
      ensures Valid() && at == map[]
    {
      lists, at := map[], map[];
    }

    /** Puts a load at the end of a list, which is created when there is none. */
    method Append(key: nat, info: Load)
      requires Valid() && info !in at
      modifies this
      ensures Valid() && at == old(at)[info := key]
      ensures lists == old(lists)[key := (if key in old(lists) then old(lists)[key] else []) + [info]]
    {
      hide NoRepeats;
      var list := if key in lists then lists[key] else [];
      assert info !in list;
      NoRepeatsAppend(list, info);
      lists := lists[key := list + [info]];
      at := at[info := key];
    }

    /** Takes a whole list out of the table. */
    method Detach(key: nat) returns (list: seq<Load>)
      requires Valid()
      modifies this
      ensures Valid() && at == old(at) - Elems(list) && NoRepeats(list)
      ensures lists == old(lists) - {key} && list == if key in old(lists) then old(lists)[key] else []
      ensures forall l :: l in list <==> l in old(at) && old(at)[l] == key
    {
      if key !in lists {
        list := [];
        assert at - Elems(list) == at;
        return;
      }
      list := lists[key];
      lists := lists - {key};
      at := at - Elems(list);
    }
  }

  /** The load is missing something, and `key` is the wait list for what it is missing first. */
  predicate WaitsAt(l: Load, key: nat, classes: ClassTable, hashOf: Hash) {
    var missing := FirstMissing(l, classes);
    missing.Some? && hashOf(missing.value.classid) == key
  }

  /** Every parked load waits for its currently first missing class, except on lists that are about to be drained. */
  ghost predicate Settled(at: map<Load, nat>, classes: ClassTable, hashOf: Hash, pending: set<nat>) {
    forall l | l in at && at[l] !in pending :: WaitsAt(l, at[l], classes, hashOf)
  }

  lemma {:induction false} ParkSettles(at: map<Load, nat>, classes: ClassTable, hashOf: Hash, pending: set<nat>,
                                       info: Load, key: nat)
    requires Settled(at, classes, hashOf, pending) && info !in at && WaitsAt(info, key, classes, hashOf)
    ensures Settled(at[info := key], classes, hashOf, pending)
  {
  }

  /** A list that is about to be drained and is taken out is not pending any more. */
  lemma {:induction false} DetachSettles(at: map<Load, nat>, classes: ClassTable, hashOf: Hash, pending: set<nat>,
                                         list: seq<Load>, key: nat)
    requires Settled(at, classes, hashOf, pending + {key}) && forall l :: l in list <==> l in at && at[l] == key
    ensures Settled(at - Elems(list), classes, hashOf, pending)
  {
    forall l | l in at - Elems(list) && at[l] !in pending
      ensures WaitsAt(l, at[l], classes, hashOf)
    {
      assert l in at && l !in list;
    }
  }

  // ----- what installing a load does to those that wait

  lemma {:induction false} FirstAbsentStays(ds: seq<Dependency>, before: ClassTable, after: ClassTable, d: Dependency)
    requires FirstAbsent(ds, before) == Some(d)
    requires forall x | Present(x, before) :: Present(x, after)
    requires !Present(d, after)
    ensures FirstAbsent(ds, after) == Some(d)
  {
    if Present(ds[0], before) {
      FirstAbsentStays(ds[1..], before, after, d);
    }
  }

  /** Installing a load of class `c` can only wake up loads that wait on the list of `c`. */
  lemma {:induction false} InstallWakesOnlyItsClass(s: set<Load>, x: Load, l: Load, key: nat, hashOf: Hash)
    requires WaitsAt(l, key, TableOf(s), hashOf)
    ensures WaitsAt(l, key, TableOf(s + {x}), hashOf) || key == hashOf(x.classid)
  {
    var d := FirstMissing(l, TableOf(s)).value;
    if d.classid != x.classid {
      forall y | Present(y, TableOf(s)) ensures Present(y, TableOf(s + {x})) {
        PresentMonotone(y, s, s + {x});
      }
      assert CategoryIds(s + {x}, d.classid) == CategoryIds(s, d.classid);
      assert d.classid in ClassIds(s + {x}) ==> d.classid in ClassIds(s);
      FirstAbsentStays(Requirements(l), TableOf(s), TableOf(s + {x}), d);
    }
  }

  lemma {:induction false} InstallSettles(at: map<Load, nat>, s: set<Load>, x: Load, hashOf: Hash, pending: set<nat>)
    requires Settled(at, TableOf(s), hashOf, pending)
    ensures Settled(at, TableOf(s + {x}), hashOf, pending + {hashOf(x.classid)})
  {
    forall l | l in at && at[l] !in pending + {hashOf(x.classid)}
      ensures WaitsAt(l, at[l], TableOf(s + {x}), hashOf)
    {
      InstallWakesOnlyItsClass(s, x, l, at[l], hashOf);
    }
  }

  // ----- the state of the resolver, as values

  /** The class table after a load has been added to it. */
  function Register(t: ClassTable, l: Load): ClassTable {
    if l.LoadCategory? then t[l.classid := (if l.classid in t then t[l.classid] else {}) + {l.categoryid}]
    else t[l.classid := {}]
  }

  /** Each submitted load is installed at most once and is not waiting then; the class table and +load calls follow the log. */
  ghost predicate Books(submitted: set<Load>, log: seq<Load>, waiting: set<Load>, classes: ClassTable,
                        made: seq<Load>, queued: seq<Load>)
  {
    && Elems(log) <= submitted && waiting <= submitted && (forall l | l in log :: l !in waiting)
    && DistinctIds(submitted) && NoRepeats(log) && LogOrdered(log)
    && classes == TableOf(Elems(log))
    && made + queued == WithLoad(log)
  }

  /** One more load waits. */
  lemma {:induction false} BooksPark(submitted: set<Load>, log: seq<Load>, waiting: set<Load>, classes: ClassTable,
                                     made: seq<Load>, queued: seq<Load>, info: Load)
    requires Books(submitted, log, waiting, classes, made, queued) && info in submitted && info !in Elems(log)
    ensures Books(submitted, log, waiting + {info}, classes, made, queued)
  {
    assert forall l | l in log :: l in Elems(log);
  }

  lemma {:induction false} BooksUnpark(submitted: set<Load>, log: seq<Load>, waiting: set<Load>, classes: ClassTable,
                                       made: seq<Load>, queued: seq<Load>, gone: set<Load>)
    requires Books(submitted, log, waiting, classes, made, queued)
    ensures Books(submitted, log, waiting - gone, classes, made, queued)
  {
  }

  lemma {:induction false} CategoryFollowsClass(log: seq<Load>, l: Load)
    requires LogOrdered(log) && l in log && l.LoadCategory?
    ensures l.classid in ClassIds(Elems(log))
  {
    var i :| 0 <= i < |log| && log[i] == l;
    LogOrderedAt(log, i);
    assert Requirements(l)[0] in Requirements(l);
    PresentMonotone(Requirements(l)[0], Elems(log[..i]), Elems(log));
  }

  lemma {:induction false} RegisterCategory(s: set<Load>, l: Load)
    requires l.LoadCategory? && l.classid in ClassIds(s)
    ensures TableOf(s + {l}) == Register(TableOf(s), l)
  {
    assert ClassIds(s + {l}) == ClassIds(s);
    assert CategoryIds(s + {l}, l.classid) == CategoryIds(s, l.classid) + {l.categoryid};
    forall c | c in ClassIds(s) && c != l.classid ensures CategoryIds(s + {l}, c) == CategoryIds(s, c) {
    }
  }

  lemma {:induction false} RegisterClass(s: set<Load>, l: Load)
    requires !l.LoadCategory? && l.classid !in ClassIds(s)
    requires forall x | x in s && x.LoadCategory? :: x.classid in ClassIds(s)
    ensures TableOf(s + {l}) == Register(TableOf(s), l)
  {
    assert ClassIds(s + {l}) == ClassIds(s) + {l.classid};
    forall c | c in ClassIds(s + {l}) ensures CategoryIds(s + {l}, c) == CategoryIds(s, c) {
    }
    assert CategoryIds(s, l.classid) == {};
  }

  lemma {:induction false} RegisterIsTableOf(log: seq<Load>, l: Load)
    requires LogOrdered(log) && Enabled(l, Elems(log)) && forall x | x in log :: !SameId(x, l)
    ensures TableOf(Elems(log) + {l}) == Register(TableOf(Elems(log)), l)
  {
    if l.LoadCategory? {
      assert Requirements(l)[0] in Requirements(l);
      RegisterCategory(Elems(log), l);
    } else {
      forall x | x in Elems(log) && x.LoadCategory? ensures x.classid in ClassIds(Elems(log)) {
        CategoryFollowsClass(log, x);
      }
      RegisterClass(Elems(log), l);
    }
  }

  lemma {:induction false} BooksInstall(submitted: set<Load>, log: seq<Load>, waiting: set<Load>, classes: ClassTable,
                     made: seq<Load>, queued: seq<Load>, l: Load)
    requires Books(submitted, log, waiting, classes, made, queued)
    requires l in submitted && l !in Elems(log) + waiting && FirstMissing(l, classes).None?
    ensures Books(submitted, log + [l], waiting, Register(classes, l), made, if l.load then queued + [l] else queued)
    ensures Elems(log + [l]) == Elems(log) + {l}
  {
    assert Elems(log + [l]) == Elems(log) + {l};
    assert LogOrdered(log + [l]) by {
      LogOrderedAppend(log, l);
    }
    assert made + (if l.load then queued + [l] else queued) == WithLoad(log + [l]) by {
      WithLoadConcat(log, [l]);
      assert WithLoad([l]) == if l.load then [l] else [];
      assert made + (queued + [l]) == (made + queued) + [l];
    }
    assert Register(classes, l) == TableOf(Elems(log) + {l}) by {
      forall x | x in log ensures !SameId(x, l) {
        assert x in Elems(log);
      }
      RegisterIsTableOf(log, l);
    }
    NoRepeatsAppend(log, l);
  }

  /** The first load of a list and those behind it. */
  lemma {:induction false} ElemsFrom(list: seq<Load>, i: nat)
    requires NoRepeats(list) && i < |list|
    ensures Elems(list[i..]) == {list[i]} + Elems(list[i + 1..]) && list[i] !in Elems(list[i + 1..])
  {
    assert list[i..] == [list[i]] + list[i + 1..];
    if list[i] in list[i + 1..] {
      var j :| i < j < |list| && list[i] == list[j];
      NoRepeatsMeansDistinct(list, i, j);
    }
  }
}
