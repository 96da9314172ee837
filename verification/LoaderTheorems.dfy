/** What follows for every universe between two loadinfos, however it got there. */
module LoaderTheorems {
  import opened Prelude
  import opened LoadSpec
  import opened WaitQueues
  import opened Loader

  /** Two universes that were given the same loads, in any order, on any platform, agree on everything but list order. */
  lemma {:induction false} ArrivalOrderIrrelevant(a: Universe, b: Universe)
    requires a.Valid() && b.Valid() && a.submitted == b.submitted
    ensures a.Installed() == b.Installed() && a.Waiting() == b.Waiting() && a.classtable == b.classtable
  {
    a.NothingLeftToInstall();
    b.NothingLeftToInstall();
    LeastClosedUnique(a.submitted, a.Installed(), b.Installed());
  }

  /** The queue that a load of this kind waits in, and the other one. */
  ghost function QueueOf(u: Universe, l: Load): WaitQueue {
    if l.LoadClass? then u.classestoload else u.categoriestoload
  }

  ghost function OtherQueueOf(u: Universe, l: Load): WaitQueue {
    if l.LoadClass? then u.categoriestoload else u.classestoload
  }

  ghost predicate OnlyOnList(q: WaitQueue, l: Load, key: nat)
    reads q
  {
    key in q.lists && forall k | k in q.lists :: l in q.lists[k] <==> k == key
  }

  ghost predicate OnNoList(q: WaitQueue, l: Load)
    reads q
  {
    forall k | k in q.lists :: l !in q.lists[k]
  }

  lemma {:induction false} OnItsList(q: WaitQueue, l: Load)
    requires q.Valid() && l in q.at
    ensures OnlyOnList(q, l, q.at[l])
  {
  }

  lemma {:induction false} OnNone(q: WaitQueue, l: Load)
    requires q.Valid() && l !in q.at
    ensures OnNoList(q, l)
  {
  }

  /** Every submitted load is installed, or it is on the wait list of the class that it misses first and on no other list. */
  lemma {:induction false} NoLostWakeup(u: Universe, l: Load)
    requires u.Valid() && l in u.submitted && l !in u.Installed()
    ensures var missing := FirstMissing(l, u.classtable);
            missing.Some? && OnlyOnList(QueueOf(u, l), l, u.hashOf(missing.value.classid))
    ensures OnNoList(OtherQueueOf(u, l), l)
  {
    var q, other := QueueOf(u, l), OtherQueueOf(u, l);
    assert u.Queued({}, {}) && l in u.Waiting();
    assert l in q.at && l !in other.at && q.Valid() && other.Valid();
    assert WaitsAt(l, q.at[l], u.classtable, u.hashOf) by {
      assert Settled(q.at, u.classtable, u.hashOf, {});
    }
    OnItsList(q, l);
    OnNone(other, l);
  }

  /** What is installed was installed once and is on no wait list any more. */
  lemma {:induction false} InstalledOnce(u: Universe, l: Load)
    requires u.Valid() && l in u.Installed()
    ensures forall i, j | 0 <= i < |u.log| && 0 <= j < |u.log| && u.log[i] == l && u.log[j] == l :: i == j
    ensures OnNoList(u.classestoload, l) && OnNoList(u.categoriestoload, l)
  {
    forall i, j | 0 <= i < j < |u.log| ensures u.log[i] != u.log[j] {
      NoRepeatsMeansDistinct(u.log, i, j);
    }
  }

  /** The rules of +load: every installed load that implements it gets it called, once, ... */
  lemma {:induction false} LoadCalledOnce(u: Universe, l: Load)
    requires u.Valid()
    ensures l in u.loadcalls <==> l in u.Installed() && l.load
    ensures NoRepeats(u.loadcalls)
  {
    assert u.loadcalls + [] == u.loadcalls;
    WithLoadMembers(u.log);
    WithLoadNoRepeats(u.log);
  }

  /** ... after its superclass, its class, its mixins and its +dependencies are there and have run +load. */
  lemma {:induction false} LoadCalledInOrder(u: Universe, i: nat, d: Dependency, p: Load)
    requires u.Valid() && i < |u.loadcalls| && d in Requirements(u.loadcalls[i])
    requires p in u.submitted && Provides(p, d)
    ensures p in u.Installed()
    ensures p.load ==> p in u.loadcalls[..i]
  {
    var k := WithLoadAt(u.log, i);
    LogOrderedAt(u.log, k);
    var before := Elems(u.log[..k]);
    assert Present(d, TableOf(before)) && before <= u.Installed();
    assert p in u.Installed() by {
      if p.LoadCategory? {
        var q :| q in before && q.LoadCategory? && q.classid == d.classid && q.categoryid == p.categoryid;
        assert SameId(p, q);
      } else {
        var q :| q in before && !q.LoadCategory? && q.classid == d.classid;
        assert SameId(p, q);
      }
    }
    if p.load {
      LoadRunsAfterDependencies(u.log, i, d, p);
    }
  }

  lemma {:induction false} WithLoadNoRepeats(log: seq<Load>)
    requires NoRepeats(log)
    ensures NoRepeats(WithLoad(log))
  {
    if log != [] {
      var front, last := log[..|log| - 1], log[|log| - 1];
      WithLoadNoRepeats(front);
      assert log == front + [last];
      WithLoadConcat(front, [last]);
      assert WithLoad([last]) == if last.load then [last] else [];
      if last.load {
        WithLoadMembers(front);
        NoRepeatsAppend(WithLoad(front), last);
      } else {
        assert WithLoad(log) == WithLoad(front);
      }
    }
  }

  // ----- the same, read off the fields of a load

  /** What a class, mixin or category needs, in any order. The ids of its own class and its superclass are no mixins to it. */
  ghost predicate Needs(l: Load, d: Dependency) {
    match l
    case LoadClass(classid, superclassid, mixinids, dependencies, _) =>
      || (d.categoryid.None? && superclassid == Some(d.classid))
      || (d.categoryid.None? && d.classid in mixinids && d.classid != classid && superclassid != Some(d.classid))
      || d in dependencies
    case LoadMixin(_, _) => false
    case LoadCategory(classid, _, mixinids, dependencies, _) =>
      || (d.categoryid.None? && d.classid == classid)
      || (d.categoryid.None? && d.classid in mixinids && d.classid != classid)
      || d in dependencies
  }

  lemma {:induction false} MixinsNeeded(mixinids: seq<UniqueId>, skip: set<UniqueId>, d: Dependency)
    ensures d in MixinRequirements(mixinids, skip) <==> d.categoryid.None? && d.classid in mixinids && d.classid !in skip
  {
    if mixinids != [] {
      MixinsNeeded(mixinids[1..], skip, d);
    }
  }

  lemma {:induction false} RequirementsAreNeeds(l: Load, d: Dependency)
    ensures d in Requirements(l) <==> Needs(l, d)
  {
    if !l.LoadMixin? {
      MixinsNeeded(l.mixinids, SkippedMixins(l), d);
    }
  }

  /** A class or mixin of that id is among the loads. */
  ghost predicate HasClass(s: set<Load>, classid: UniqueId) {
    exists p :: p in s && !p.LoadCategory? && p.classid == classid
  }

  ghost predicate HasCategory(s: set<Load>, classid: UniqueId, categoryid: UniqueId) {
    exists p :: p in s && p.LoadCategory? && p.classid == classid && p.categoryid == categoryid
  }

  ghost predicate HasAll(s: set<Load>, d: Dependency) {
    HasClass(s, d.classid) && (d.categoryid.Some? ==> HasCategory(s, d.classid, d.categoryid.value))
  }

  lemma {:induction false} PresentMeansHas(s: set<Load>, d: Dependency)
    ensures Present(d, TableOf(s)) <==> HasAll(s, d)
  {
  }

  /** The class table holds the classes, mixins and categories that are installed, and nothing else. */
  lemma {:induction false} TableHoldsInstalled(u: Universe, classid: UniqueId)
    requires u.Valid()
    ensures classid in u.classtable <==> HasClass(u.Installed(), classid)
    ensures classid in u.classtable ==>
              forall categoryid :: categoryid in u.classtable[classid] <==> HasCategory(u.Installed(), classid, categoryid)
  {
    assert u.classtable == TableOf(u.Installed());
  }

  /** Whatever an installed load needs was installed before it: superclass, class, mixins, and what +dependencies names. */
  lemma {:induction false} NeedsComeFirst(u: Universe, i: nat, d: Dependency)
    requires u.Valid() && i < |u.log| && Needs(u.log[i], d)
    ensures HasAll(Elems(u.log[..i]), d)
  {
    RequirementsAreNeeds(u.log[i], d);
    LogOrderedAt(u.log, i);
    PresentMeansHas(Elems(u.log[..i]), d);
  }

  /** And has run its +load before. */
  lemma {:induction false} NeedsLoadFirst(u: Universe, i: nat, d: Dependency, p: Load)
    requires u.Valid() && i < |u.loadcalls| && Needs(u.loadcalls[i], d)
    requires p in u.submitted && p.load && p.classid == d.classid && (p.LoadCategory? ==> d.categoryid == Some(p.categoryid))
    ensures p in u.loadcalls[..i]
  {
    RequirementsAreNeeds(u.loadcalls[i], d);
    LoadCalledInOrder(u, i, d, p);
  }

  /** The superclass of a class, or the class of a category. */
  ghost function BaseOf(l: Load): Option<UniqueId>
    requires !l.LoadMixin?
  {
    if l.LoadClass? then l.superclassid else Some(l.classid)
  }

  /** The i-th mixin is one that counts, and it is not installed. */
  ghost predicate LacksMixin(s: set<Load>, l: Load, i: nat)
    requires !l.LoadMixin? && i < |l.mixinids|
  {
    l.mixinids[i] != l.classid && Some(l.mixinids[i]) != BaseOf(l) && !HasClass(s, l.mixinids[i])
  }

  ghost predicate LacksBase(s: set<Load>, l: Load)
    requires !l.LoadMixin?
  {
    BaseOf(l).Some? && !HasClass(s, BaseOf(l).value)
  }

  /** The class on whose list a load waits: its superclass or class, or its first mixin, or else the first of its dependencies. */
  ghost predicate WaitsFor(s: set<Load>, l: Load, x: UniqueId)
    requires !l.LoadMixin?
  {
    if LacksBase(s, l) then BaseOf(l) == Some(x)
    else if exists i: nat :: i < |l.mixinids| && LacksMixin(s, l, i) then
      exists i: nat :: i < |l.mixinids| && l.mixinids[i] == x && LacksMixin(s, l, i)
                       && forall j: nat | j < i :: !LacksMixin(s, l, j)
    else
      exists i: nat :: i < |l.dependencies| && l.dependencies[i].classid == x && !HasAll(s, l.dependencies[i])
                       && forall j: nat | j < i :: HasAll(s, l.dependencies[j])
  }

  lemma {:induction false} FirstAbsentAt(ds: seq<Dependency>, s: set<Load>) returns (i: nat)
    ensures i <= |ds| && forall j: nat | j < i :: HasAll(s, ds[j])
    ensures i < |ds| ==> !HasAll(s, ds[i])
    ensures FirstAbsent(ds, TableOf(s)) == if i == |ds| then None else Some(ds[i])
  {
    i := 0;
    if ds != [] {
      PresentMeansHas(s, ds[0]);
      if Present(ds[0], TableOf(s)) {
        i := FirstAbsentAt(ds[1..], s);
        i := i + 1;
      }
    }
  }

  lemma {:induction false} FirstAbsentMixin(mixinids: seq<UniqueId>, skip: set<UniqueId>, s: set<Load>) returns (i: nat)
    ensures i <= |mixinids| && forall j: nat | j < i :: mixinids[j] in skip || HasClass(s, mixinids[j])
    ensures i < |mixinids| ==> mixinids[i] !in skip && !HasClass(s, mixinids[i])
    ensures FirstAbsent(MixinRequirements(mixinids, skip), TableOf(s)) ==
              if i == |mixinids| then None else Some(Dependency(mixinids[i], None))
  {
    i := 0;
    if mixinids != [] {
      var d := Dependency(mixinids[0], None);
      PresentMeansHas(s, d);
      FirstAbsentConcat(if mixinids[0] in skip then [] else [d], MixinRequirements(mixinids[1..], skip), TableOf(s));
      if mixinids[0] in skip || HasClass(s, mixinids[0]) {
        i := FirstAbsentMixin(mixinids[1..], skip, s);
        i := i + 1;
      }
    }
  }

  lemma {:induction false} FirstAbsentBase(s: set<Load>, l: Load)
    requires !l.LoadMixin?
    ensures FirstAbsent(BaseRequirement(l), TableOf(s)) == if LacksBase(s, l) then Some(Dependency(BaseOf(l).value, None)) else None
  {
    if BaseOf(l).Some? {
      PresentMeansHas(s, Dependency(BaseOf(l).value, None));
    }
  }

  lemma {:induction false} FirstMissingWaits(s: set<Load>, l: Load)
    requires !l.LoadMixin? && FirstMissing(l, TableOf(s)).Some?
    ensures WaitsFor(s, l, FirstMissing(l, TableOf(s)).value.classid)
  {
    hide FirstAbsent, TableOf, HasClass, HasAll, MixinRequirements, BaseRequirement;
    var t, base, mixins := TableOf(s), BaseRequirement(l), MixinRequirements(l.mixinids, SkippedMixins(l));
    FirstAbsentConcat(base + mixins, l.dependencies, t);
    FirstAbsentConcat(base, mixins, t);
    FirstAbsentBase(s, l);
    var i := FirstAbsentMixin(l.mixinids, SkippedMixins(l), s);
    assert forall j: nat | j < |l.mixinids| :: LacksMixin(s, l, j) <==> l.mixinids[j] !in SkippedMixins(l) && !HasClass(s, l.mixinids[j]);
    var k := FirstAbsentAt(l.dependencies, s);
  }

  /** A load that waits lacks something, and is on the list of what it lacks first. Mixins never wait. */
  lemma {:induction false} WaitsForWhatItLacks(u: Universe, l: Load)
    requires u.Valid() && l in u.submitted && l !in u.Installed()
    ensures !l.LoadMixin?
    ensures exists x :: WaitsFor(u.Installed(), l, x) && OnlyOnList(QueueOf(u, l), l, u.hashOf(x))
    ensures OnNoList(OtherQueueOf(u, l), l)
  {
    NoLostWakeup(u, l);
    assert u.classtable == TableOf(u.Installed());
    FirstMissingWaits(u.Installed(), l);
  }
}
