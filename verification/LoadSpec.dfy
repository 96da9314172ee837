/**
 What the load resolver is for, without any queue: loads (classes, mixins and
 categories), the dependencies each of them names, and the least set of loads
 that is closed under "all dependencies are installed".
 */
module LoadSpec {
  import opened Prelude

  /** A dependency on a class, or on one category of a class. */
  datatype Dependency = Dependency(classid: UniqueId, categoryid: Option<UniqueId>)

  /** The loads a loadinfo can carry. `load` says whether +load is implemented. */
  datatype Load =
    | LoadClass(classid: UniqueId, superclassid: Option<UniqueId>, mixinids: seq<UniqueId>,
                dependencies: seq<Dependency>, load: bool)
    | LoadMixin(classid: UniqueId, load: bool)
    | LoadCategory(classid: UniqueId, categoryid: UniqueId, mixinids: seq<UniqueId>,
                   dependencies: seq<Dependency>, load: bool)

  /** The class table: each registered class with the ids of the categories it has gained. */
  type ClassTable = map<UniqueId, set<UniqueId>>

  predicate Present(d: Dependency, t: ClassTable) {
    d.classid in t && (d.categoryid.Some? ==> d.categoryid.value in t[d.classid])
  }

  /** The mixins that must be there, except those that are skipped by id. */
  function MixinRequirements(mixinids: seq<UniqueId>, skip: set<UniqueId>): seq<Dependency> {
    if mixinids == [] then []
    else (if mixinids[0] in skip then [] else [Dependency(mixinids[0], None)])
         + MixinRequirements(mixinids[1..], skip)
  }

  /** The ids whose mixin check a load skips: its own class and its superclass. */
  function SkippedMixins(l: Load): set<UniqueId> {
    {l.classid} + if l.LoadClass? && l.superclassid.Some? then {l.superclassid.value} else {}
  }

  /** The class a load is built on: a class on its superclass, a category on its class. */
  function BaseRequirement(l: Load): seq<Dependency> {
    match l
    case LoadClass(_, superclassid, _, _, _) =>
      if superclassid.Some? then [Dependency(superclassid.value, None)] else []
    case LoadMixin(_, _) => []
    case LoadCategory(classid, _, _, _, _) => [Dependency(classid, None)]
  }

  /** Everything a load needs, in the order in which it is checked. */
  function Requirements(l: Load): seq<Dependency> {
    if l.LoadMixin? then []
    else BaseRequirement(l) + MixinRequirements(l.mixinids, SkippedMixins(l)) + l.dependencies
  }

  /** The first dependency of a list that is not present. */
  function FirstAbsent(ds: seq<Dependency>, t: ClassTable): (r: Option<Dependency>)
    ensures r.None? <==> forall d | d in ds :: Present(d, t)
    ensures r.Some? ==> r.value in ds && !Present(r.value, t)
  {
    if ds == [] then None
    else if !Present(ds[0], t) then Some(ds[0])
    else FirstAbsent(ds[1..], t)
  }

  lemma {:induction false} FirstAbsentConcat(a: seq<Dependency>, b: seq<Dependency>, t: ClassTable)
    ensures FirstAbsent(a + b, t) == if FirstAbsent(a, t).Some? then FirstAbsent(a, t) else FirstAbsent(b, t)
  {
    if a == [] {
      assert a + b == b;
    } else {
      assert (a + b)[1..] == a[1..] + b;
      FirstAbsentConcat(a[1..], b, t);
    }
  }

  /** The first unfulfilled dependency of a load. */
  function FirstMissing(l: Load, t: ClassTable): Option<Dependency> {
    FirstAbsent(Requirements(l), t)
  }

  // ----- the class table of a set of installed loads

  function ClassIds(s: set<Load>): set<UniqueId> {
    set l | l in s && !l.LoadCategory? :: l.classid
  }

  function CategoryIds(s: set<Load>, classid: UniqueId): set<UniqueId> {
    set l | l in s && l.LoadCategory? && l.classid == classid :: l.categoryid
  }

  function TableOf(s: set<Load>): ClassTable {
    map c | c in ClassIds(s) :: CategoryIds(s, c)
  }

  /** All dependencies of a load are in the set. */
  predicate Enabled(l: Load, s: set<Load>) {
    forall d | d in Requirements(l) :: Present(d, TableOf(s))
  }

  lemma {:induction false} PresentMonotone(d: Dependency, s: set<Load>, s': set<Load>)
    requires s <= s' && Present(d, TableOf(s))
    ensures Present(d, TableOf(s'))
  {
  }

  lemma {:induction false} EnabledMonotone(l: Load, s: set<Load>, s': set<Load>)
    requires s <= s' && Enabled(l, s)
    ensures Enabled(l, s')
  {
    forall d | d in Requirements(l) ensures Present(d, TableOf(s')) {
      PresentMonotone(d, s, s');
    }
  }

  // ----- the specification of the resolver

  /** `s` contains every submitted load whose dependencies it contains. */
  ghost predicate Closed(submitted: set<Load>, s: set<Load>) {
    forall l | l in submitted && Enabled(l, s) :: l in s
  }

  /** `s` is the least set of submitted loads closed under "all dependencies installed". */
  ghost predicate IsLeastClosed(submitted: set<Load>, s: set<Load>) {
    && s <= submitted
    && Closed(submitted, s)
    && forall s' | Closed(submitted, s') :: s <= s'
  }

  /** The least closed set does not depend on how it was reached. */
  lemma {:induction false} LeastClosedUnique(submitted: set<Load>, a: set<Load>, b: set<Load>)
    requires IsLeastClosed(submitted, a) && IsLeastClosed(submitted, b)
    ensures a == b
  {
    assert Closed(submitted, a) && Closed(submitted, b);
  }

  /** Every load of an install log comes after everything it depends on. */
  ghost predicate LogOrdered(log: seq<Load>) {
    log == [] ||
    var front := log[..|log| - 1];
    LogOrdered(front) && Enabled(log[|log| - 1], Elems(front))
  }

  /** The same, stated for every position of the log. */
  lemma {:induction false} LogOrderedAt(log: seq<Load>, i: nat)
    requires LogOrdered(log) && i < |log|
    ensures Enabled(log[i], Elems(log[..i]))
  {
    var front := log[..|log| - 1];
    if i < |front| {
      LogOrderedAt(front, i);
      assert front[..i] == log[..i];
    }
  }

  lemma {:induction false} LogOrderedAppend(log: seq<Load>, l: Load)
    requires LogOrdered(log) && Enabled(l, Elems(log))
    ensures LogOrdered(log + [l])
  {
    assert (log + [l])[..|log|] == log;
  }

  /** Nothing outside a closed set can ever be installed. */
  lemma {:induction false} LogInClosed(log: seq<Load>, submitted: set<Load>, s: set<Load>)
    requires LogOrdered(log) && Elems(log) <= submitted && Closed(submitted, s)
    ensures Elems(log) <= s
  {
    if log != [] {
      var front := log[..|log| - 1];
      assert log == front + [log[|log| - 1]];
      assert Elems(front) <= Elems(log);
      LogInClosed(front, submitted, s);
      EnabledMonotone(log[|log| - 1], Elems(front), s);
      assert log[|log| - 1] in submitted;
    }
  }

  /** A quiescent resolver, one that waits only for what is really missing, has reached the least closed set. */
  lemma {:induction false} QuiescentIsLeastClosed(submitted: set<Load>, log: seq<Load>)
    requires LogOrdered(log) && Elems(log) <= submitted
    requires forall l | l in submitted - Elems(log) :: FirstMissing(l, TableOf(Elems(log))).Some?
    ensures IsLeastClosed(submitted, Elems(log))
  {
    forall l | l in submitted && Enabled(l, Elems(log)) ensures l in Elems(log) {
      assert FirstMissing(l, TableOf(Elems(log))).None?;
    }
    forall s | Closed(submitted, s) ensures Elems(log) <= s {
      LogInClosed(log, submitted, s);
    }
  }

  // ----- +load

  /** The loads of a log that implement +load, in log order. */
  function WithLoad(log: seq<Load>): seq<Load> {
    if log == [] then [] else (if log[0].load then [log[0]] else []) + WithLoad(log[1..])
  }

  lemma {:induction false} WithLoadConcat(a: seq<Load>, b: seq<Load>)
    ensures WithLoad(a + b) == WithLoad(a) + WithLoad(b)
  {
    if a == [] {
      assert a + b == b;
    } else {
      assert (a + b)[1..] == a[1..] + b && (a + b)[0] == a[0];
      WithLoadConcat(a[1..], b);
      var first := WithLoad([a[0]]);
      assert first + (WithLoad(a[1..]) + WithLoad(b)) == (first + WithLoad(a[1..])) + WithLoad(b);
    }
  }

  /** Two loads that would claim the same place in the class table. */
  predicate SameId(a: Load, b: Load) {
    && a.LoadCategory? == b.LoadCategory?
    && a.classid == b.classid
    && (a.LoadCategory? ==> a.categoryid == b.categoryid)
  }

  ghost predicate DistinctIds(s: set<Load>) {
    forall a, b {:trigger SameId(a, b)} | a in s && b in s && SameId(a, b) :: a == b
  }

  /** `p` is what fulfills (part of) the dependency `d`: the class or mixin, or the category. */
  predicate Provides(p: Load, d: Dependency) {
    && p.classid == d.classid
    && (p.LoadCategory? ==> d.categoryid == Some(p.categoryid))
  }

  ghost predicate NoRepeats(log: seq<Load>) {
    log == [] || (log[|log| - 1] !in log[..|log| - 1] && NoRepeats(log[..|log| - 1]))
  }

  lemma {:induction false} NoRepeatsMeansDistinct(log: seq<Load>, i: nat, j: nat)
    requires NoRepeats(log) && i < j < |log|
    ensures log[i] != log[j]
  {
    if j < |log| - 1 {
      NoRepeatsMeansDistinct(log[..|log| - 1], i, j);
    } else {
      assert log[i] in log[..j];
    }
  }

  lemma {:induction false} NoRepeatsAppend(log: seq<Load>, l: Load)
    requires NoRepeats(log) && l !in log
    ensures NoRepeats(log + [l])
  {
    assert (log + [l])[..|log|] == log;
  }

  /** Who fulfills a dependency of an installed load was installed before it. */
  lemma {:induction false} ProviderComesFirst(log: seq<Load>, i: nat, d: Dependency, p: Load)
    requires LogOrdered(log) && DistinctIds(Elems(log))
    requires i < |log| && d in Requirements(log[i]) && p in log && Provides(p, d)
    ensures p in log[..i]
  {
    var before := Elems(log[..i]);
    LogOrderedAt(log, i);
    assert Present(d, TableOf(before));
    assert before <= Elems(log);
    if p.LoadCategory? {
      var q :| q in before && q.LoadCategory? && q.classid == d.classid && q.categoryid == p.categoryid;
      assert SameId(p, q) && p in Elems(log) && q in Elems(log);
    } else {
      var q :| q in before && !q.LoadCategory? && q.classid == d.classid;
      assert SameId(p, q) && p in Elems(log) && q in Elems(log);
    }
  }

  lemma {:induction false} WithLoadMembers(log: seq<Load>)
    ensures forall l :: l in WithLoad(log) <==> l in log && l.load
  {
    if log != [] {
      WithLoadMembers(log[1..]);
      assert log == [log[0]] + log[1..];
    }
  }

  /** The position in the log of the i-th +load call; the calls before it are those of the log before it. */
  lemma {:induction false} WithLoadAt(log: seq<Load>, i: nat) returns (k: nat)
    requires i < |WithLoad(log)|
    ensures k < |log| && log[k] == WithLoad(log)[i]
    ensures WithLoad(log[..k]) == WithLoad(log)[..i]
  {
    if log[0].load && i == 0 {
      k := 0;
    } else {
      var skipped := if log[0].load then 1 else 0;
      var k' := WithLoadAt(log[1..], i - skipped);
      k := k' + 1;
      assert log[..k][1..] == log[1..][..k'];
    }
  }

  /** The +load calls of a log run in dependency order: whatever a load depends on has run +load before it. */
  lemma {:induction false} LoadRunsAfterDependencies(log: seq<Load>, i: nat, d: Dependency, p: Load)
    requires LogOrdered(log) && DistinctIds(Elems(log))
    requires i < |WithLoad(log)| && d in Requirements(WithLoad(log)[i])
    requires p in log && Provides(p, d) && p.load
    ensures p in WithLoad(log)[..i]
  {
    var k := WithLoadAt(log, i);
    ProviderComesFirst(log, k, d, p);
    WithLoadMembers(log[..k]);
  }
}
