/** The search for a method: a recursive walk with a mode that it changes as it goes, against the scan of the linearization. */
module MethodSearch {
  import opened Prelude
  import opened SearchSpec

  // ----- methodlists

  ghost predicate SortedMethods(methods: seq<Method>) {
    forall i, j | 0 <= i < j < |methods| :: methods[i].methodid < methods[j].methodid
  }

  ghost predicate SortedLists(lists: seq<MethodList>) {
    forall l | l in lists :: SortedMethods(l.methods)
  }

  ghost predicate SortedHierarchy(h: Hierarchy) {
    ValidHierarchy(h) && forall i | 0 <= i < |h| :: SortedLists(h[i].infra.lists) && SortedLists(h[i].meta.lists)
  }

  /** Binary search in methods that are sorted, possibly with repeated ids. */
  method MethodBsearch(buf: seq<Method>, search: nat) returns (r: Option<nat>)
    requires forall i, j | 0 <= i < j < |buf| :: buf[i].methodid <= buf[j].methodid
    ensures r.None? <==> forall m | m in buf :: m.methodid != search
    ensures r.Some? ==> r.value < |buf| && buf[r.value].methodid == search
  {
    var first, last := 0, |buf| - 1;
    while first <= last
      invariant 0 <= first <= |buf| && -1 <= last < |buf|
      invariant forall i | 0 <= i < first :: buf[i].methodid < search
      invariant forall i | last < i < |buf| :: buf[i].methodid > search
      decreases last - first + 1
    {
      var middle := (first + last) / 2;
      var id := buf[middle].methodid;
      if id <= search {
        if id == search {
          return Some(middle);
        }
        first := middle + 1;
      } else {
        last := middle - 1;
      }
    }
    return None;
  }

  lemma {:induction false} FirstMatchAt(methods: seq<Method>, s: Search, i: nat)
    requires i < |methods| && Matches(methods[i], s) && forall j | 0 <= j < i :: !Matches(methods[j], s)
    ensures FirstMatch(methods, s) == Some(methods[i])
  {
    if i > 0 {
      FirstMatchAt(methods[1..], s, i - 1);
    }
  }

  method MethodlistFind(methods: seq<Method>, s: Search) returns (r: Option<Method>)
    ensures r == FirstMatch(methods, s)
  {
    for i := 0 to |methods|
      invariant forall j | 0 <= j < i :: !Matches(methods[j], s)
    {
      if Matches(methods[i], s) {
        FirstMatchAt(methods, s, i);
        return Some(methods[i]);
      }
    }
    return None;
  }

  /** Short lists are searched linearly, long lists by bisection, and implementations always linearly. */
  method MethodlistSearch(list: MethodList, s: Search) returns (r: Option<Method>)
    requires SortedMethods(list.methods)
    ensures r == FirstMatch(list.methods, s)
  {
    if s.SearchImp? || |list.methods| < 14 {
      r := MethodlistFind(list.methods, s);
    } else {
      var index := MethodBsearch(list.methods, s.methodid);
      if index.None? {
        return None;
      }
      FirstMatchAt(list.methods, s, index.value);
      return Some(list.methods[index.value]);
    }
  }

  // ----- the recursive search

  /** What the recursive search returns: a method, NULL with an error, or "not found". */
  datatype Returned = NotFound | Null(error: Errno) | Got(hit: Hit)

  /** What is returned for a scan. */
  function ReturnOf(scan: Scan): Returned {
    if scan.hits == [] then (if scan.invalid then Null(EINVAL) else NotFound)
    else if !scan.hits[0].found.fatal || |scan.hits| == 1 then Got(scan.hits[0])
    else Null(EEXIST)
  }

  /** The search goes on after this, to see if there is a second method. */
  predicate IsOpen(r: Returned) {
    r.NotFound? || (r.Got? && r.hit.found.fatal)
  }

  /** A return value and a final mode stand for a scan. The mode matters only if the search goes on. */
  ghost predicate Agrees(r: Returned, mode: Mode, scan: Scan, s: Search) {
    && r == ReturnOf(scan)
    && ModeOf(s, mode) && (Anchoring(mode) <==> Anchoring(scan.mode))
    && (IsOpen(r) ==> mode == scan.mode)
  }

  /** What becomes of a method found so far when more is searched. */
  function Merge(found: Returned, more: Returned): Returned {
    if found.NotFound? then more
    else if more.NotFound? then found
    else if more.Null? then more
    else Null(EEXIST)
  }

  lemma {:induction false} MergeThen(a: Scan, b: Scan)
    requires IsOpen(ReturnOf(a)) && (a.hits != [] ==> !b.invalid)
    ensures ReturnOf(Then(a, b)) == Merge(ReturnOf(a), ReturnOf(b))
  {
    if a.hits == [] {
      assert a.hits + b.hits == b.hits;
    }
  }

  /** How a search of some blocks goes on with a search of further blocks. */
  lemma {:induction false} AgreesConcat(a: seq<Block>, b: seq<Block>, s: Search, mode: Mode, ra: Returned, ma: Mode,
                                        rb: Returned, mb: Mode)
    requires ModeOf(s, mode) && Agrees(ra, ma, ScanBlocks(a, s, mode), s)
    ensures !IsOpen(ra) || ScanBlocks(a, s, mode).over ==> Agrees(ra, ma, ScanBlocks(a + b, s, mode), s)
    ensures IsOpen(ra) && !ScanBlocks(a, s, mode).over && Agrees(rb, mb, ScanBlocks(b, s, ma), s) ==>
              Agrees(Merge(ra, rb), mb, ScanBlocks(a + b, s, mode), s)
  {
    hide ScanBlocks;
    var first := ScanBlocks(a, s, mode);
    ScanBlocksFacts(a, s, mode);
    ScanConcat(a, b, s, mode);
    ScanBlocksFacts(b, s, first.mode);
    if IsOpen(ra) && !first.over {
      MergeThen(first, ScanBlocks(b, s, first.mode));
    }
  }

  /** A search within a class that has got to methodlists, with at most one method found that minds being an override. */
  ghost predicate Among(s: Search, mode: Mode, found: Returned) {
    && ModeOf(s, mode) && (Past(mode) || !Resting(mode))
    && IsOpen(found) && (found.Got? ==> Past(mode) && !mode.Specific3?)
  }

  /** With a method found so far, the rest of a scan stands for the whole of it. */
  ghost predicate Remains(scan: Scan, found: Returned, rest: Scan) {
    ReturnOf(scan) == Merge(found, ReturnOf(rest)) && scan.mode == rest.mode && scan.over == rest.over
  }

  /** One methodlist. If this is not the end, what was found so far and the mode are passed on to the `rest`. */
  method SearchList(list: MethodList, c: ClassRef, classid: nat, s: Search, mode: Mode, found: Returned,
                    ghost b: Block, ghost rest: seq<MethodList>)
    returns (done: bool, r: Returned, mode': Mode)
    requires SortedMethods(list.methods) && b.cls == c && b.classid == classid && !b.mixin && Among(s, mode, found)
    ensures ModeOf(s, mode')
    ensures done ==>
              var now := ScanLists(b, [list] + rest, s, mode);
              && r == Merge(found, ReturnOf(now)) && (!IsOpen(r) || now.over)
              && !Anchoring(mode') && (IsOpen(r) ==> mode' == now.mode)
    ensures !done ==>
              && Among(s, mode', r)
              && forall scan :: Remains(scan, found, ScanLists(b, [list] + rest, s, mode)) ==>
                                Remains(scan, r, ScanLists(b, rest, s, mode'))
  {
    hide SortedMethods;
    assert ([list] + rest)[1..] == rest;
    mode' := mode;
    if mode.Overridden2? {
      if s.categoryid == list.categoryid {
        mode' := Overridden3;
      }
      return false, found, mode';
    }
    if mode.Specific2? {
      if s.categoryid != list.categoryid {
        return false, found, mode';
      }
      mode' := Specific3;
    }
    var first := MethodlistSearch(list, s);
    if first.None? {
      return mode'.Specific3?, found, mode';
    }
    if mode'.Overridden3? && s.classid == classid && s.categoryid == list.categoryid {
      return false, found, mode';
    }
    var hit := Hit(c, list, first.value);
    if mode'.Specific3? {
      return true, Got(hit), mode';
    }
    ScanListsFacts(b, rest, s, mode);
    if found != NotFound {
      return true, Null(EEXIST), mode';
    }
    return !hit.found.fatal, Got(hit), mode';
  }

  lemma {:induction false} NewestFirstStep(lists: seq<MethodList>, lo: nat, k: nat)
    requires lo <= k < |lists|
    ensures NewestFirst(lists[lo..k + 1]) == [lists[k]] + NewestFirst(lists[lo..k])
  {
    assert lists[lo..k + 1][..k - lo] == lists[lo..k];
  }

  /** The loop over the methodlists of one class, from the newest to that of the class. */
  method SearchLists(cls: Class, c: ClassRef, classid: nat, s: Search, inh: Inheritance, mode: Mode, ghost b: Block)
    returns (done: bool, r: Returned, mode': Mode)
    requires |cls.lists| > 0 && SortedLists(cls.lists) && b == Block(c, classid, VisibleLists(cls, inh), false)
    requires Among(s, mode, NotFound)
    ensures var scan := ScanLists(b, b.lists, s, mode);
            Agrees(r, mode', scan, s) && (done <==> !IsOpen(r) || scan.over)
  {
    var n := if inh.categories then 1 else |cls.lists|;
    ghost var lo := if inh.cls then 1 else 0;
    var i, k := 0, n;
    mode', r := mode, NotFound;
    ghost var scan, lists := ScanLists(b, b.lists, s, mode), b.lists;
    ScanListsFacts(b, b.lists, s, mode);
    while k > 0
      invariant lo <= k <= n && i == (if inh.cls then n - k else 0)
      invariant lists == NewestFirst(cls.lists[lo..k])
      invariant Among(s, mode', r) && Remains(scan, r, ScanLists(b, lists, s, mode'))
    {
      k := k - 1;
      if inh.cls {
        i := i + 1;
        if i == n {
          break;
        }
      }
      NewestFirstStep(cls.lists, lo, k);
      lists := NewestFirst(cls.lists[lo..k]);
      done, r, mode' := SearchList(cls.lists[k], c, classid, s, mode', r, b, lists);
      if done {
        return;
      }
    }
    assert lists == [];
    return false, r, mode';
  }

  // ----- mixins

  /** Being a mixin matters only for what comes after a block. */
  lemma {:induction false} MixinLists(b: Block, lists: seq<MethodList>, s: Search, mode: Mode)
    requires ModeOf(s, mode)
    ensures var r := ScanLists(b, lists, s, mode);
            ScanLists(b.(mixin := true), lists, s, mode) == r.(over := ScanLists(b.(mixin := true), lists, s, mode).over)
    decreases |lists|
  {
    if lists != [] {
      MixinLists(b, lists[1..], s, mode);
      if mode.Overridden2? {
        MixinLists(b, lists[1..], s, Overridden3);
      }
    }
  }

  lemma {:induction false} ScanSingle(b: Block, s: Search, mode: Mode)
    requires ModeOf(s, mode)
    ensures ScanBlocks([b], s, mode) == ScanBlock(b, s, mode)
  {
    var r := ScanBlock(b, s, mode);
    ScanBlockFacts(b, s, mode);
    assert r.hits + [] == r.hits;
  }

  /** A mixin is a class that is searched without its own mixins and superclass. */
  lemma {:induction false} MixinSearched(h: Hierarchy, m: ClassRef, inh: Inheritance, s: Search, mode: Mode,
                                         r: Returned, mode': Mode)
    requires ValidHierarchy(h) && m.pair < |h| && ModeOf(s, mode) && inh.protocols && inh.superclass
    requires Agrees(r, mode', ScanBlocks(Blocks(h, m, inh), s, mode), s)
    ensures var b := Block(m, h[m.pair].classid, VisibleLists(ClassOf(h, m), inh), true);
            Agrees(r, mode', ScanBlocks([b], s, mode), s)
  {
    var b := Block(m, h[m.pair].classid, VisibleLists(ClassOf(h, m), inh), false);
    assert Blocks(h, m, inh) == [b];
    ScanSingle(b, s, mode);
    ScanSingle(b.(mixin := true), s, mode);
    if !mode.Super1? {
      MixinLists(b, b.lists, s, if mode.Overridden1? then Overridden2 else if mode.Specific1? then Specific2 else mode);
    }
  }

  lemma {:induction false} AgreesResting(bs: seq<Block>, s: Search, mode: Mode, r: Returned, mode': Mode)
    requires ModeOf(s, mode) && Resting(mode) && Agrees(r, mode', ScanBlocks(bs, s, mode), s) && IsOpen(r)
    ensures Resting(mode')
  {
    ScanBlocksFacts(bs, s, mode);
  }

  /** The flags that a class leaves to the search of its mixins. */
  function ProtocolFlags(inh: Inheritance): Inheritance {
    INHERIT_ALL.(categories := inh.protocolCategories)
  }

  // the work left for a search: a mixin is searched on its own, a class up to its root class
  function Rank(c: ClassRef, inh: Inheritance): nat {
    if inh.protocols && inh.superclass then 0 else 1 + ClassRank(c)
  }

  function ClassRank(c: ClassRef): nat {
    2 * c.pair + if c.meta then 1 else 0
  }

  lemma {:induction false} MixinBlocksNext(h: Hierarchy, c: ClassRef, inh: Inheritance, k: nat)
    requires ValidHierarchy(h) && c.pair < |h| && k < |h[c.pair].mixins| && h[c.pair].mixins[k] != c.pair
    ensures var m := ClassRef(h[c.pair].mixins[k], c.meta);
            var flags := ProtocolFlags(inh).(superclass := true, superInheritance := true, protocols := true)
                         .Or(ClassOf(h, m).inheritance);
            MixinBlocks(h, c, inh, k + 1)
            == [Block(m, h[m.pair].classid, VisibleLists(ClassOf(h, m), flags), true)] + MixinBlocks(h, c, inh, k)
  {
  }

  /** The mixins of a class, last one first. */
  method ProtocolSearch(h: Hierarchy, c: ClassRef, s: Search, flags: Inheritance, mode: Mode, ghost inh: Inheritance)
    returns (r: Returned, mode': Mode)
    requires SortedHierarchy(h) && c.pair < |h| && ModeOf(s, mode) && Resting(mode) && flags == ProtocolFlags(inh)
    ensures var bs := if h[c.pair].isMixin then [] else MixinBlocks(h, c, inh, |h[c.pair].mixins|);
            Agrees(r, mode', ScanBlocks(bs, s, mode), s)
    decreases 1 + ClassRank(c), 0
  {
    r, mode' := NotFound, mode;
    if h[c.pair].isMixin {
      return;
    }
    var inheritance := flags.(superclass := true, superInheritance := true, protocols := true);
    var mixins := h[c.pair].mixins;
    ghost var all, seen, rest := MixinBlocks(h, c, inh, |mixins|), [], MixinBlocks(h, c, inh, |mixins|);
    var k := |mixins|;
    while k > 0
      invariant 0 <= k <= |mixins| && rest == MixinBlocks(h, c, inh, k)
      invariant seen + rest == all && forall b | b in seen :: b.mixin
      invariant Agrees(r, mode', ScanBlocks(seen, s, mode), s) && IsOpen(r) && Resting(mode')
    {
      k := k - 1;
      rest := MixinBlocks(h, c, inh, k);
      if mixins[k] == c.pair {
        continue;
      }
      var walk := ClassRef(mixins[k], c.meta);
      var walkInheritance := inheritance.Or(ClassOf(h, walk).inheritance);
      ghost var b := Block(walk, h[walk.pair].classid, VisibleLists(ClassOf(h, walk), walkInheritance), true);
      MixinBlocksNext(h, c, inh, k);
      r, mode' := SearchMixin(h, walk, s, walkInheritance, mode', r, mode, seen, b, rest, all);
      if !IsOpen(r) {
        return;
      }
      seen := seen + [b];
    }
    assert rest == [] && seen == all;
  }

  /** One more mixin: either it ends the search, or the search goes on with the `rest`. */
  method SearchMixin(h: Hierarchy, walk: ClassRef, s: Search, inh: Inheritance, before: Mode, found: Returned,
                     ghost mode: Mode, ghost seen: seq<Block>, ghost b: Block, ghost rest: seq<Block>, ghost all: seq<Block>)
    returns (r: Returned, mode': Mode)
    requires SortedHierarchy(h) && walk.pair < |h| && inh.protocols && inh.superclass
    requires ModeOf(s, mode) && Resting(mode) && forall x | x in seen :: x.mixin
    requires b == Block(walk, h[walk.pair].classid, VisibleLists(ClassOf(h, walk), inh), true)
    requires all == seen + ([b] + rest)
    requires Agrees(found, before, ScanBlocks(seen, s, mode), s) && IsOpen(found) && Resting(before)
    ensures IsOpen(r) ==> Agrees(r, mode', ScanBlocks(seen + [b], s, mode), s) && Resting(mode')
    ensures all == (seen + [b]) + rest && (!IsOpen(r) ==> Agrees(r, mode', ScanBlocks(all, s, mode), s))
    decreases 0, 3
  {
    assert all == (seen + [b]) + rest;
    r, mode' := SearchMethodInternal(h, walk, s, inh, before);
    MixinSearched(h, walk, inh, s, before, r, mode');
    ScanBlocksFacts(seen, s, mode);
    AgreesConcat(seen, [b], s, mode, found, before, r, mode');
    r := Merge(found, r);
    if IsOpen(r) {
      AgreesResting(seen + [b], s, mode, r, mode');
    } else {
      AgreesConcat(seen + [b], rest, s, mode, r, mode', r, mode');
    }
  }

  /** One class by itself: is it the class that a relative search starts from, and what is in its methodlists? */
  method SearchOwn(h: Hierarchy, c: ClassRef, s: Search, inh: Inheritance, mode: Mode, ghost b: Block)
    returns (done: bool, r: Returned, mode': Mode)
    requires SortedHierarchy(h) && c.pair < |h| && ModeOf(s, mode) && Resting(mode)
    requires b == Block(c, h[c.pair].classid, VisibleLists(ClassOf(h, c), inh), false)
    ensures Agrees(r, mode', ScanBlock(b, s, mode), s) && (done <==> !IsOpen(r) || ScanBlock(b, s, mode).over)
  {
    var classid := h[c.pair].classid;
    match mode {
    case Super1 =>
      return false, NotFound, if s.classid == classid then Super2 else Super1;
    case Overridden1 | Specific1 =>
      if s.classid != classid {
        return false, NotFound, mode;
      }
      mode' := if mode.Overridden1? then Overridden2 else Specific2;
    case _ =>
      mode' := mode;
    }
    ghost var found := mode';
    done, r, mode' := SearchLists(ClassOf(h, c), c, classid, s, inh, mode', b);
    ScanListsFacts(b, b.lists, s, found);
    if !done && !Resting(mode') {
      done, r := true, Null(EINVAL);
    }
  }

  ghost function SuperBlocks(h: Hierarchy, c: ClassRef, inh: Inheritance): seq<Block>
    requires ValidHierarchy(h) && c.pair < |h|
  {
    var super := SuperclassOf(h, c);
    if super.None? || inh.superclass then [] else Blocks(h, super.value, SuperInheritance(h, c, inh, super.value))
  }

  lemma {:induction false} MixinBlocksFacts(h: Hierarchy, c: ClassRef, inh: Inheritance, k: nat)
    requires ValidHierarchy(h) && c.pair < |h| && k <= |h[c.pair].mixins|
    ensures forall b | b in MixinBlocks(h, c, inh, k) :: b.mixin
  {
    if k > 0 {
      MixinBlocksFacts(h, c, inh, k - 1);
    }
  }

  /** The methodlists of a class, then its mixins. */
  method SearchOwnAndMixins(h: Hierarchy, c: ClassRef, s: Search, inh: Inheritance, mode: Mode)
    returns (done: bool, r: Returned, mode': Mode)
    requires SortedHierarchy(h) && c.pair < |h| && ModeOf(s, mode) && Resting(mode)
    ensures var scan := ScanBlocks(OwnBlocks(h, c, inh), s, mode);
            Agrees(r, mode', scan, s) && (done <==> !IsOpen(r) || scan.over) && (!done ==> Resting(mode'))
    decreases Rank(c, inh), 1
  {
    ghost var own := Block(c, h[c.pair].classid, VisibleLists(ClassOf(h, c), inh), false);
    ghost var mixins := OwnBlocks(h, c, inh)[1..];
    assert OwnBlocks(h, c, inh) == [own] + mixins;
    ScanSingle(own, s, mode);
    ScanConcat([own], mixins, s, mode);

    done, r, mode' := SearchOwn(h, c, s, inh, mode, own);
    if done {
      AgreesConcat([own], mixins, s, mode, r, mode', r, mode');
      return;
    }
    var found, before := r, mode';
    AgreesResting([own], s, mode, found, before);
    if inh.protocols {
      r := NotFound;
    } else {
      r, mode' := ProtocolSearch(h, c, s, ProtocolFlags(inh), mode', inh);
      MixinBlocksFacts(h, c, inh, |h[c.pair].mixins|);
    }
    ScanBlocksFacts(mixins, s, before);
    AgreesConcat([own], mixins, s, mode, found, before, r, mode');
    r := Merge(found, r);
    done := !IsOpen(r);
    if !done {
      AgreesResting([own] + mixins, s, mode, r, mode');
    }
  }

  method SearchMethodInternal(h: Hierarchy, c: ClassRef, s: Search, inh: Inheritance, mode: Mode)
    returns (r: Returned, mode': Mode)
    requires SortedHierarchy(h) && c.pair < |h| && ModeOf(s, mode) && Resting(mode)
    ensures Agrees(r, mode', ScanBlocks(Blocks(h, c, inh), s, mode), s)
    decreases Rank(c, inh), 2
  {
    ghost var own, supers := OwnBlocks(h, c, inh), SuperBlocks(h, c, inh);
    assert Blocks(h, c, inh) == own + supers;

    var done;
    done, r, mode' := SearchOwnAndMixins(h, c, s, inh, mode);
    if done {
      AgreesConcat(own, supers, s, mode, r, mode', r, mode');
      return;
    }
    var super := SuperclassOf(h, c);
    if super.None? || inh.superclass {
      assert supers == [] && own + [] == own;
      return;
    }
    var inheritance := inh;
    if inh.protocolMeta && c.meta && !super.value.meta {
      if !inh.superInheritance {
        inheritance := ClassOf(h, super.value).inheritance.(superInheritance := true);
      }
      inheritance := inheritance.(protocols := true, protocolMeta := true);
    }
    var found, before := r, mode';
    r, mode' := SearchMethodSuper(h, super.value, s, inheritance, mode');
    AgreesConcat(own, supers, s, mode, found, before, r, mode');
    r := Merge(found, r);
  }

  /** Usually the superclass is searched with its own flags. */
  method SearchMethodSuper(h: Hierarchy, c: ClassRef, s: Search, inh: Inheritance, mode: Mode)
    returns (r: Returned, mode': Mode)
    requires SortedHierarchy(h) && c.pair < |h| && ModeOf(s, mode) && Resting(mode)
    ensures inh.superInheritance ==> Agrees(r, mode', ScanBlocks(Blocks(h, c, inh), s, mode), s)
    ensures !inh.superInheritance ==> Agrees(r, mode', ScanBlocks(Blocks(h, c, ClassOf(h, c).inheritance), s, mode), s)
    decreases 1 + ClassRank(c), 3
  {
    r, mode' := SearchMethodInternal(h, c, s, if inh.superInheritance then inh else ClassOf(h, c).inheritance, mode);
  }

  /** A relative search must have come by the place that it starts from. */
  method SearchMethod(h: Hierarchy, c: ClassRef, s: Search, inh: Inheritance) returns (r: Outcome)
    requires SortedHierarchy(h) && c.pair < |h|
    ensures r == SearchResult(h, c, s, inh)
  {
    var mode := InitialMode(s);
    ScanBlocksFacts(Blocks(h, c, inh), s, mode);
    var found;
    found, mode := SearchMethodInternal(h, c, s, inh, mode);
    if mode.Super1? || mode.Overridden1? {
      return Failed(EINVAL);
    }
    match found
    case NotFound => return Failed(ENOENT);
    case Null(error) => return Failed(error);
    case Got(hit) => return Outcome.Found(hit);
  }
}
