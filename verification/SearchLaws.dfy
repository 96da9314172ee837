/**
 What a search finds, read off the fields of the hierarchy, one class at a time: the lists of the class from last to
 first, its mixins from last to first, and then what a search of its superclass finds.
 */
module SearchLaws {
  import opened Prelude
  import opened SearchSpec
  import opened SearchTheorems

  // ----- methodlists

  function Side(h: Hierarchy, p: nat, meta: bool): Class
    requires p < |h|
  {
    if meta then h[p].meta else h[p].infra
  }

  /** A method of the list has the id, and the first one that has it. */
  ghost predicate Knows(list: MethodList, methodid: nat) {
    exists k :: 0 <= k < |list.methods| && list.methods[k].methodid == methodid
  }

  ghost predicate IsFirstOf(list: MethodList, methodid: nat, m: Method) {
    exists k :: 0 <= k < |list.methods| && list.methods[k] == m && m.methodid == methodid
                && forall j | 0 <= j < k :: list.methods[j].methodid != methodid
  }

  lemma {:induction false} MatchIsKnown(methods: seq<Method>, methodid: nat)
    ensures FirstMatch(methods, SearchDefault(methodid)).Some? <==>
            exists k :: 0 <= k < |methods| && methods[k].methodid == methodid
  {
    if methods != [] {
      MatchIsKnown(methods[1..], methodid);
      assert forall k | 0 < k < |methods| :: methods[k] == methods[1..][k - 1];
    }
  }

  lemma {:induction false} MatchIsFirst(methods: seq<Method>, methodid: nat) returns (k: nat)
    requires FirstMatch(methods, SearchDefault(methodid)).Some?
    ensures k < |methods| && methods[k] == FirstMatch(methods, SearchDefault(methodid)).value
    ensures forall j | 0 <= j < k :: methods[j].methodid != methodid
  {
    if methods[0].methodid == methodid {
      k := 0;
    } else {
      k := MatchIsFirst(methods[1..], methodid);
      k := k + 1;
      assert forall j | 0 < j < k :: methods[j] == methods[1..][j - 1];
    }
  }

  lemma {:induction false} FirstMatchIsFirst(methods: seq<Method>, categoryid: nat, methodid: nat)
    ensures var list, first := MethodList(categoryid, methods), FirstMatch(methods, SearchDefault(methodid));
            && (first.Some? <==> Knows(list, methodid)) && (first.Some? ==> IsFirstOf(list, methodid, first.value))
  {
    var list, first := MethodList(categoryid, methods), FirstMatch(methods, SearchDefault(methodid));
    MatchIsKnown(methods, methodid);
    if first.Some? {
      var k := MatchIsFirst(methods, methodid);
      assert list.methods[k] == first.value;
    }
  }

  lemma {:induction false} OnlyOneIsFirst(list: MethodList, methodid: nat, m: Method)
    requires IsFirstOf(list, methodid, m)
    ensures FirstMatch(list.methods, SearchDefault(methodid)) == Some(m)
  {
    FirstMatchIsFirst(list.methods, list.categoryid, methodid);
  }

  // ----- the lists of a class

  /** The flags let the search see the k-th methodlist: 0 is the class itself, the others are its categories. */
  predicate Shows(cls: Class, noClass: bool, noCategories: bool, k: int) {
    0 <= k < |cls.lists| && (noClass ==> k > 0) && (noCategories ==> k == 0)
  }

  /** The newest methodlist that the flags show and that knows the method. */
  ghost predicate Newest(cls: Class, noClass: bool, noCategories: bool, methodid: nat, k: nat) {
    && Shows(cls, noClass, noCategories, k) && Knows(cls.lists[k], methodid)
    && forall j | Shows(cls, noClass, noCategories, j) && k < j :: !Knows(cls.lists[j], methodid)
  }

  ghost predicate NoneKnows(cls: Class, noClass: bool, noCategories: bool, methodid: nat) {
    forall k | Shows(cls, noClass, noCategories, k) :: !Knows(cls.lists[k], methodid)
  }

  /** Some older list knows it, too. */
  ghost predicate OlderKnows(cls: Class, noClass: bool, noCategories: bool, methodid: nat, k: int) {
    exists j :: Shows(cls, noClass, noCategories, j) && j < k && Knows(cls.lists[j], methodid)
  }

  lemma {:induction false} NewestFirstAt(lists: seq<MethodList>)
    ensures |NewestFirst(lists)| == |lists|
    ensures forall i | 0 <= i < |lists| :: NewestFirst(lists)[i] == lists[|lists| - 1 - i]
  {
    if lists != [] {
      NewestFirstAt(lists[..|lists| - 1]);
    }
  }

  lemma {:induction false} ListingsOfAt(b: Block, lists: seq<MethodList>)
    ensures |ListingsOf(b, lists)| == |lists|
    ensures forall i | 0 <= i < |lists| :: ListingsOf(b, lists)[i] == Listing(b.cls, b.classid, lists[i])
    decreases |lists|
  {
    if lists != [] {
      ListingsOfAt(b, lists[1..]);
    }
  }

  lemma {:induction false} VisibleListsAt(cls: Class, inh: Inheritance)
    requires |cls.lists| > 0
    ensures var lists, lo, n := VisibleLists(cls, inh), if inh.cls then 1 else 0, if inh.categories then 1 else |cls.lists|;
            |lists| == n - lo && forall i | 0 <= i < |lists| :: lists[i] == cls.lists[n - 1 - i]
  {
    NewestFirstAt(cls.lists[if inh.cls then 1 else 0..if inh.categories then 1 else |cls.lists|]);
  }

  /** The listings of one class, by positions of its methodlists. */
  lemma {:induction false} VisibleAt(b: Block, cls: Class, inh: Inheritance)
    requires |cls.lists| > 0 && b.lists == VisibleLists(cls, inh)
    ensures var ls, lo, n := ListingsOf(b, b.lists), if inh.cls then 1 else 0, if inh.categories then 1 else |cls.lists|;
            && |ls| == n - lo
            && forall i | 0 <= i < |ls| :: ls[i] == Listing(b.cls, b.classid, cls.lists[n - 1 - i])
  {
    VisibleListsAt(cls, inh);
    ListingsOfAt(b, b.lists);
  }

  lemma {:induction false} HasIsKnows(l: Listing, methodid: nat)
    ensures Has(l, SearchDefault(methodid)) <==> Knows(l.list, methodid)
  {
    FirstMatchIsFirst(l.list.methods, l.list.categoryid, methodid);
  }

  /** The listings from a list on that come after the first `i`. */
  lemma {:induction false} LaterListings(b: Block, cls: Class, inh: Inheritance, methodid: nat, i: nat)
    requires |cls.lists| > 0 && b.lists == VisibleLists(cls, inh)
    ensures var n := if inh.categories then 1 else |cls.lists|;
            var ls := ListingsOf(b, b.lists);
            i <= |ls| ==>
              (Implementations(ls[i..], SearchDefault(methodid)) != [] <==> OlderKnows(cls, inh.cls, inh.categories, methodid, n - i))
  {
    hide FirstMatch, Implementations, Knows, VisibleLists;
    var s, ls := SearchDefault(methodid), ListingsOf(b, b.lists);
    var n := if inh.categories then 1 else |cls.lists|;
    VisibleAt(b, cls, inh);
    if i <= |ls| {
      var rest := ls[i..];
      NoImplementation(rest, s);
      forall l: Listing ensures Has(l, s) <==> Knows(l.list, methodid) {
        HasIsKnows(l, methodid);
      }
      if OlderKnows(cls, inh.cls, inh.categories, methodid, n - i) {
        var j :| Shows(cls, inh.cls, inh.categories, j) && j < n - i && Knows(cls.lists[j], methodid);
        assert rest[n - 1 - j - i] == Listing(b.cls, b.classid, cls.lists[j]);
      } else {
        forall x | 0 <= x < |rest| ensures !Has(rest[x], s) {
          assert rest[x] == Listing(b.cls, b.classid, cls.lists[n - 1 - i - x]);
          assert Shows(cls, inh.cls, inh.categories, n - 1 - i - x);
        }
      }
    }
  }

  /** The implementations in one class: none if no list knows the method, ... */
  lemma {:induction false} ClassImplementations(b: Block, cls: Class, inh: Inheritance, methodid: nat)
    requires |cls.lists| > 0 && b.lists == VisibleLists(cls, inh)
    ensures Implementations(ListingsOf(b, b.lists), SearchDefault(methodid)) == [] <==>
            NoneKnows(cls, inh.cls, inh.categories, methodid)
  {
    hide Knows;
    var n := if inh.categories then 1 else |cls.lists|;
    var ls := ListingsOf(b, b.lists);
    LaterListings(b, cls, inh, methodid, 0);
    assert ls[0..] == ls;
    assert forall k | Shows(cls, inh.cls, inh.categories, k) :: k < n;
  }

  /** ... else that of the newest list first. */
  lemma {:induction false} NewestImplementation(b: Block, cls: Class, inh: Inheritance, methodid: nat, k: nat, m: Method)
    requires |cls.lists| > 0 && b.lists == VisibleLists(cls, inh)
    requires Newest(cls, inh.cls, inh.categories, methodid, k) && IsFirstOf(cls.lists[k], methodid, m)
    ensures var impls := Implementations(ListingsOf(b, b.lists), SearchDefault(methodid));
            && impls != [] && impls[0] == Hit(b.cls, cls.lists[k], m)
            && (impls[1..] != [] <==> OlderKnows(cls, inh.cls, inh.categories, methodid, k))
  {
    hide Knows, VisibleLists, IsFirstOf, OlderKnows;
    var s, ls := SearchDefault(methodid), ListingsOf(b, b.lists);
    var n := if inh.categories then 1 else |cls.lists|;
    var i := n - 1 - k;
    VisibleAt(b, cls, inh);
    OnlyOneIsFirst(cls.lists[k], methodid, m);
    forall j | 0 <= j < i ensures !Has(ls[j], s) {
      HasIsKnows(ls[j], methodid);
      assert Shows(cls, inh.cls, inh.categories, n - 1 - j);
    }
    FirstImplementation(ls, s, i);
    LaterListings(b, cls, inh, methodid, i + 1);
  }

  lemma {:induction false} Joined(a: seq<Hit>, b: seq<Hit>)
    ensures a + b == [] <==> a == [] && b == []
    ensures if a == [] then a + b == b else (a + b)[0] == a[0] && (a + b)[1..] == a[1..] + b
    ensures a != [] ==> (a[1..] + b == [] <==> a[1..] == [] && b == [])
  {
  }

  // ----- the mixins of a class

  /** The mixins of mixins are not looked at, and those of a class only if the flags say so. */
  predicate LooksAtMixins(h: Hierarchy, p: nat, inh: Inheritance)
    requires p < |h|
  {
    !inh.protocols && !h[p].isMixin
  }

  /** The flags with which a mixin is searched leave out its categories, if those of the search or its own say so. */
  predicate NoMixinCategories(cls: Class, inh: Inheritance) {
    inh.protocolCategories || cls.inheritance.categories
  }

  ghost predicate MixinKnows(h: Hierarchy, p: nat, meta: bool, inh: Inheritance, methodid: nat, j: nat)
    requires ValidHierarchy(h) && p < |h|
  {
    && j < |h[p].mixins| && h[p].mixins[j] != p
    && var cls := Side(h, h[p].mixins[j], meta);
       !NoneKnows(cls, cls.inheritance.cls, NoMixinCategories(cls, inh), methodid)
  }

  ghost predicate EarlierMixinKnows(h: Hierarchy, p: nat, meta: bool, inh: Inheritance, methodid: nat, n: nat)
    requires ValidHierarchy(h) && p < |h|
  {
    exists j :: 0 <= j < n && MixinKnows(h, p, meta, inh, methodid, j)
  }

  lemma {:induction false} EarlierNext(h: Hierarchy, p: nat, meta: bool, inh: Inheritance, methodid: nat, n: nat)
    requires ValidHierarchy(h) && p < |h|
    ensures EarlierMixinKnows(h, p, meta, inh, methodid, n + 1)
            == (MixinKnows(h, p, meta, inh, methodid, n) || EarlierMixinKnows(h, p, meta, inh, methodid, n))
  {
    hide MixinKnows;
  }

  lemma {:induction false} MixinImplementations(h: Hierarchy, p: nat, meta: bool, inh: Inheritance, methodid: nat, n: nat)
    requires ValidHierarchy(h) && p < |h| && n <= |h[p].mixins|
    ensures (Implementations(Listings(MixinBlocks(h, ClassRef(p, meta), inh, n)), SearchDefault(methodid)) != [])
            == EarlierMixinKnows(h, p, meta, inh, methodid, n)
    decreases n
  {
    hide MixinKnows, MixinBlocks, MixinBlock, Implementations, Listings, EarlierMixinKnows;
    if n == 0 {
      NoMixins(h, p, meta, inh, methodid);
    } else {
      MixinImplementations(h, p, meta, inh, methodid, n - 1);
      MixinNext(h, p, meta, inh, methodid, n - 1);
      EarlierNext(h, p, meta, inh, methodid, n - 1);
      var s, b := SearchDefault(methodid), MixinBlock(h, p, meta, inh, n - 1);
      Joined(if h[p].mixins[n - 1] == p then [] else Implementations(ListingsOf(b, b.lists), s),
             Implementations(Listings(MixinBlocks(h, ClassRef(p, meta), inh, n - 1)), s));
    }
  }

  lemma {:induction false} NoMixins(h: Hierarchy, p: nat, meta: bool, inh: Inheritance, methodid: nat)
    requires ValidHierarchy(h) && p < |h|
    ensures Implementations(Listings(MixinBlocks(h, ClassRef(p, meta), inh, 0)), SearchDefault(methodid)) == []
    ensures !EarlierMixinKnows(h, p, meta, inh, methodid, 0)
  {
  }

  ghost function MixinBlock(h: Hierarchy, p: nat, meta: bool, inh: Inheritance, j: nat): Block
    requires ValidHierarchy(h) && p < |h| && j < |h[p].mixins|
  {
    var q := h[p].mixins[j];
    var cls := Side(h, q, meta);
    Block(ClassRef(q, meta), h[q].classid, VisibleLists(cls, MixinInheritance(inh, cls.inheritance)), true)
  }

  /** One more mixin comes before those that were there. */
  lemma {:induction false} MixinNext(h: Hierarchy, p: nat, meta: bool, inh: Inheritance, methodid: nat, j: nat)
    requires ValidHierarchy(h) && p < |h| && j < |h[p].mixins|
    ensures var s, c, b := SearchDefault(methodid), ClassRef(p, meta), MixinBlock(h, p, meta, inh, j);
            var own := if h[p].mixins[j] == p then [] else Implementations(ListingsOf(b, b.lists), s);
            && Implementations(Listings(MixinBlocks(h, c, inh, j + 1)), s) == own + Implementations(Listings(MixinBlocks(h, c, inh, j)), s)
            && (own != []) == MixinKnows(h, p, meta, inh, methodid, j)
  {
    var s, c, b := SearchDefault(methodid), ClassRef(p, meta), MixinBlock(h, p, meta, inh, j);
    var cls, rest := Side(h, h[p].mixins[j], meta), MixinBlocks(h, c, inh, j);
    ClassImplementations(b, cls, MixinInheritance(inh, cls.inheritance), methodid);
    if h[p].mixins[j] != p {
      ImplementationsConcat(ListingsOf(b, b.lists), Listings(rest), s);
      assert ([b] + rest)[1..] == rest;
    } else {
      var impls := Implementations(Listings(rest), s);
      assert [] + impls == impls;
    }
  }

  /** These implementations begin with that of one methodlist of a mixin, and there are more if and only if `more` says so. */
  ghost predicate StartsWith(impls: seq<Hit>, first: Hit, more: bool) {
    impls != [] && impls[0] == first && (impls[1..] != [] <==> more)
  }

  lemma {:induction false} StartsJoined(a: seq<Hit>, b: seq<Hit>, first: Hit, more: bool)
    ensures StartsWith(a, first, more) ==> StartsWith(a + b, first, more || b != [])
    ensures a == [] && StartsWith(b, first, more) ==> StartsWith(a + b, first, more)
  {
    Joined(a, b);
  }

  /** The k-th methodlist is the newest one of the mixin that knows the method, and this is its method. */
  ghost predicate IsNewestOfMixin(h: Hierarchy, p: nat, meta: bool, inh: Inheritance, methodid: nat, j: nat, k: nat, m: Method)
    requires ValidHierarchy(h) && p < |h|
  {
    && j < |h[p].mixins| && h[p].mixins[j] != p
    && var cls := Side(h, h[p].mixins[j], meta);
       && Newest(cls, cls.inheritance.cls, NoMixinCategories(cls, inh), methodid, k)
       && IsFirstOf(cls.lists[k], methodid, m)
  }

  lemma {:induction false} MixinStarts(h: Hierarchy, p: nat, meta: bool, inh: Inheritance, methodid: nat, j: nat, k: nat, m: Method)
    requires ValidHierarchy(h) && p < |h| && j < |h[p].mixins| && IsNewestOfMixin(h, p, meta, inh, methodid, j, k, m)
    ensures var b, cls := MixinBlock(h, p, meta, inh, j), Side(h, h[p].mixins[j], meta);
            StartsWith(Implementations(ListingsOf(b, b.lists), SearchDefault(methodid)),
                       Hit(ClassRef(h[p].mixins[j], meta), cls.lists[k], m),
                       OlderKnows(cls, cls.inheritance.cls, NoMixinCategories(cls, inh), methodid, k))
  {
    hide Implementations, VisibleLists, Knows, OlderKnows, IsFirstOf;
    var b, cls := MixinBlock(h, p, meta, inh, j), Side(h, h[p].mixins[j], meta);
    NewestImplementation(b, cls, MixinInheritance(inh, cls.inheritance), methodid, k, m);
  }

  ghost function MixinHit(h: Hierarchy, p: nat, meta: bool, j: nat, k: nat, m: Method): Hit
    requires ValidHierarchy(h) && p < |h| && j < |h[p].mixins| && k < |Side(h, h[p].mixins[j], meta).lists|
  {
    Hit(ClassRef(h[p].mixins[j], meta), Side(h, h[p].mixins[j], meta).lists[k], m)
  }

  /** Something else in the mixin or in an earlier one knows the method, too. */
  ghost predicate MixinOrEarlierKnows(h: Hierarchy, p: nat, meta: bool, inh: Inheritance, methodid: nat, j: nat, k: nat)
    requires ValidHierarchy(h) && p < |h| && j < |h[p].mixins|
  {
    var cls := Side(h, h[p].mixins[j], meta);
    || OlderKnows(cls, cls.inheritance.cls, NoMixinCategories(cls, inh), methodid, k)
    || EarlierMixinKnows(h, p, meta, inh, methodid, j)
  }

  /** The last mixin that knows the method comes first, with its newest list. */
  lemma {:induction false} LastMixin(h: Hierarchy, p: nat, meta: bool, inh: Inheritance, methodid: nat, n: nat, j: nat, k: nat, m: Method)
    requires ValidHierarchy(h) && p < |h| && j < n <= |h[p].mixins| && IsNewestOfMixin(h, p, meta, inh, methodid, j, k, m)
    requires forall i | j < i < n :: !MixinKnows(h, p, meta, inh, methodid, i)
    ensures StartsWith(Implementations(Listings(MixinBlocks(h, ClassRef(p, meta), inh, n)), SearchDefault(methodid)),
                       MixinHit(h, p, meta, j, k, m), MixinOrEarlierKnows(h, p, meta, inh, methodid, j, k))
    decreases n
  {
    hide MixinBlocks, Implementations, Listings, VisibleLists, Knows, EarlierMixinKnows, OlderKnows, IsFirstOf, StartsWith, MixinKnows;
    var s := SearchDefault(methodid);
    var before := Implementations(Listings(MixinBlocks(h, ClassRef(p, meta), inh, n - 1)), s);
    var cls := Side(h, h[p].mixins[j], meta);
    MixinNext(h, p, meta, inh, methodid, n - 1);
    if j == n - 1 {
      var b := MixinBlock(h, p, meta, inh, j);
      MixinStarts(h, p, meta, inh, methodid, j, k, m);
      MixinImplementations(h, p, meta, inh, methodid, j);
      StartsJoined(Implementations(ListingsOf(b, b.lists), s), before, MixinHit(h, p, meta, j, k, m),
                   OlderKnows(cls, cls.inheritance.cls, NoMixinCategories(cls, inh), methodid, k));
    } else {
      LastMixin(h, p, meta, inh, methodid, n - 1, j, k, m);
      StartsJoined([], before, MixinHit(h, p, meta, j, k, m), MixinOrEarlierKnows(h, p, meta, inh, methodid, j, k));
    }
  }

  // ----- the superclass of a class

  /**
   What is found if neither the class nor a mixin knows the method. A metaclass has the metaclass of the superclass
   as its superclass, and a root metaclass has its own infraclass.
   */
  ghost function SuperAnswer(h: Hierarchy, p: nat, meta: bool, inh: Inheritance, methodid: nat): Outcome
    requires ValidHierarchy(h) && p < |h|
  {
    var s := SearchDefault(methodid);
    if inh.superclass then Failed(ENOENT)
    else if h[p].superclass.Some? then
      var q := h[p].superclass.value;
      SearchResult(h, ClassRef(q, meta), s, if inh.superInheritance then inh else Side(h, q, meta).inheritance)
    else if !meta then Failed(ENOENT)
    else
      var flags := if inh.superInheritance then inh else h[p].infra.inheritance;
      SearchResult(h, ClassRef(p, false), s,
                   if inh.protocolMeta then flags.(protocols := true, protocolMeta := true, superInheritance := true) else flags)
  }

  ghost function SuperImplementations(h: Hierarchy, c: ClassRef, inh: Inheritance, methodid: nat): seq<Hit>
    requires ValidHierarchy(h) && c.pair < |h|
  {
    var super := SuperclassOf(h, c);
    if super.None? || inh.superclass then []
    else Implementations(Listings(Blocks(h, super.value, SuperInheritance(h, c, inh, super.value))), SearchDefault(methodid))
  }

  lemma {:induction false} SuperAnswers(h: Hierarchy, p: nat, meta: bool, inh: Inheritance, methodid: nat)
    requires ValidHierarchy(h) && p < |h|
    ensures Verdict(SuperImplementations(h, ClassRef(p, meta), inh, methodid)) == SuperAnswer(h, p, meta, inh, methodid)
  {
    var c := ClassRef(p, meta);
    var super := SuperclassOf(h, c);
    if super.Some? && !inh.superclass {
      DefaultSearchFindsFirst(h, super.value, SearchDefault(methodid), SuperInheritance(h, c, inh, super.value));
    }
  }

  // ----- laws

  /** The mixins that are looked at and know the method. */
  ghost predicate SomeMixinKnows(h: Hierarchy, p: nat, meta: bool, inh: Inheritance, methodid: nat)
    requires ValidHierarchy(h) && p < |h|
  {
    LooksAtMixins(h, p, inh) && EarlierMixinKnows(h, p, meta, inh, methodid, |h[p].mixins|)
  }

  ghost predicate SuperKnows(h: Hierarchy, p: nat, meta: bool, inh: Inheritance, methodid: nat)
    requires ValidHierarchy(h) && p < |h|
  {
    SuperAnswer(h, p, meta, inh, methodid) != Failed(ENOENT)
  }

  ghost function MixinsOf(h: Hierarchy, p: nat, meta: bool, inh: Inheritance, methodid: nat): seq<Hit>
    requires ValidHierarchy(h) && p < |h|
  {
    if !LooksAtMixins(h, p, inh) then []
    else Implementations(Listings(MixinBlocks(h, ClassRef(p, meta), inh, |h[p].mixins|)), SearchDefault(methodid))
  }

  /** What a default search sees is what the class, the mixins and the superclass have to offer, in this order. */
  lemma {:induction false} SplitImplementations(h: Hierarchy, p: nat, meta: bool, inh: Inheritance, methodid: nat)
    requires ValidHierarchy(h) && p < |h|
    ensures var s, c := SearchDefault(methodid), ClassRef(p, meta);
            var b := Block(c, h[p].classid, VisibleLists(Side(h, p, meta), inh), false);
            && Blocks(h, c, inh) != []
            && Listings(Blocks(h, c, inh)) == ListingsOf(b, b.lists) + Listings(Blocks(h, c, inh)[1..])
            && Implementations(Listings(Blocks(h, c, inh)[1..]), s) ==
                 MixinsOf(h, p, meta, inh, methodid) + SuperImplementations(h, c, inh, methodid)
  {
    var c := ClassRef(p, meta);
    var b, bs := Block(c, h[p].classid, VisibleLists(Side(h, p, meta), inh), false), Blocks(h, c, inh);
    hide *;
    BlocksSplit(h, p, meta, inh);
    BlockAndRest(b, bs[1..]);
    MixinsAndSupers(h, p, meta, inh, methodid);
    assert bs == [b] + bs[1..];
  }

  /** The blocks of the mixins that are looked at. */
  ghost function MixinPart(h: Hierarchy, p: nat, meta: bool, inh: Inheritance): seq<Block>
    requires ValidHierarchy(h) && p < |h|
  {
    if LooksAtMixins(h, p, inh) then MixinBlocks(h, ClassRef(p, meta), inh, |h[p].mixins|) else []
  }

  ghost function SuperPart(h: Hierarchy, c: ClassRef, inh: Inheritance): seq<Block>
    requires ValidHierarchy(h) && c.pair < |h|
  {
    var super := SuperclassOf(h, c);
    if super.None? || inh.superclass then [] else Blocks(h, super.value, SuperInheritance(h, c, inh, super.value))
  }

  lemma {:induction false} BlocksSplit(h: Hierarchy, p: nat, meta: bool, inh: Inheritance)
    requires ValidHierarchy(h) && p < |h|
    ensures var c := ClassRef(p, meta);
            var b, bs := Block(c, h[p].classid, VisibleLists(Side(h, p, meta), inh), false), Blocks(h, c, inh);
            bs != [] && bs[0] == b && bs[1..] == MixinPart(h, p, meta, inh) + SuperPart(h, c, inh)
  {
    hide VisibleLists, MixinBlocks, SuperInheritance;
    var c := ClassRef(p, meta);
    var b := Block(c, h[p].classid, VisibleLists(Side(h, p, meta), inh), false);
    assert Blocks(h, c, inh) == ([b] + MixinPart(h, p, meta, inh)) + SuperPart(h, c, inh);
  }

  lemma {:induction false} BlockAndRest(b: Block, rest: seq<Block>)
    ensures Listings([b] + rest) == ListingsOf(b, b.lists) + Listings(rest)
  {
    assert ([b] + rest)[1..] == rest;
  }

  lemma {:induction false} MixinsAndSupers(h: Hierarchy, p: nat, meta: bool, inh: Inheritance, methodid: nat)
    requires ValidHierarchy(h) && p < |h|
    ensures Implementations(Listings(MixinPart(h, p, meta, inh) + SuperPart(h, ClassRef(p, meta), inh)), SearchDefault(methodid)) ==
              MixinsOf(h, p, meta, inh, methodid) + SuperImplementations(h, ClassRef(p, meta), inh, methodid)
  {
    hide Implementations, Listings, Blocks, MixinBlocks, SuperInheritance;
    var s := SearchDefault(methodid);
    ListingsConcat(MixinPart(h, p, meta, inh), SuperPart(h, ClassRef(p, meta), inh));
    ImplementationsConcat(Listings(MixinPart(h, p, meta, inh)), Listings(SuperPart(h, ClassRef(p, meta), inh)), s);
    NoListings(s);
  }

  lemma {:induction false} NoListings(s: Search)
    ensures Implementations(Listings([]), s) == []
  {
  }

  /** The newest list of the class wins, unless its method must not be an override and something else knows it, too. */
  lemma {:induction false} NewestListWins(h: Hierarchy, p: nat, meta: bool, inh: Inheritance, methodid: nat, k: nat, m: Method)
    requires ValidHierarchy(h) && p < |h| && Newest(Side(h, p, meta), inh.cls, inh.categories, methodid, k)
    requires IsFirstOf(Side(h, p, meta).lists[k], methodid, m)
    ensures SearchResult(h, ClassRef(p, meta), SearchDefault(methodid), inh) ==
              if m.fatal && (|| OlderKnows(Side(h, p, meta), inh.cls, inh.categories, methodid, k)
                             || SomeMixinKnows(h, p, meta, inh, methodid) || SuperKnows(h, p, meta, inh, methodid))
              then Failed(EEXIST)
              else Found(Hit(ClassRef(p, meta), Side(h, p, meta).lists[k], m))
  {
    hide Listings, Implementations, VisibleLists, Knows, IsFirstOf, OlderKnows, MixinBlocks, Blocks, SearchResult;
    hide SuperImplementations, EarlierMixinKnows, SuperAnswer;
    var s, c, cls := SearchDefault(methodid), ClassRef(p, meta), Side(h, p, meta);
    var b := Block(c, h[p].classid, VisibleLists(cls, inh), false);
    var own := Implementations(ListingsOf(b, b.lists), s);
    var mixins, supers := MixinsOf(h, p, meta, inh, methodid), SuperImplementations(h, c, inh, methodid);
    DefaultSearchFindsFirst(h, c, s, inh);
    SplitImplementations(h, p, meta, inh, methodid);
    ImplementationsConcat(ListingsOf(b, b.lists), Listings(Blocks(h, c, inh)[1..]), s);
    NewestImplementation(b, cls, inh, methodid, k, m);
    MixinImplementations(h, p, meta, inh, methodid, |h[p].mixins|);
    SuperAnswers(h, p, meta, inh, methodid);
    Joined(own, mixins + supers);
    Joined(mixins, supers);
  }

  /** If no list of the class knows the method, the last mixin that does wins, in the same way. */
  lemma {:induction false} LastMixinWins(h: Hierarchy, p: nat, meta: bool, inh: Inheritance, methodid: nat, j: nat, k: nat, m: Method)
    requires ValidHierarchy(h) && p < |h| && NoneKnows(Side(h, p, meta), inh.cls, inh.categories, methodid)
    requires LooksAtMixins(h, p, inh) && IsNewestOfMixin(h, p, meta, inh, methodid, j, k, m)
    requires forall i | j < i < |h[p].mixins| :: !MixinKnows(h, p, meta, inh, methodid, i)
    ensures SearchResult(h, ClassRef(p, meta), SearchDefault(methodid), inh) ==
              if m.fatal && (MixinOrEarlierKnows(h, p, meta, inh, methodid, j, k) || SuperKnows(h, p, meta, inh, methodid))
              then Failed(EEXIST)
              else Found(MixinHit(h, p, meta, j, k, m))
  {
    OwnKnowsNothing(h, p, meta, inh, methodid);
    LastMixinFirst(h, p, meta, inh, methodid, j, k, m);
  }

  /** If no mixin knows it either, the search goes on in the superclass. */
  lemma {:induction false} SuperclassInherits(h: Hierarchy, p: nat, meta: bool, inh: Inheritance, methodid: nat)
    requires ValidHierarchy(h) && p < |h| && NoneKnows(Side(h, p, meta), inh.cls, inh.categories, methodid)
    requires !SomeMixinKnows(h, p, meta, inh, methodid)
    ensures SearchResult(h, ClassRef(p, meta), SearchDefault(methodid), inh) == SuperAnswer(h, p, meta, inh, methodid)
  {
    OwnKnowsNothing(h, p, meta, inh, methodid);
    MixinsKnowNothing(h, p, meta, inh, methodid);
  }

  // ----- what comes after the class itself

  ghost function Beyond(h: Hierarchy, p: nat, meta: bool, inh: Inheritance, methodid: nat): Outcome
    requires ValidHierarchy(h) && p < |h|
  {
    Verdict(Implementations(Listings(Blocks(h, ClassRef(p, meta), inh)[1..]), SearchDefault(methodid)))
  }

  lemma {:induction false} OwnKnowsNothing(h: Hierarchy, p: nat, meta: bool, inh: Inheritance, methodid: nat)
    requires ValidHierarchy(h) && p < |h| && NoneKnows(Side(h, p, meta), inh.cls, inh.categories, methodid)
    ensures SearchResult(h, ClassRef(p, meta), SearchDefault(methodid), inh) == Beyond(h, p, meta, inh, methodid)
  {
    hide Listings, Implementations, VisibleLists, Knows, MixinBlocks, Blocks, SearchResult, SuperImplementations, MixinsOf;
    var s, c, cls := SearchDefault(methodid), ClassRef(p, meta), Side(h, p, meta);
    var b := Block(c, h[p].classid, VisibleLists(cls, inh), false);
    DefaultSearchFindsFirst(h, c, s, inh);
    SplitImplementations(h, p, meta, inh, methodid);
    ImplementationsConcat(ListingsOf(b, b.lists), Listings(Blocks(h, c, inh)[1..]), s);
    ClassImplementations(b, cls, inh, methodid);
    Joined([], Implementations(Listings(Blocks(h, c, inh)[1..]), s));
  }

  lemma {:induction false} MixinsKnowNothing(h: Hierarchy, p: nat, meta: bool, inh: Inheritance, methodid: nat)
    requires ValidHierarchy(h) && p < |h| && !SomeMixinKnows(h, p, meta, inh, methodid)
    ensures Beyond(h, p, meta, inh, methodid) == SuperAnswer(h, p, meta, inh, methodid)
  {
    hide Listings, Implementations, MixinBlocks, Blocks, SuperImplementations, EarlierMixinKnows, SuperAnswer;
    SplitImplementations(h, p, meta, inh, methodid);
    MixinImplementations(h, p, meta, inh, methodid, |h[p].mixins|);
    SuperAnswers(h, p, meta, inh, methodid);
    Joined([], SuperImplementations(h, ClassRef(p, meta), inh, methodid));
  }

  lemma {:induction false} LastMixinFirst(h: Hierarchy, p: nat, meta: bool, inh: Inheritance, methodid: nat, j: nat, k: nat, m: Method)
    requires ValidHierarchy(h) && p < |h|
    requires LooksAtMixins(h, p, inh) && IsNewestOfMixin(h, p, meta, inh, methodid, j, k, m)
    requires forall i | j < i < |h[p].mixins| :: !MixinKnows(h, p, meta, inh, methodid, i)
    ensures Beyond(h, p, meta, inh, methodid) ==
              if m.fatal && (MixinOrEarlierKnows(h, p, meta, inh, methodid, j, k) || SuperKnows(h, p, meta, inh, methodid))
              then Failed(EEXIST)
              else Found(MixinHit(h, p, meta, j, k, m))
  {
    hide Listings, Implementations, MixinBlocks, Blocks, SuperImplementations, EarlierMixinKnows, SuperAnswer;
    hide Knows, OlderKnows, IsFirstOf;
    SplitImplementations(h, p, meta, inh, methodid);
    LastMixin(h, p, meta, inh, methodid, |h[p].mixins|, j, k, m);
    SuperAnswers(h, p, meta, inh, methodid);
    Joined(MixinsOf(h, p, meta, inh, methodid), SuperImplementations(h, ClassRef(p, meta), inh, methodid));
  }

  // ----- super searches

  /** A super search from the class itself skips its lists: it finds what the last mixin that knows the method has, ... */
  lemma {:induction false} SuperSearchSkipsOwn(h: Hierarchy, p: nat, meta: bool, inh: Inheritance, methodid: nat)
    requires ValidHierarchy(h) && p < |h|
    ensures SearchResult(h, ClassRef(p, meta), SearchSuper(methodid, h[p].classid), inh) == Beyond(h, p, meta, inh, methodid)
  {
    var bs := Blocks(h, ClassRef(p, meta), inh);
    SuperSearchContinues(h, ClassRef(p, meta), SearchSuper(methodid, h[p].classid), inh, 0);
    assert bs[0 + 1..] == bs[1..];
  }

  lemma {:induction false} SuperFindsLastMixin(h: Hierarchy, p: nat, meta: bool, inh: Inheritance, methodid: nat, j: nat, k: nat, m: Method)
    requires ValidHierarchy(h) && p < |h|
    requires LooksAtMixins(h, p, inh) && IsNewestOfMixin(h, p, meta, inh, methodid, j, k, m)
    requires forall i | j < i < |h[p].mixins| :: !MixinKnows(h, p, meta, inh, methodid, i)
    ensures SearchResult(h, ClassRef(p, meta), SearchSuper(methodid, h[p].classid), inh) ==
              if m.fatal && (MixinOrEarlierKnows(h, p, meta, inh, methodid, j, k) || SuperKnows(h, p, meta, inh, methodid))
              then Failed(EEXIST)
              else Found(MixinHit(h, p, meta, j, k, m))
  {
    SuperSearchSkipsOwn(h, p, meta, inh, methodid);
    LastMixinFirst(h, p, meta, inh, methodid, j, k, m);
  }

  /** ... and else what a search of the superclass finds. */
  lemma {:induction false} SuperFindsSuperclass(h: Hierarchy, p: nat, meta: bool, inh: Inheritance, methodid: nat)
    requires ValidHierarchy(h) && p < |h| && !SomeMixinKnows(h, p, meta, inh, methodid)
    ensures SearchResult(h, ClassRef(p, meta), SearchSuper(methodid, h[p].classid), inh) == SuperAnswer(h, p, meta, inh, methodid)
  {
    SuperSearchSkipsOwn(h, p, meta, inh, methodid);
    MixinsKnowNothing(h, p, meta, inh, methodid);
  }

  // ----- specific searches

  lemma {:induction false} FromCategoryFirst(lists: seq<MethodList>, i: nat)
    requires i < |lists| && forall j | 0 <= j < i :: lists[j].categoryid != lists[i].categoryid
    ensures FromCategory(lists, lists[i].categoryid) == lists[i..]
  {
    if i > 0 {
      FromCategoryFirst(lists[1..], i - 1);
      assert lists[1..][i - 1..] == lists[i..];
    }
  }

  /** A specific search for a category of the class itself looks at just that methodlist. */
  lemma {:induction false} SpecificFindsCategory(h: Hierarchy, p: nat, meta: bool, inh: Inheritance, methodid: nat, k: nat)
    requires ValidHierarchy(h) && p < |h| && Shows(Side(h, p, meta), inh.cls, inh.categories, k)
    requires var lists := Side(h, p, meta).lists;
             forall j | Shows(Side(h, p, meta), inh.cls, inh.categories, j) && k < j :: lists[j].categoryid != lists[k].categoryid
    ensures var list := Side(h, p, meta).lists[k];
            var r := SearchResult(h, ClassRef(p, meta), SearchSpecific(methodid, h[p].classid, list.categoryid), inh);
            && (!Knows(list, methodid) ==> r == Failed(ENOENT))
            && forall m | IsFirstOf(list, methodid, m) :: r == Found(Hit(ClassRef(p, meta), list, m))
  {
    hide Implementations, Knows, MixinBlocks, IsFirstOf, SearchResult, ScanBlocks, VisibleLists, FirstMatch, FromCategory;
    var c, cls := ClassRef(p, meta), Side(h, p, meta);
    var n := if inh.categories then 1 else |cls.lists|;
    var b := Block(c, h[p].classid, VisibleLists(cls, inh), false);
    var s := SearchSpecific(methodid, h[p].classid, cls.lists[k].categoryid);
    VisibleListsAt(cls, inh);
    FromCategoryFirst(b.lists, n - 1 - k);
    SpecificSearchIsExact(h, c, s, inh, 0);
    SameFirstMatch(cls.lists[k].methods, s, SearchDefault(methodid));
    FirstMatchIsFirst(cls.lists[k].methods, cls.lists[k].categoryid, methodid);
    forall m | IsFirstOf(cls.lists[k], methodid, m) ensures FirstMatch(cls.lists[k].methods, SearchDefault(methodid)) == Some(m) {
      OnlyOneIsFirst(cls.lists[k], methodid, m);
    }
  }

  // ----- searches by implementation

  /** A search by implementation answers with a method that has it, and fails for lack of one only if nothing that it sees has it. */
  lemma {:induction false} ImpSearchFinds(h: Hierarchy, c: ClassRef, imp: nat, inh: Inheritance)
    requires ValidHierarchy(h) && c.pair < |h|
    ensures var r := SearchResult(h, c, SearchImp(imp), inh);
            && (r.Found? ==> r.hit.found in r.hit.list.methods && r.hit.found.imp == imp)
            && (r == Failed(ENOENT) <==>
                  forall l, m | l in Listings(Blocks(h, c, inh)) && m in l.list.methods :: m.imp != imp)
  {
    var s, ls := SearchImp(imp), Listings(Blocks(h, c, inh));
    DefaultSearchFindsFirst(h, c, s, inh);
    hide Blocks, SearchResult, Listings;
    NoImplementation(ls, s);
    HitsHaveImp(ls, imp);
  }

  lemma {:induction false} HitsHaveImp(ls: seq<Listing>, imp: nat)
    ensures var impls := Implementations(ls, SearchImp(imp));
            impls != [] ==> impls[0].found in impls[0].list.methods && impls[0].found.imp == imp
  {
    if ls != [] {
      HitsHaveImp(ls[1..], imp);
    }
  }
}
