/** What each kind of search finds, said without modes: in terms of the methodlists of the linearization, in order. */
module SearchTheorems {
  import opened Prelude
  import opened SearchSpec

  /** A methodlist in the linearization, with its owner. */
  datatype Listing = Listing(cls: ClassRef, classid: nat, list: MethodList)

  function ListingsOf(b: Block, lists: seq<MethodList>): seq<Listing> {
    if lists == [] then [] else [Listing(b.cls, b.classid, lists[0])] + ListingsOf(b, lists[1..])
  }

  function Listings(bs: seq<Block>): seq<Listing> {
    if bs == [] then [] else ListingsOf(bs[0], bs[0].lists) + Listings(bs[1..])
  }

  /** What of the listings holds a match: the implementations, in order. */
  function Implementations(ls: seq<Listing>, s: Search): seq<Hit> {
    if ls == [] then []
    else
      var first := FirstMatch(ls[0].list.methods, s);
      (if first.None? then [] else [Hit(ls[0].cls, ls[0].list, first.value)]) + Implementations(ls[1..], s)
  }

  /** The first implementation counts, unless it is fatal for it that there is another one. */
  function Verdict(impls: seq<Hit>): Outcome {
    if impls == [] then Failed(ENOENT)
    else if impls[0].found.fatal && |impls| > 1 then Failed(EEXIST)
    else Found(impls[0])
  }

  ghost predicate Has(l: Listing, s: Search) {
    FirstMatch(l.list.methods, s).Some?
  }

  lemma {:induction false} NoImplementation(ls: seq<Listing>, s: Search)
    ensures Implementations(ls, s) == [] <==> forall l | l in ls :: !Has(l, s)
  {
    if ls != [] {
      NoImplementation(ls[1..], s);
      assert ls[0] in ls && forall l | l in ls :: l == ls[0] || l in ls[1..];
    }
  }

  lemma {:induction false} FirstImplementation(ls: seq<Listing>, s: Search, i: nat)
    requires i < |ls| && Has(ls[i], s) && forall j | 0 <= j < i :: !Has(ls[j], s)
    ensures Implementations(ls, s) ==
              [Hit(ls[i].cls, ls[i].list, FirstMatch(ls[i].list.methods, s).value)] + Implementations(ls[i + 1..], s)
  {
    if i > 0 {
      FirstImplementation(ls[1..], s, i - 1);
      assert ls[1..][i..] == ls[i + 1..];
    }
  }

  /** The verdict by positions: the first listing with a match counts, unless it must not be an override and is one. */
  lemma {:induction false} VerdictByPosition(ls: seq<Listing>, s: Search, i: nat)
    requires i <= |ls| && forall j | 0 <= j < i :: !Has(ls[j], s)
    requires i < |ls| ==> Has(ls[i], s)
    ensures Verdict(Implementations(ls, s)) ==
              if i == |ls| then Failed(ENOENT)
              else
                var hit := Hit(ls[i].cls, ls[i].list, FirstMatch(ls[i].list.methods, s).value);
                if hit.found.fatal && exists k :: i < k < |ls| && Has(ls[k], s) then Failed(EEXIST) else Found(hit)
  {
    if i == |ls| {
      NoImplementation(ls, s);
    } else {
      FirstImplementation(ls, s, i);
      NoImplementation(ls[i + 1..], s);
      assert forall k | i < k < |ls| :: ls[k] == ls[i + 1..][k - i - 1];
    }
  }

  lemma {:induction false} ImplementationsConcat(a: seq<Listing>, b: seq<Listing>, s: Search)
    ensures Implementations(a + b, s) == Implementations(a, s) + Implementations(b, s)
    decreases |a|
  {
    hide FirstMatch;
    if a == [] {
      assert a + b == b;
    } else {
      var first := Implementations([a[0]], s);
      assert (a + b)[1..] == a[1..] + b && (a + b)[0] == a[0];
      ImplementationsConcat(a[1..], b, s);
      assert first + (Implementations(a[1..], s) + Implementations(b, s)) == (first + Implementations(a[1..], s)) + Implementations(b, s);
    }
  }

  lemma {:induction false} ListingsConcat(a: seq<Block>, b: seq<Block>)
    ensures Listings(a + b) == Listings(a) + Listings(b)
  {
    if a == [] {
      assert a + b == b;
    } else {
      assert (a + b)[0] == a[0] && (a + b)[1..] == a[1..] + b;
      ListingsConcat(a[1..], b);
      var first := ListingsOf(a[0], a[0].lists);
      assert first + (Listings(a[1..]) + Listings(b)) == (first + Listings(a[1..])) + Listings(b);
    }
  }

  // ----- scans without an anchor to look for

  predicate Plain(mode: Mode) {
    mode.Default? || mode.Imp? || mode.Super2?
  }

  lemma {:induction false} PlainLists(b: Block, lists: seq<MethodList>, s: Search, mode: Mode)
    requires ModeOf(s, mode) && Plain(mode)
    ensures ScanLists(b, lists, s, mode) == Scan(Implementations(ListingsOf(b, lists), s), mode, false, false)
    decreases |lists|
  {
    if lists != [] {
      PlainLists(b, lists[1..], s, mode);
      assert ListingsOf(b, lists)[1..] == ListingsOf(b, lists[1..]);
    }
  }

  lemma {:induction false} PlainBlocks(bs: seq<Block>, s: Search, mode: Mode)
    requires ModeOf(s, mode) && Plain(mode)
    ensures ScanBlocks(bs, s, mode) == Scan(Implementations(Listings(bs), s), mode, false, false)
    decreases |bs|
  {
    if bs != [] {
      PlainLists(bs[0], bs[0].lists, s, mode);
      PlainBlocks(bs[1..], s, mode);
      ImplementationsConcat(ListingsOf(bs[0], bs[0].lists), Listings(bs[1..]), s);
    }
  }

  /** A default search finds the first implementation in the linearization. So does a search by implementation. */
  lemma {:induction false} DefaultSearchFindsFirst(h: Hierarchy, c: ClassRef, s: Search, inh: Inheritance)
    requires ValidHierarchy(h) && c.pair < |h| && (s.SearchDefault? || s.SearchImp?)
    ensures SearchResult(h, c, s, inh) == Verdict(Implementations(Listings(Blocks(h, c, inh)), s))
  {
    PlainBlocks(Blocks(h, c, inh), s, InitialMode(s));
  }

  // ----- super search

  /** The first block of the class that a relative search starts from, or the end of the blocks. */
  ghost predicate IsAnchor(bs: seq<Block>, classid: nat, i: nat) {
    && i <= |bs| && (i < |bs| ==> bs[i].classid == classid)
    && forall j | 0 <= j < i :: bs[j].classid != classid
  }

  lemma {:induction false} AnchorExists(bs: seq<Block>, classid: nat) returns (i: nat)
    ensures IsAnchor(bs, classid, i)
    decreases |bs|
  {
    if bs == [] || bs[0].classid == classid {
      i := 0;
    } else {
      i := AnchorExists(bs[1..], classid);
      i := i + 1;
    }
  }

  predicate Seeking(mode: Mode) {
    mode.Super1? || mode.Overridden1? || mode.Specific1?
  }

  /** Blocks of other classes are skipped. */
  lemma {:induction false} SeekScan(bs: seq<Block>, s: Search, mode: Mode, i: nat)
    requires ModeOf(s, mode) && Seeking(mode) && i <= |bs| && forall j | 0 <= j < i :: bs[j].classid != s.classid
    ensures ScanBlocks(bs, s, mode) == ScanBlocks(bs[i..], s, mode)
    decreases i
  {
    if i > 0 {
      SeekScan(bs[1..], s, mode, i - 1);
      assert bs[1..][i - 1..] == bs[i..];
      var r := ScanBlocks(bs[1..], s, mode);
      assert [] + r.hits == r.hits;
    } else {
      assert bs[i..] == bs;
    }
  }

  /** A super search is a default search of what comes after the class it starts from. It is invalid just when it never comes by that class. */
  lemma {:induction false} SuperSearchContinues(h: Hierarchy, c: ClassRef, s: Search, inh: Inheritance, i: nat)
    requires ValidHierarchy(h) && c.pair < |h| && s.SearchSuper? && IsAnchor(Blocks(h, c, inh), s.classid, i)
    ensures var bs := Blocks(h, c, inh);
            SearchResult(h, c, s, inh) ==
              if i == |bs| then Failed(EINVAL)
              else Verdict(Implementations(Listings(bs[i + 1..]), SearchDefault(s.methodid)))
  {
    var bs := Blocks(h, c, inh);
    SeekScan(bs, s, Super1, i);
    if i < |bs| {
      PlainBlocks(bs[i + 1..], s, Super2);
      SameMatches(Listings(bs[i + 1..]), s, SearchDefault(s.methodid));
      assert bs[i..][1..] == bs[i + 1..];
    }
  }

  /** Only what is searched for tells if a method matches. */
  lemma {:induction false} SameFirstMatch(methods: seq<Method>, s: Search, t: Search)
    requires !s.SearchImp? && !t.SearchImp? && s.methodid == t.methodid
    ensures FirstMatch(methods, s) == FirstMatch(methods, t)
  {
    if methods != [] {
      SameFirstMatch(methods[1..], s, t);
    }
  }

  lemma {:induction false} SameMatches(ls: seq<Listing>, s: Search, t: Search)
    requires !s.SearchImp? && !t.SearchImp? && s.methodid == t.methodid
    ensures Implementations(ls, s) == Implementations(ls, t)
  {
    if ls != [] {
      SameFirstMatch(ls[0].list.methods, s, t);
      SameMatches(ls[1..], s, t);
    }
  }

  // ----- overridden search

  /** The lists from the first one of a category on. */
  function FromCategory(lists: seq<MethodList>, categoryid: nat): (r: seq<MethodList>)
    ensures r != [] ==> r[0].categoryid == categoryid && r[0] in lists
    ensures r == [] <==> forall l | l in lists :: l.categoryid != categoryid
  {
    if lists == [] || lists[0].categoryid == categoryid then lists else FromCategory(lists[1..], categoryid)
  }

  /** Without the listings of one category of one class. */
  function Others(ls: seq<Listing>, classid: nat, categoryid: nat): seq<Listing> {
    if ls == [] then []
    else (if ls[0].classid == classid && ls[0].list.categoryid == categoryid then [] else [ls[0]])
         + Others(ls[1..], classid, categoryid)
  }

  lemma {:induction false} OthersConcat(a: seq<Listing>, b: seq<Listing>, classid: nat, categoryid: nat)
    ensures Others(a + b, classid, categoryid) == Others(a, classid, categoryid) + Others(b, classid, categoryid)
    decreases |a|
  {
    if a == [] {
      assert a + b == b;
    } else {
      var x, y := Others(a[1..], classid, categoryid), Others(b, classid, categoryid);
      assert (a + b)[1..] == a[1..] + b && (a + b)[0] == a[0];
      OthersConcat(a[1..], b, classid, categoryid);
      assert [a[0]] + (x + y) == ([a[0]] + x) + y && [] + (x + y) == ([] + x) + y;
    }
  }

  lemma {:induction false} OverriddenLists(b: Block, lists: seq<MethodList>, s: Search)
    requires s.SearchOverridden?
    ensures ScanLists(b, lists, s, Overridden3) ==
              Scan(Implementations(Others(ListingsOf(b, lists), s.classid, s.categoryid), s), Overridden3, false, false)
    decreases |lists|
  {
    if lists != [] {
      OverriddenLists(b, lists[1..], s);
      var ls, rest := ListingsOf(b, lists), Others(ListingsOf(b, lists[1..]), s.classid, s.categoryid);
      assert ls[1..] == ListingsOf(b, lists[1..]);
      assert ([ls[0]] + rest)[1..] == rest && [] + rest == rest;
    }
  }

  lemma {:induction false} OverriddenBlocks(bs: seq<Block>, s: Search)
    requires s.SearchOverridden?
    ensures ScanBlocks(bs, s, Overridden3) ==
              Scan(Implementations(Others(Listings(bs), s.classid, s.categoryid), s), Overridden3, false, false)
    decreases |bs|
  {
    if bs != [] {
      var ls, rest := ListingsOf(bs[0], bs[0].lists), Listings(bs[1..]);
      OverriddenLists(bs[0], bs[0].lists, s);
      OverriddenBlocks(bs[1..], s);
      OthersConcat(ls, rest, s.classid, s.categoryid);
      ImplementationsConcat(Others(ls, s.classid, s.categoryid), Others(rest, s.classid, s.categoryid), s);
    }
  }

  lemma {:induction false} OverriddenAnchor(b: Block, lists: seq<MethodList>, s: Search)
    requires s.SearchOverridden?
    ensures var from := FromCategory(lists, s.categoryid);
            ScanLists(b, lists, s, Overridden2) ==
              if from == [] then Scan([], Overridden2, false, false) else ScanLists(b, from[1..], s, Overridden3)
    decreases |lists|
  {
    if lists != [] {
      OverriddenAnchor(b, lists[1..], s);
    }
  }

  /** What an overridden search looks at, once it has come by its anchor block. */
  function OverriddenListings(bs: seq<Block>, i: nat, s: Search): seq<Listing>
    requires s.SearchOverridden? && i < |bs| && FromCategory(bs[i].lists, s.categoryid) != []
  {
    var after := FromCategory(bs[i].lists, s.categoryid)[1..];
    Others(ListingsOf(bs[i], after) + Listings(bs[i + 1..]), s.classid, s.categoryid)
  }

  lemma {:induction false} OverriddenContinues(bs: seq<Block>, s: Search, i: nat)
    requires s.SearchOverridden? && IsAnchor(bs, s.classid, i)
    ensures Judge(ScanBlocks(bs, s, Overridden1)) ==
              if i == |bs| || FromCategory(bs[i].lists, s.categoryid) == [] then Failed(EINVAL)
              else Verdict(Implementations(OverriddenListings(bs, i, s), SearchDefault(s.methodid)))
  {
    SeekScan(bs, s, Overridden1, i);
    if i < |bs| {
      OverriddenAnchor(bs[i], bs[i].lists, s);
      assert bs[i..][1..] == bs[i + 1..];
      var from := FromCategory(bs[i].lists, s.categoryid);
      if from != [] {
        OverriddenLists(bs[i], from[1..], s);
        OverriddenBlocks(bs[i + 1..], s);
        var ls, rest := ListingsOf(bs[i], from[1..]), Listings(bs[i + 1..]);
        OthersConcat(ls, rest, s.classid, s.categoryid);
        ImplementationsConcat(Others(ls, s.classid, s.categoryid), Others(rest, s.classid, s.categoryid), s);
        SameMatches(OverriddenListings(bs, i, s), s, SearchDefault(s.methodid));
      }
    }
  }

  /**
   An overridden search is a default search of what comes after the methodlist it starts from, except that it
   does not find that methodlist again. It is invalid just when the class or its category is missing.
   */
  lemma {:induction false} OverriddenSearchContinues(h: Hierarchy, c: ClassRef, s: Search, inh: Inheritance, i: nat)
    requires ValidHierarchy(h) && c.pair < |h| && s.SearchOverridden? && IsAnchor(Blocks(h, c, inh), s.classid, i)
    ensures var bs := Blocks(h, c, inh);
            SearchResult(h, c, s, inh) ==
              if i == |bs| || FromCategory(bs[i].lists, s.categoryid) == [] then Failed(EINVAL)
              else Verdict(Implementations(OverriddenListings(bs, i, s), SearchDefault(s.methodid)))
  {
    OverriddenContinues(Blocks(h, c, inh), s, i);
  }

  // ----- specific search

  lemma {:induction false} SpecificAnchor(b: Block, lists: seq<MethodList>, s: Search)
    requires s.SearchSpecific?
    ensures var from := FromCategory(lists, s.categoryid);
            ScanLists(b, lists, s, Specific2) ==
              if from == [] then Scan([], Specific2, false, false) else ScanLists(b, from, s, Specific3)
    decreases |lists|
  {
    if lists != [] {
      SpecificAnchor(b, lists[1..], s);
    }
  }

  /** Up to the first class, some block begins with a methodlist that has a match. */
  predicate Stray(bs: seq<Block>, s: Search) {
    bs != [] &&
    if bs[0].lists == [] then Stray(bs[1..], s)
    else FirstMatch(bs[0].lists[0].methods, s).Some? || (bs[0].mixin && Stray(bs[1..], s))
  }

  lemma {:induction false} StrayHits(bs: seq<Block>, s: Search)
    requires s.SearchSpecific?
    ensures ScanBlocks(bs, s, Specific3).hits != [] <==> Stray(bs, s)
    decreases |bs|
  {
    if bs != [] {
      StrayHits(bs[1..], s);
    }
  }

  /** What a specific search is for: the method of one category of one class. */
  function SpecificMethod(b: Block, s: Search): Outcome
    requires s.SearchSpecific? && FromCategory(b.lists, s.categoryid) != []
  {
    var list := FromCategory(b.lists, s.categoryid)[0];
    var first := FirstMatch(list.methods, s);
    if first.None? then Failed(ENOENT) else Found(Hit(b.cls, list, first.value))
  }

  lemma {:induction false} SpecificIsExact(bs: seq<Block>, s: Search, i: nat)
    requires s.SearchSpecific? && IsAnchor(bs, s.classid, i) && i < |bs| && FromCategory(bs[i].lists, s.categoryid) != []
    ensures var own := SpecificMethod(bs[i], s);
            Judge(ScanBlocks(bs, s, Specific1)) == own <==>
              !(bs[i].mixin && (own.Failed? || own.hit.found.fatal) && Stray(bs[i + 1..], s))
  {
    SeekScan(bs, s, Specific1, i);
    SpecificAnchor(bs[i], bs[i].lists, s);
    assert bs[i..][1..] == bs[i + 1..];
    StrayHits(bs[i + 1..], s);
    ScanBlocksFacts(bs[i + 1..], s, Specific3);
  }

  lemma {:induction false} SpecificIsInvalid(bs: seq<Block>, s: Search, i: nat)
    requires s.SearchSpecific? && IsAnchor(bs, s.classid, i)
    requires i < |bs| ==> FromCategory(bs[i].lists, s.categoryid) == []
    ensures Judge(ScanBlocks(bs, s, Specific1)) == Failed(if i == |bs| then ENOENT else EINVAL)
  {
    SeekScan(bs, s, Specific1, i);
    if i < |bs| {
      SpecificAnchor(bs[i], bs[i].lists, s);
    }
  }

  /**
   A specific search answers with the method of its category, except if that is a category of a mixin that lacks
   the method (or whose method is fatal) and a match strays in from the blocks that follow.
   */
  lemma {:induction false} SpecificSearchIsExact(h: Hierarchy, c: ClassRef, s: Search, inh: Inheritance, i: nat)
    requires ValidHierarchy(h) && c.pair < |h| && s.SearchSpecific? && IsAnchor(Blocks(h, c, inh), s.classid, i)
    ensures var bs := Blocks(h, c, inh);
            && (i == |bs| ==> SearchResult(h, c, s, inh) == Failed(ENOENT))
            && (i < |bs| && FromCategory(bs[i].lists, s.categoryid) == [] ==> SearchResult(h, c, s, inh) == Failed(EINVAL))
            && (i < |bs| && FromCategory(bs[i].lists, s.categoryid) != [] ==>
                  var own := SpecificMethod(bs[i], s);
                  SearchResult(h, c, s, inh) == own <==>
                    !(bs[i].mixin && (own.Failed? || own.hit.found.fatal) && Stray(bs[i + 1..], s)))
  {
    var bs := Blocks(h, c, inh);
    if i == |bs| || FromCategory(bs[i].lists, s.categoryid) == [] {
      SpecificIsInvalid(bs, s, i);
    } else {
      SpecificIsExact(bs, s, i);
    }
  }

  /** A class with one method, and a subclass with a mixin that has none. */
  function StrayExample(): Hierarchy {
    var none := Class([MethodList(0, [])], INHERIT_ALL);
    [ ClassPair(1, None, [], false, Class([MethodList(0, [Method(7, 70, false)])], INHERIT_ALL), none),
      ClassPair(2, None, [], true, none, none),
      ClassPair(3, Some(0), [1], false, none, none) ]
  }

  /** What a search from the subclass sees. */
  lemma {:induction false} StrayExampleBlocks()
    ensures var none, one := MethodList(0, []), MethodList(0, [Method(7, 70, false)]);
            && ValidHierarchy(StrayExample())
            && Blocks(StrayExample(), ClassRef(2, false), INHERIT_ALL) ==
                 [Block(ClassRef(2, false), 3, [none], false), Block(ClassRef(1, false), 2, [none], true),
                  Block(ClassRef(0, false), 1, [one], false)]
  {
    var h, none, one := StrayExample(), MethodList(0, []), MethodList(0, [Method(7, 70, false)]);
    var c, m, super := ClassRef(2, false), ClassRef(1, false), ClassRef(0, false);
    assert NewestFirst([none]) == [none] && NewestFirst([one]) == [one];
    assert MixinBlocks(h, super, INHERIT_ALL, 0) == [];
    assert Blocks(h, super, INHERIT_ALL) == [Block(super, 1, [one], false)];
    assert MixinBlocks(h, c, INHERIT_ALL, 1) == [Block(m, 2, [none], true)] + MixinBlocks(h, c, INHERIT_ALL, 0);
    assert OwnBlocks(h, c, INHERIT_ALL) == [Block(c, 3, [none], false), Block(m, 2, [none], true)];
  }

  /** The search for the method of the mixin finds that of the superclass. */
  lemma {:induction false} SpecificSearchStrays()
    ensures var h := StrayExample();
            && ValidHierarchy(h)
            && var r := SearchResult(h, ClassRef(2, false), SearchSpecific(7, 2, 0), INHERIT_ALL);
               r.Found? && r.hit.cls == ClassRef(0, false) && r.hit.found.imp == 70
  {
    StrayExampleBlocks();
    var s := SearchSpecific(7, 2, 0);
    var bs := Blocks(StrayExample(), ClassRef(2, false), INHERIT_ALL);
    assert ScanBlock(bs[0], s, Specific1) == Scan([], Specific1, false, false);
    assert ScanBlock(bs[1], s, Specific1) == Scan([], Specific3, false, false);
    assert ScanBlocks(bs[2..], s, Specific3).hits == [Hit(bs[2].cls, bs[2].lists[0], Method(7, 70, false))];
    assert bs[1..][1..] == bs[2..];
  }
}
