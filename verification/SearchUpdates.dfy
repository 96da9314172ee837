/** How a new methodlist changes what is found. */
module SearchUpdates {
  import opened Prelude
  import opened SearchSpec
  import opened SearchTheorems
  import opened SearchLaws

  /** The hierarchy with one more methodlist in one class. */
  function AddList(h: Hierarchy, c: ClassRef, list: MethodList): (h': Hierarchy)
    requires ValidHierarchy(h) && c.pair < |h|
    ensures ValidHierarchy(h') && |h'| == |h|
  {
    var p := h[c.pair];
    h[c.pair := if c.meta then p.(meta := p.meta.(lists := p.meta.lists + [list]))
                else p.(infra := p.infra.(lists := p.infra.lists + [list]))]
  }

  // ----- where the new list shows up

  /** A place in a linearization where that list of that class shows up. */
  predicate IsNew(l: Listing, t: ClassRef, list: MethodList) {
    l.cls == t && l.list == list
  }

  /** The listings are the old ones with the new list put in at some places. */
  ghost predicate Inserted(now: seq<Listing>, prior: seq<Listing>, t: ClassRef, list: MethodList) {
    if now == [] then prior == []
    else
      || (prior != [] && now[0] == prior[0] && Inserted(now[1..], prior[1..], t, list))
      || (IsNew(now[0], t, list) && Inserted(now[1..], prior, t, list))
  }

  lemma {:induction false} InsertedNowhere(ls: seq<Listing>, t: ClassRef, list: MethodList)
    ensures Inserted(ls, ls, t, list)
  {
    if ls != [] {
      InsertedNowhere(ls[1..], t, list);
    }
  }

  lemma {:induction false} InsertedConcat(a: seq<Listing>, a0: seq<Listing>, b: seq<Listing>, b0: seq<Listing>,
                                          t: ClassRef, list: MethodList)
    requires Inserted(a, a0, t, list) && Inserted(b, b0, t, list)
    ensures Inserted(a + b, a0 + b0, t, list)
    decreases |a|
  {
    if a == [] {
      assert a + b == b && a0 + b0 == b0;
    } else {
      assert (a + b)[0] == a[0] && (a + b)[1..] == a[1..] + b;
      if a0 != [] && a[0] == a0[0] && Inserted(a[1..], a0[1..], t, list) {
        assert (a0 + b0)[0] == a0[0] && (a0 + b0)[1..] == a0[1..] + b0;
        InsertedConcat(a[1..], a0[1..], b, b0, t, list);
      } else {
        InsertedConcat(a[1..], a0, b, b0, t, list);
      }
    }
  }

  /** A new list without a match brings no implementation. */
  lemma {:induction false} InsertedUnmatched(now: seq<Listing>, prior: seq<Listing>, t: ClassRef, list: MethodList, s: Search)
    requires Inserted(now, prior, t, list) && FirstMatch(list.methods, s).None?
    ensures Implementations(now, s) == Implementations(prior, s)
    decreases |now|
  {
    if now != [] {
      if prior != [] && now[0] == prior[0] && Inserted(now[1..], prior[1..], t, list) {
        InsertedUnmatched(now[1..], prior[1..], t, list, s);
      } else {
        InsertedUnmatched(now[1..], prior, t, list, s);
      }
    }
  }

  /** The linearization of a class before a list was added, and with it. */
  ghost predicate BlocksInserted(now: seq<Block>, prior: seq<Block>, t: ClassRef, list: MethodList) {
    Inserted(Listings(now), Listings(prior), t, list)
  }

  lemma {:induction false} BlocksInsertedConcat(a: seq<Block>, a0: seq<Block>, b: seq<Block>, b0: seq<Block>,
                                                t: ClassRef, list: MethodList)
    requires BlocksInserted(a, a0, t, list) && BlocksInserted(b, b0, t, list)
    ensures BlocksInserted(a + b, a0 + b0, t, list)
  {
    ListingsConcat(a, b);
    ListingsConcat(a0, b0);
    InsertedConcat(Listings(a), Listings(a0), Listings(b), Listings(b0), t, list);
  }

  lemma {:induction false} NewestFirstAppend(lists: seq<MethodList>, list: MethodList, lo: nat)
    requires lo <= |lists|
    ensures NewestFirst((lists + [list])[lo..]) == [list] + NewestFirst(lists[lo..])
  {
    assert (lists + [list])[lo..] == lists[lo..] + [list];
    assert (lists[lo..] + [list])[..|lists| - lo] == lists[lo..];
  }

  /** What is seen of one class: its lists, and in the class itself the new list before them, if categories are seen at all. */
  lemma {:induction false} VisibleAfterAdd(h: Hierarchy, t: ClassRef, list: MethodList, c: ClassRef, inh: Inheritance)
    requires ValidHierarchy(h) && t.pair < |h| && c.pair < |h|
    ensures VisibleLists(ClassOf(AddList(h, t, list), c), inh) ==
              (if t == c && !inh.categories then [list] else []) + VisibleLists(ClassOf(h, c), inh)
  {
    var lists, lo := ClassOf(h, c).lists, if inh.cls then 1 else 0;
    if t == c && !inh.categories {
      NewestFirstAppend(lists, list, lo);
      assert (lists + [list])[lo..] == (lists + [list])[lo..|lists| + 1] && lists[lo..] == lists[lo..|lists|];
    } else {
      assert t == c ==> (lists + [list])[lo..1] == lists[lo..1];
      assert [] + VisibleLists(ClassOf(h, c), inh) == VisibleLists(ClassOf(h, c), inh);
    }
  }

  lemma {:induction false} BlockInserted(h: Hierarchy, t: ClassRef, list: MethodList, b: Block, inh: Inheritance)
    requires ValidHierarchy(h) && t.pair < |h| && b.cls.pair < |h| && b.lists == VisibleLists(ClassOf(h, b.cls), inh)
    ensures BlocksInserted([b.(lists := VisibleLists(ClassOf(AddList(h, t, list), b.cls), inh))], [b], t, list)
  {
    var b' := b.(lists := VisibleLists(ClassOf(AddList(h, t, list), b.cls), inh));
    VisibleAfterAdd(h, t, list, b.cls, inh);
    var ls, ls' := ListingsOf(b, b.lists), ListingsOf(b', b'.lists);
    assert Listings([b]) == ls + [] == ls;
    assert Listings([b']) == ls' + [] == ls';
    SameListings(b', b, b.lists);
    InsertedNowhere(ls, t, list);
    if t == b.cls && !inh.categories {
      assert b'.lists[1..] == b.lists;
      assert ls'[0] == Listing(t, b.classid, list) && ls'[1..] == ls;
    } else {
      assert b'.lists == b.lists;
    }
  }

  lemma {:induction false} SameListings(a: Block, b: Block, lists: seq<MethodList>)
    requires a.cls == b.cls && a.classid == b.classid
    ensures ListingsOf(a, lists) == ListingsOf(b, lists)
    decreases |lists|
  {
    if lists != [] {
      SameListings(a, b, lists[1..]);
    }
  }

  lemma {:induction false} MixinsInserted(h: Hierarchy, t: ClassRef, list: MethodList, c: ClassRef, inh: Inheritance, k: nat)
    requires ValidHierarchy(h) && t.pair < |h| && c.pair < |h| && k <= |h[c.pair].mixins|
    ensures BlocksInserted(MixinBlocks(AddList(h, t, list), c, inh, k), MixinBlocks(h, c, inh, k), t, list)
    decreases k
  {
    if k > 0 {
      var h', m := AddList(h, t, list), ClassRef(h[c.pair].mixins[k - 1], c.meta);
      MixinsInserted(h, t, list, c, inh, k - 1);
      if m.pair != c.pair {
        var flags := MixinInheritance(inh, ClassOf(h, m).inheritance);
        var b := Block(m, h[m.pair].classid, VisibleLists(ClassOf(h, m), flags), true);
        var b' := b.(lists := VisibleLists(ClassOf(h', m), flags));
        BlockInserted(h, t, list, b, flags);
        var rest, rest' := MixinBlocks(h, c, inh, k - 1), MixinBlocks(h', c, inh, k - 1);
        BlocksInsertedConcat([b'], [b], rest', rest, t, list);
      }
    }
  }

  lemma {:induction false} OwnBlocksInserted(h: Hierarchy, t: ClassRef, list: MethodList, c: ClassRef, inh: Inheritance)
    requires ValidHierarchy(h) && t.pair < |h| && c.pair < |h|
    ensures BlocksInserted(OwnBlocks(AddList(h, t, list), c, inh), OwnBlocks(h, c, inh), t, list)
  {
    var h', n := AddList(h, t, list), |h[c.pair].mixins|;
    var b := Block(c, h[c.pair].classid, VisibleLists(ClassOf(h, c), inh), false);
    var b' := b.(lists := VisibleLists(ClassOf(h', c), inh));
    BlockInserted(h, t, list, b, inh);
    if inh.protocols || h[c.pair].isMixin {
      BlocksInsertedConcat([b'], [b], [], [], t, list);
    } else {
      MixinsInserted(h, t, list, c, inh, n);
      BlocksInsertedConcat([b'], [b], MixinBlocks(h', c, inh, n), MixinBlocks(h, c, inh, n), t, list);
    }
  }

  lemma {:induction false} SuperUnchanged(h: Hierarchy, t: ClassRef, list: MethodList, c: ClassRef, inh: Inheritance)
    requires ValidHierarchy(h) && t.pair < |h| && c.pair < |h|
    ensures var h', super := AddList(h, t, list), SuperclassOf(h, c);
            && SuperclassOf(h', c) == super
            && (super.Some? ==> SuperInheritance(h', c, inh, super.value) == SuperInheritance(h, c, inh, super.value))
  {
  }

  /** A new methodlist shows up in the linearization of a class, and changes nothing else in it. */
  lemma {:induction false} AddListInserts(h: Hierarchy, t: ClassRef, list: MethodList, c: ClassRef, inh: Inheritance)
    requires ValidHierarchy(h) && t.pair < |h| && c.pair < |h|
    ensures BlocksInserted(Blocks(AddList(h, t, list), c, inh), Blocks(h, c, inh), t, list)
    decreases c.pair, c.meta
  {
    var h', super := AddList(h, t, list), SuperclassOf(h, c);
    var own, own' := OwnBlocks(h, c, inh), OwnBlocks(h', c, inh);
    OwnBlocksInserted(h, t, list, c, inh);
    SuperUnchanged(h, t, list, c, inh);
    var supers, supers' := [], [];
    if super.Some? && !inh.superclass {
      var flags := SuperInheritance(h, c, inh, super.value);
      AddListInserts(h, t, list, super.value, flags);
      supers, supers' := Blocks(h, super.value, flags), Blocks(h', super.value, flags);
    }
    BlocksInsertedConcat(own', own, supers', supers, t, list);
    assert Blocks(h, c, inh) == own + supers && Blocks(h', c, inh) == own' + supers';
  }

  /** Adding a methodlist to any class leaves every search alone that is not for one of its methods. */
  lemma {:induction false} UnrelatedListKeepsSearch(h: Hierarchy, t: ClassRef, list: MethodList, c: ClassRef,
                                                    inh: Inheritance, methodid: nat)
    requires ValidHierarchy(h) && t.pair < |h| && c.pair < |h|
    requires forall m | m in list.methods :: m.methodid != methodid
    ensures SearchResult(AddList(h, t, list), c, SearchDefault(methodid), inh) == SearchResult(h, c, SearchDefault(methodid), inh)
  {
    var s, h' := SearchDefault(methodid), AddList(h, t, list);
    AddListInserts(h, t, list, c, inh);
    InsertedUnmatched(Listings(Blocks(h', c, inh)), Listings(Blocks(h, c, inh)), t, list, s);
    DefaultSearchFindsFirst(h, c, s, inh);
    DefaultSearchFindsFirst(h', c, s, inh);
  }

  /** A method of the new list is found at once, even if an older one has its id, unless it must not be an override. */
  lemma {:induction false} NewListWins(h: Hierarchy, t: ClassRef, list: MethodList, inh: Inheritance, methodid: nat, m: Method)
    requires ValidHierarchy(h) && t.pair < |h| && !inh.categories && IsFirstOf(list, methodid, m) && !m.fatal
    ensures SearchResult(AddList(h, t, list), t, SearchDefault(methodid), inh) == Found(Hit(t, list, m))
  {
    hide SearchResult, SomeMixinKnows, SuperKnows;
    var h', k := AddList(h, t, list), |Side(h, t.pair, t.meta).lists|;
    var cls := Side(h', t.pair, t.meta);
    assert cls.lists[k] == list && |cls.lists| == k + 1;
    NewestListWins(h', t.pair, t.meta, inh, methodid, k, m);
  }
}
