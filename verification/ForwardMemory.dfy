/** When the forward method that a class remembers is outdated by a new methodlist. */
module ForwardMemory {
  import opened Prelude
  import opened SearchSpec
  import opened MethodSearch
  import opened SearchTheorems
  import opened SearchUpdates
  import opened Dispatch
  import opened Masks
  import opened CacheSlots
  import opened CacheSizes

  predicate Forwards(l: Listing) {
    FirstMatch(l.list.methods, SearchDefault(FORWARD_METHODID)).Some?
  }

  /** The position of the first listing with a forward: method, or the end. */
  function FirstForward(ls: seq<Listing>): (i: nat)
    ensures i <= |ls| && (i < |ls| ==> Forwards(ls[i])) && forall j | 0 <= j < i :: !Forwards(ls[j])
  {
    if ls == [] || Forwards(ls[0]) then 0 else 1 + FirstForward(ls[1..])
  }

  ghost predicate OtherForward(ls: seq<Listing>) {
    exists k :: FirstForward(ls) < k < |ls| && Forwards(ls[k])
  }

  /** What a class sees before and after the list was added. */
  function Prior(h: Hierarchy, c: ClassRef): seq<Listing>
    requires ValidHierarchy(h) && c.pair < |h|
  {
    Listings(Blocks(h, c, ClassOf(h, c).inheritance))
  }

  function Seen(h: Hierarchy, t: ClassRef, list: MethodList, c: ClassRef): seq<Listing>
    requires ValidHierarchy(h) && t.pair < |h| && c.pair < |h|
  {
    Listings(Blocks(AddList(h, t, list), c, ClassOf(h, c).inheritance))
  }

  /**
   The new list does not change what is forwarded to. If it comes first, then its forward: (or, if that must not be
   an override and is one, the default of the universe) has to be what was used before. If an old list comes first,
   then only a forward: that must not be an override and has been alone can be lost, to the default of the universe.
   */
  ghost predicate ForwardStays(now: seq<Listing>, prior: seq<Listing>, t: ClassRef, list: MethodList, u: Settings,
                               remembered: Option<Method>)
  {
    var i := FirstForward(now);
    i < |now| ==>
      var first := FirstMatch(now[i].list.methods, SearchDefault(FORWARD_METHODID)).value;
      if IsNew(now[i], t, list) then
        remembered == if first.fatal && OtherForward(now) then u.forward else Some(first)
      else
        first.fatal && OtherForward(now) && !OtherForward(prior) ==> u.forward == Some(first)
  }

  /** If an old list has the first forward: still, it had it before. */
  lemma {:induction false} FirstForwardIsOld(now: seq<Listing>, prior: seq<Listing>, t: ClassRef, list: MethodList)
    requires Inserted(now, prior, t, list)
    requires FirstForward(now) < |now| && !IsNew(now[FirstForward(now)], t, list)
    ensures FirstForward(prior) < |prior| && prior[FirstForward(prior)] == now[FirstForward(now)]
    decreases |now|
  {
    if !Forwards(now[0]) {
      if prior != [] && now[0] == prior[0] && Inserted(now[1..], prior[1..], t, list) {
        FirstForwardIsOld(now[1..], prior[1..], t, list);
      } else {
        FirstForwardIsOld(now[1..], prior, t, list);
      }
    }
  }

  lemma {:induction false} NoForwardBefore(now: seq<Listing>, prior: seq<Listing>, t: ClassRef, list: MethodList)
    requires Inserted(now, prior, t, list) && forall l | l in now :: !Forwards(l)
    ensures FirstForward(prior) == |prior|
    decreases |now|
  {
    if now != [] {
      if prior != [] && now[0] == prior[0] && Inserted(now[1..], prior[1..], t, list) {
        NoForwardBefore(now[1..], prior[1..], t, list);
      } else {
        NoForwardBefore(now[1..], prior, t, list);
      }
    }
  }

  /** Each old listing is still seen. */
  lemma {:induction false} StillSeen(now: seq<Listing>, prior: seq<Listing>, t: ClassRef, list: MethodList, k: nat) returns (j: nat)
    requires Inserted(now, prior, t, list) && k < |prior|
    ensures j < |now| && now[j] == prior[k]
    decreases |now|
  {
    if now[0] == prior[0] && Inserted(now[1..], prior[1..], t, list) {
      if k == 0 {
        return 0;
      }
      j := StillSeen(now[1..], prior[1..], t, list, k - 1);
    } else {
      j := StillSeen(now[1..], prior, t, list, k);
    }
    j := j + 1;
  }

  lemma {:induction false} OtherForwardStays(now: seq<Listing>, prior: seq<Listing>, t: ClassRef, list: MethodList)
    requires Inserted(now, prior, t, list) && FirstForward(now) < |now| && OtherForward(prior)
    requires !IsNew(now[FirstForward(now)], t, list)
    ensures OtherForward(now)
    decreases |now|
  {
    var k :| FirstForward(prior) < k < |prior| && Forwards(prior[k]);
    if Forwards(now[0]) {
      var j := StillSeen(now[1..], prior[1..], t, list, k - 1);
      assert Forwards(now[j + 1]);
    } else {
      if prior[0] == now[0] && Inserted(now[1..], prior[1..], t, list) {
        assert Forwards(prior[1..][k - 1]);
        OtherForwardStays(now[1..], prior[1..], t, list);
      } else {
        OtherForwardStays(now[1..], prior, t, list);
      }
      var j :| FirstForward(now[1..]) < j < |now[1..]| && Forwards(now[1..][j]);
      assert Forwards(now[j + 1]);
    }
  }

  lemma {:induction false} ForwardByPosition(h: Hierarchy, c: ClassRef, u: Settings)
    requires ValidHierarchy(h) && c.pair < |h|
    ensures var ls := Prior(h, c);
            var i := FirstForward(ls);
            ForwardMethod(h, c, u) ==
              if i == |ls| then u.forward
              else
                var first := FirstMatch(ls[i].list.methods, SearchDefault(FORWARD_METHODID)).value;
                if first.fatal && OtherForward(ls) then u.forward else Some(first)
  {
    var s, ls := SearchDefault(FORWARD_METHODID), Prior(h, c);
    DefaultSearchFindsFirst(h, c, s, ClassOf(h, c).inheritance);
    assert forall l :: Has(l, s) == Forwards(l);
    VerdictByPosition(ls, s, FirstForward(ls));
  }

  /** Exactly when a new methodlist leaves the forward method of a class as it is. */
  lemma {:induction false} ForwardStaysExactly(h: Hierarchy, t: ClassRef, list: MethodList, c: ClassRef, u: Settings)
    requires ValidHierarchy(h) && t.pair < |h| && c.pair < |h|
    ensures ForwardMethod(AddList(h, t, list), c, u) == ForwardMethod(h, c, u) <==>
            ForwardStays(Seen(h, t, list, c), Prior(h, c), t, list, u, ForwardMethod(h, c, u))
  {
    var h', now := AddList(h, t, list), Seen(h, t, list, c);
    assert ClassOf(h', c).inheritance == ClassOf(h, c).inheritance;
    AddListInserts(h, t, list, c, ClassOf(h, c).inheritance);
    ForwardByPosition(h, c, u);
    ForwardByPosition(h', c, u);
    if FirstForward(now) == |now| {
      NoForwardBefore(now, Prior(h, c), t, list);
    } else if !IsNew(now[FirstForward(now)], t, list) {
      FirstForwardIsOld(now, Prior(h, c), t, list);
      if OtherForward(Prior(h, c)) {
        OtherForwardStays(now, Prior(h, c), t, list);
      }
    }
  }

  /** A class that remembers the right forward method still does with the new list exactly if the forward method stays. */
  lemma {:induction false} FreshExactly(cls: RuntimeClass, h: Hierarchy, t: ClassRef, list: MethodList, u: Settings)
    requires ValidHierarchy(h) && t.pair < |h| && cls.ref.pair < |h| && cls.Fresh(h, u)
    ensures cls.Fresh(AddList(h, t, list), u) <==>
            cls.forwardmethod.None? || ForwardStays(Seen(h, t, list, cls.ref), Prior(h, cls.ref), t, list, u, cls.forwardmethod)
  {
    ForwardStaysExactly(h, t, list, cls.ref, u);
  }

  /** And then, exactly, is a call selected rightly: if its method is found, or nothing is remembered, or the forward method stays. */
  lemma {:induction false} CallsStayRightExactly(h: Hierarchy, t: ClassRef, list: MethodList, c: ClassRef, u: Settings,
                                                 remembered: Option<Method>, methodid: nat)
    requires ValidHierarchy(h) && t.pair < |h| && c.pair < |h|
    requires remembered.Some? ==> remembered == ForwardMethod(h, c, u)
    ensures var h', s := AddList(h, t, list), SearchDefault(methodid);
            Uncached(h', c, u, remembered, s) == Uncached(h', c, u, None, s) <==>
              || SearchResult(h', c, s, ClassOf(h, c).inheritance).Found?
              || remembered.None? || ForwardStays(Seen(h, t, list, c), Prior(h, c), t, list, u, remembered)
  {
    var h' := AddList(h, t, list);
    assert ClassOf(h', c).inheritance == ClassOf(h, c).inheritance;
    ForwardStaysExactly(h, t, list, c, u);
  }

  // ----- an outdated forward method

  const OLD_FORWARD := Method(FORWARD_METHODID, 1, false)
  const NEW_FORWARD := Method(FORWARD_METHODID, 2, false)
  const OWN_LIST := MethodList(0, [OLD_FORWARD])
  const CATEGORY := MethodList(5, [NEW_FORWARD])
  const ROOT := ClassRef(0, false)
  const ONE_CLASS: Hierarchy :=
    [ClassPair(1, None, [], false, Class([OWN_LIST], INHERIT_ALL), Class([MethodList(0, [])], INHERIT_ALL))]

  /** What a search in a class without superclass and mixins sees. */
  lemma {:induction false} SoleListings(h: Hierarchy, lists: seq<MethodList>)
    requires ValidHierarchy(h) && |h| == 1 && h[0].superclass.None? && h[0].mixins == []
    requires h[0].infra == Class(lists, INHERIT_ALL)
    ensures var b := Block(ROOT, h[0].classid, NewestFirst(lists), false);
            Listings(Blocks(h, ROOT, INHERIT_ALL)) == ListingsOf(b, b.lists)
  {
    var b := Block(ROOT, h[0].classid, NewestFirst(lists), false);
    assert lists[0..|lists|] == lists;
    assert Blocks(h, ROOT, INHERIT_ALL) == [b];
    assert Listings([b]) == ListingsOf(b, b.lists) + [];
  }

  lemma {:induction false} OneOrTwoLists(b: Block, x: MethodList, y: MethodList)
    ensures NewestFirst([x]) == [x] && NewestFirst([x, y]) == [y, x]
    ensures ListingsOf(b, [x]) == [Listing(b.cls, b.classid, x)]
    ensures ListingsOf(b, [y, x]) == [Listing(b.cls, b.classid, y), Listing(b.cls, b.classid, x)]
  {
    assert [x, y][..1] == [x] && [x][..0] == [];
    assert [y, x][1..] == [x] && [x][1..] == [];
  }

  lemma {:induction false} ExampleListings()
    ensures SortedHierarchy(ONE_CLASS) && Prior(ONE_CLASS, ROOT) == [Listing(ROOT, 1, OWN_LIST)]
    ensures Seen(ONE_CLASS, ROOT, CATEGORY, ROOT) == [Listing(ROOT, 1, CATEGORY), Listing(ROOT, 1, OWN_LIST)]
    ensures Forwards(Listing(ROOT, 1, OWN_LIST)) && Forwards(Listing(ROOT, 1, CATEGORY))
  {
    var h' := AddList(ONE_CLASS, ROOT, CATEGORY);
    assert h'[0].infra.lists == [OWN_LIST, CATEGORY];
    OneOrTwoLists(Block(ROOT, 1, [OWN_LIST], false), OWN_LIST, CATEGORY);
    OneOrTwoLists(Block(ROOT, 1, [CATEGORY, OWN_LIST], false), OWN_LIST, CATEGORY);
    SoleListings(ONE_CLASS, [OWN_LIST]);
    SoleListings(h', [OWN_LIST, CATEGORY]);
  }

  lemma {:induction false} NothingFound(h: Hierarchy, methodid: nat)
    requires h == ONE_CLASS || h == AddList(ONE_CLASS, ROOT, CATEGORY)
    requires methodid != FORWARD_METHODID
    ensures ValidHierarchy(h) && SearchResult(h, ROOT, SearchDefault(methodid), INHERIT_ALL) == Failed(ENOENT)
  {
    ExampleListings();
    var s := SearchDefault(methodid);
    var ls := Listings(Blocks(h, ROOT, INHERIT_ALL));
    DefaultSearchFindsFirst(h, ROOT, s, INHERIT_ALL);
    assert forall l | l in ls :: l.list == OWN_LIST || l.list == CATEGORY;
    NoImplementation(ls, s);
  }

  /** A class that has forwarded a call goes on to do so with the old forward method, though a search finds the new one. */
  lemma {:induction false} ForwardGoesStale(u: Settings, methodid: nat)
    requires methodid != FORWARD_METHODID
    ensures var h' := AddList(ONE_CLASS, ROOT, CATEGORY);
            && ValidHierarchy(ONE_CLASS) && ForwardMethod(ONE_CLASS, ROOT, u) == Some(OLD_FORWARD)
            && Uncached(ONE_CLASS, ROOT, u, None, SearchDefault(methodid)) == Some(OLD_FORWARD)
            && ValidHierarchy(h') && Uncached(h', ROOT, u, Some(OLD_FORWARD), SearchDefault(methodid)) == Some(OLD_FORWARD)
            && Uncached(h', ROOT, u, None, SearchDefault(methodid)) == Some(NEW_FORWARD)
  {
    ExampleListings();
    var h' := AddList(ONE_CLASS, ROOT, CATEGORY);
    assert ClassOf(h', ROOT).inheritance == INHERIT_ALL;
    NothingFound(ONE_CLASS, methodid);
    NothingFound(h', methodid);
    ForwardByPosition(ONE_CLASS, ROOT, u);
    ForwardByPosition(h', ROOT, u);
  }

  lemma {:induction false} Remembered(cls: RuntimeClass, u: Settings, methodid: nat)
    requires cls.ref == ROOT && cls.Valid(ONE_CLASS, u) && cls.Fresh(ONE_CLASS, u)
    requires methodid in cls.Cached() && methodid !in u.supers && methodid != FORWARD_METHODID
    ensures cls.forwardmethod == Some(OLD_FORWARD)
  {
    ForwardGoesStale(u, methodid);
    NothingFound(ONE_CLASS, methodid);
    assert Agreeing(ONE_CLASS, ROOT, u, cls.forwardmethod, SearchDefault(methodid), cls.Cached()[methodid]);
  }

  lemma {:induction false} DefaultLeavesRoom()
    ensures LeavesRoom(DEFAULT_CACHE_SIZE, 0)
  {
    assert RoundedLog2(DEFAULT_CACHE_SIZE) == Log2From(8, 3, DEFAULT_CACHE_SIZE) == 3;
    assert Pow2(3) == 8;
  }

  /** A universe with this class, in which a call has been forwarded. */
  method ForwardedCall(methodid: nat) returns (universe: Universe, imp: Option<nat>)
    requires 0 < methodid < UINT32_SIZE && methodid != FORWARD_METHODID
    ensures universe.Valid() && universe.hierarchy == ONE_CLASS && universe.settings == Settings(0, None, map[])
    ensures |universe.classes| == 1 && universe.classes[0].ref == ROOT && universe.classes[0].forwardmethod == Some(OLD_FORWARD)
    ensures fresh(universe) && fresh(universe.classes[0]) && fresh(universe.classes[0].Repr()) && imp == Some(OLD_FORWARD.imp)
  {
    hide Coherent, Agreeing, SortedHierarchy, ValidHierarchy, Listings, Blocks, Seen, SearchResult, Uncached;
    hide AddList, LeavesRoom, Forwards, ForwardMethod;
    var u := Settings(0, None, map[]);
    ExampleListings();
    DefaultLeavesRoom();
    ForwardGoesStale(u, methodid);
    var cls := new RuntimeClass(ROOT, false);
    universe := new Universe(ONE_CLASS, u, [cls]);
    imp := universe.Call(0, Inline, methodid, DEFAULT_CACHE_SIZE, false);
    Remembered(cls, u, methodid);
  }

  /** A new category with a forward: method does not reach it. */
  method CallAcrossNewForward(methodid: nat) returns (universe: Universe, first: Option<nat>, second: Option<nat>)
    requires 0 < methodid < UINT32_SIZE && methodid != FORWARD_METHODID
    ensures universe.Valid() && |universe.classes| == 1 && universe.classes[0].ref == ROOT
    ensures first == Some(OLD_FORWARD.imp) && second == Some(OLD_FORWARD.imp)
    ensures ImpOf(Uncached(universe.hierarchy, ROOT, universe.settings, None, SearchDefault(methodid))) == Some(NEW_FORWARD.imp)
  {
    hide Coherent, Agreeing, SortedHierarchy, ValidHierarchy, Listings, Blocks, Seen, SearchResult, Uncached;
    hide AddList, LeavesRoom, Forwards, ForwardMethod;
    universe, first := ForwardedCall(methodid);
    ExampleListings();
    ForwardGoesStale(universe.settings, methodid);
    var _ := universe.AddMethodlist(ROOT, CATEGORY);
    second := universe.Call(0, Inline, methodid, DEFAULT_CACHE_SIZE, true);
  }
}
