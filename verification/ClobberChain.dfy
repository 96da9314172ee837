/** The enumerator of all implementations of a method in one class: a default search, continued by overridden searches. */
module ClobberChain {
  import opened Prelude
  import opened SearchSpec
  import opened MethodSearch
  import opened SearchTheorems
  import opened SearchLaws

  /** Duplicate categories are refused when they are loaded, and only the class itself has category 0. */
  ghost predicate DistinctCategories(lists: seq<MethodList>) {
    forall i, j | 0 <= i < j < |lists| :: lists[i].categoryid != lists[j].categoryid
  }

  lemma {:induction false} FromCategoryAt(lists: seq<MethodList>, k: nat)
    requires DistinctCategories(lists) && k < |lists|
    ensures FromCategory(lists, lists[k].categoryid) == lists[k..]
  {
    if k > 0 {
      FromCategoryAt(lists[1..], k - 1);
      assert lists[1..][k - 1..] == lists[k..];
    } else {
      assert lists[0..] == lists;
    }
  }

  lemma {:induction false} NoOthers(b: Block, lists: seq<MethodList>, categoryid: nat)
    requires forall l | l in lists :: l.categoryid != categoryid
    ensures Others(ListingsOf(b, lists), b.classid, categoryid) == ListingsOf(b, lists)
    decreases |lists|
  {
    if lists != [] {
      NoOthers(b, lists[1..], categoryid);
      assert ListingsOf(b, lists)[1..] == ListingsOf(b, lists[1..]);
    }
  }

  /** The first implementation is at some list, and the others are in the lists after it. */
  lemma {:induction false} LaterImplementations(ls: seq<Listing>, s: Search)
    requires ls != [] && !Has(ls[0], s)
    ensures Implementations(ls, s) == Implementations(ls[1..], s)
  {
    var later := Implementations(ls[1..], s);
    assert [] + later == later;
  }

  lemma {:induction false} FirstAndOthers(b: Block, lists: seq<MethodList>, s: Search) returns (k: nat)
    requires Implementations(ListingsOf(b, lists), s) != []
    ensures var impls := Implementations(ListingsOf(b, lists), s);
            && k < |lists| && impls[0].cls == b.cls && impls[0].list == lists[k] && Matches(impls[0].found, s)
            && impls[1..] == Implementations(ListingsOf(b, lists[k + 1..]), s)
  {
    var ls := ListingsOf(b, lists);
    assert ls[1..] == ListingsOf(b, lists[1..]);
    if Has(ls[0], s) {
      k := 0;
      FirstImplementation(ls, s, 0);
    } else {
      LaterImplementations(ls, s);
      k := FirstAndOthers(b, lists[1..], s);
      k := k + 1;
      assert lists[1..][k..] == lists[k + 1..];
    }
  }

  lemma {:induction false} NextImplementation(b: Block, lists: seq<MethodList>, from: nat, s: Search) returns (k: nat)
    requires from <= |lists| && Implementations(ListingsOf(b, lists[from..]), s) != []
    ensures from <= k < |lists|
    ensures var impls := Implementations(ListingsOf(b, lists[from..]), s);
            && impls[0].cls == b.cls && impls[0].list == lists[k] && Matches(impls[0].found, s)
            && impls[1..] == Implementations(ListingsOf(b, lists[k + 1..]), s)
  {
    k := FirstAndOthers(b, lists[from..], s);
    assert lists[from..][k + 1..] == lists[from + k + 1..];
    k := from + k;
  }

  /** What is enumerated: all implementations, up to one that must not be an override but is. */
  function Chain(impls: seq<Hit>): seq<Hit> {
    if impls == [] || (impls[0].found.fatal && |impls| > 1) then [] else [impls[0]] + Chain(impls[1..])
  }

  lemma {:induction false} ChainIsComplete(impls: seq<Hit>)
    ensures Chain(impls) == impls <==> forall i | 0 <= i < |impls| - 1 :: !impls[i].found.fatal
  {
    if |impls| > 1 {
      ChainIsComplete(impls[1..]);
      assert impls == [impls[0]] + impls[1..];
      assert !impls[0].found.fatal ==> Chain(impls)[1..] == Chain(impls[1..]);
      if forall i | 0 <= i < |impls[1..]| - 1 :: !impls[1..][i].found.fatal {
        assert forall i | 1 <= i < |impls| - 1 :: impls[i] == impls[1..][i - 1];
      }
    }
  }

  /** The flags of a search that does not leave the class. */
  function OwnInheritance(h: Hierarchy, c: ClassRef): Inheritance
    requires c.pair < |h|
  {
    ClassOf(h, c).inheritance.Or(INHERIT_ALL.(superclass := true, protocols := true, protocolCategories := true))
  }

  class Enumerator {
    const h: Hierarchy
    const c: ClassRef
    const methodid: nat
    var args: Search
    // the methodlists before this one, newest first, have been looked at
    ghost var from: nat

    ghost predicate Enumerable() {
      && SortedHierarchy(h) && c.pair < |h|
      && DistinctCategories(VisibleLists(ClassOf(h, c), OwnInheritance(h, c)))
    }

    ghost function Own(): Block
      requires Enumerable()
    {
      Block(c, h[c.pair].classid, VisibleLists(ClassOf(h, c), OwnInheritance(h, c)), false)
    }

    ghost predicate Valid()
      reads this
    {
      && Enumerable() && from <= |Own().lists|
      && if from == 0 then args == SearchDefault(methodid)
         else args == SearchOverridden(methodid, h[c.pair].classid, Own().lists[from - 1].categoryid)
    }

    /** The implementations that are still to come. */
    ghost function Remaining(): seq<Hit>
      requires Valid()
      reads this
    {
      Implementations(ListingsOf(Own(), Own().lists[from..]), SearchDefault(methodid))
    }

    constructor (h: Hierarchy, c: ClassRef, methodid: nat)
      requires SortedHierarchy(h) && c.pair < |h|
      requires DistinctCategories(VisibleLists(ClassOf(h, c), OwnInheritance(h, c)))
      ensures Valid() && this.h == h && this.c == c && this.methodid == methodid
      ensures Remaining() == Implementations(ListingsOf(Own(), Own().lists), SearchDefault(methodid))
    {
      this.h, this.c, this.methodid := h, c, methodid;
      args, from := SearchDefault(methodid), 0;
      new;
      assert Own().lists[0..] == Own().lists;
    }

    /** The search of the next call goes through what remains. */
    lemma {:induction false} SearchesRemaining()
      requires Valid()
      ensures SearchResult(h, c, args, OwnInheritance(h, c)) == Verdict(Remaining())
    {
      var b, s := Own(), SearchDefault(methodid);
      assert Blocks(h, c, OwnInheritance(h, c)) == [b];
      assert Listings([b]) == ListingsOf(b, b.lists) + [] == ListingsOf(b, b.lists);
      if from == 0 {
        DefaultSearchFindsFirst(h, c, args, OwnInheritance(h, c));
        assert b.lists[0..] == b.lists;
      } else {
        OverriddenSearchContinues(h, c, args, OwnInheritance(h, c), 0);
        FromCategoryAt(b.lists, from - 1);
        assert b.lists[from - 1..][1..] == b.lists[from..];
        assert ListingsOf(b, b.lists[from..]) + [] == ListingsOf(b, b.lists[from..]);
        NoOthers(b, b.lists[from..], args.categoryid);
        assert [b][1..] == [];
      }
    }

    method Next() returns (imp: Option<nat>)
      requires Valid()
      modifies this
      ensures Valid()
      ensures var rest := old(Remaining());
              if Verdict(rest).Failed? then imp == None && Remaining() == rest
              else imp == Some(rest[0].found.imp) && Remaining() == rest[1..]
    {
      hide SearchResult, ListingsOf, OwnInheritance, VisibleLists, DistinctCategories;
      SearchesRemaining();
      var r := SearchMethod(h, c, args, OwnInheritance(h, c));
      match r
      case Failed(_) =>
        return None;
      case Found(hit) =>
        ghost var k := NextImplementation(Own(), Own().lists, from, SearchDefault(methodid));
        args := SearchOverridden(hit.found.methodid, h[hit.cls.pair].classid, hit.list.categoryid);
        from := k + 1;
        return Some(hit.found.imp);
    }
  }

  function Imps(impls: seq<Hit>): (r: seq<nat>)
    ensures |r| == |impls|
  {
    if impls == [] then [] else [impls[0].found.imp] + Imps(impls[1..])
  }

  lemma {:induction false} ImpsNext(imps: seq<nat>, chain: seq<Hit>)
    requires chain != []
    ensures imps + Imps(chain) == (imps + [chain[0].found.imp]) + Imps(chain[1..])
  {
  }

  // ----- which lists of the class are visited

  /** The enumeration ends at this list: its method must not be an override, but an older list knows the method, too. */
  ghost predicate EndsAt(cls: Class, methodid: nat, j: int) {
    var own := cls.inheritance;
    && Shows(cls, own.cls, own.categories, j) && OlderKnows(cls, own.cls, own.categories, methodid, j)
    && exists m: Method :: IsFirstOf(cls.lists[j], methodid, m) && m.fatal
  }

  /** The list knows the method, and the enumeration has not ended yet. */
  ghost predicate Visited(cls: Class, methodid: nat, k: int) {
    && Shows(cls, cls.inheritance.cls, cls.inheritance.categories, k) && Knows(cls.lists[k], methodid)
    && forall j | k <= j < |cls.lists| :: !EndsAt(cls, methodid, j)
  }

  /** The methodlists at these positions are those that are visited, the newest one first, with these implementations. */
  ghost predicate VisitsAt(cls: Class, methodid: nat, imps: seq<nat>, at: seq<nat>) {
    && |at| == |imps| && (forall i, j | 0 <= i < j < |at| :: at[j] < at[i])
    && (forall k: nat :: k in at <==> Visited(cls, methodid, k))
    && forall i | 0 <= i < |at| :: at[i] < |cls.lists| && exists m :: IsFirstOf(cls.lists[at[i]], methodid, m) && m.imp == imps[i]
  }

  /** The enumeration of listings ends at this one. */
  ghost predicate Stops(ls: seq<Listing>, s: Search, j: nat) {
    && j < |ls| && Has(ls[j], s) && FirstMatch(ls[j].list.methods, s).value.fatal
    && exists k :: j < k < |ls| && Has(ls[k], s)
  }

  ghost predicate Reached(ls: seq<Listing>, s: Search, i: nat) {
    i < |ls| && Has(ls[i], s) && forall j: nat | j <= i :: !Stops(ls, s, j)
  }

  ghost predicate ChainsAt(ls: seq<Listing>, s: Search, imps: seq<nat>, at: seq<nat>) {
    && |at| == |imps| && (forall i, j | 0 <= i < j < |at| :: at[i] < at[j])
    && (forall i: nat :: i in at <==> Reached(ls, s, i))
    && forall i | 0 <= i < |at| :: at[i] < |ls| && Has(ls[at[i]], s) && FirstMatch(ls[at[i]].list.methods, s).value.imp == imps[i]
  }

  lemma {:induction false} StopsLater(ls: seq<Listing>, s: Search, j: nat)
    requires ls != []
    ensures Stops(ls, s, j + 1) == Stops(ls[1..], s, j)
  {
    assert forall k | 0 < k < |ls| :: ls[k] == ls[1..][k - 1];
    if Stops(ls[1..], s, j) {
      var k :| j < k < |ls[1..]| && Has(ls[1..][k], s);
      assert Has(ls[k + 1], s);
    }
    if Stops(ls, s, j + 1) {
      var k :| j + 1 < k < |ls| && Has(ls[k], s);
      assert Has(ls[1..][k - 1], s);
    }
  }

  lemma {:induction false} ReachedLater(ls: seq<Listing>, s: Search, i: nat)
    requires ls != []
    ensures Reached(ls, s, i + 1) == (!Stops(ls, s, 0) && Reached(ls[1..], s, i))
  {
    hide Stops;
    forall j: nat ensures Stops(ls, s, j + 1) == Stops(ls[1..], s, j) {
      StopsLater(ls, s, j);
    }
    if Reached(ls[1..], s, i) && !Stops(ls, s, 0) {
      forall j: nat | j <= i + 1 ensures !Stops(ls, s, j) {
        assert j > 0 ==> !Stops(ls[1..], s, j - 1);
      }
    }
    if Reached(ls, s, i + 1) {
      forall j: nat | j <= i ensures !Stops(ls[1..], s, j) {
        assert !Stops(ls, s, j + 1);
      }
    }
  }

  function Later(at: seq<nat>): (r: seq<nat>)
    ensures |r| == |at| && forall i | 0 <= i < |at| :: r[i] == at[i] + 1
    ensures forall k: nat :: k in r <==> k > 0 && k - 1 in at
  {
    if at == [] then [] else [at[0] + 1] + Later(at[1..])
  }

  function FromZero(at: seq<nat>): (r: seq<nat>)
    ensures |r| == |at| + 1 && r[0] == 0 && forall i | 0 < i < |r| :: r[i] == at[i - 1] + 1
    ensures forall k: nat :: k in r <==> k == 0 || k - 1 in at
  {
    [0] + Later(at)
  }

  lemma {:induction false} ReachedAt(ls: seq<Listing>, s: Search, at: seq<nat>)
    requires ls != [] && !Stops(ls, s, 0) && forall k: nat :: k in at <==> Reached(ls[1..], s, k)
    ensures forall k: nat :: k in Later(at) <==> k > 0 && Reached(ls, s, k)
    ensures Reached(ls, s, 0) == Has(ls[0], s)
  {
    hide Stops, FirstMatch;
    forall k: nat | k > 0 ensures Reached(ls, s, k) == Reached(ls[1..], s, k - 1) {
      ReachedLater(ls, s, k - 1);
    }
  }

  lemma {:induction false} ChainLater(ls: seq<Listing>, s: Search, imps: seq<nat>, at: seq<nat>)
    requires ls != [] && ChainsAt(ls[1..], s, imps, at) && !Stops(ls, s, 0) && !Has(ls[0], s)
    ensures ChainsAt(ls, s, imps, Later(at))
  {
    hide Stops, FirstMatch, Reached, Later;
    ReachedAt(ls, s, at);
    assert forall i | 0 <= i < |at| :: ls[Later(at)[i]] == ls[1..][at[i]];
  }

  lemma {:induction false} ChainNow(ls: seq<Listing>, s: Search, imps: seq<nat>, at: seq<nat>)
    requires ls != [] && ChainsAt(ls[1..], s, imps, at) && !Stops(ls, s, 0) && Has(ls[0], s)
    ensures ChainsAt(ls, s, [FirstMatch(ls[0].list.methods, s).value.imp] + imps, FromZero(at))
  {
    hide Stops, FirstMatch, Reached, Later, FromZero;
    ReachedAt(ls, s, at);
    var all, imps' := FromZero(at), [FirstMatch(ls[0].list.methods, s).value.imp] + imps;
    forall k: nat ensures k in all <==> Reached(ls, s, k) {
      assert k > 0 ==> (k - 1 in at <==> k in Later(at));
    }
    forall i | 0 <= i < |all| ensures all[i] < |ls| && Has(ls[all[i]], s) && FirstMatch(ls[all[i]].list.methods, s).value.imp == imps'[i] {
      if i > 0 {
        assert ls[all[i]] == ls[1..][at[i - 1]] && imps'[i] == imps[i - 1];
      }
    }
  }

  function ImpsOf(ls: seq<Listing>, s: Search): seq<nat> {
    Imps(Chain(Implementations(ls, s)))
  }

  lemma {:induction false} ImpsOfFirst(ls: seq<Listing>, s: Search)
    requires ls != []
    ensures ImpsOf(ls, s) ==
              if !Has(ls[0], s) then ImpsOf(ls[1..], s)
              else if Stops(ls, s, 0) then []
              else [FirstMatch(ls[0].list.methods, s).value.imp] + ImpsOf(ls[1..], s)
  {
    hide FirstMatch, Implementations;
    NoImplementation(ls[1..], s);
    assert forall k | 0 < k < |ls| :: ls[k] == ls[1..][k - 1];
    if !Has(ls[0], s) {
      LaterImplementations(ls, s);
    } else {
      FirstImplementation(ls, s, 0);
      var rest := Implementations(ls[1..], s);
      assert Implementations(ls, s)[1..] == rest;
      if rest != [] {
        var l :| l in ls[1..] && Has(l, s);
        var k :| 0 <= k < |ls[1..]| && ls[1..][k] == l;
        assert Has(ls[k + 1], s);
      }
    }
  }

  /** The chain of the implementations in some listings, by positions. */
  lemma {:induction false} ChainAt(ls: seq<Listing>, s: Search) returns (at: seq<nat>)
    ensures ChainsAt(ls, s, ImpsOf(ls, s), at)
  {
    if ls == [] {
      return [];
    }
    hide *;
    at := ChainAt(ls[1..], s);
    ImpsOfFirst(ls, s);
    if Stops(ls, s, 0) {
      NoneReached(ls, s);
      at := [];
    } else if Has(ls[0], s) {
      ChainNow(ls, s, ImpsOf(ls[1..], s), at);
      at := FromZero(at);
    } else {
      ChainLater(ls, s, ImpsOf(ls[1..], s), at);
      at := Later(at);
    }
  }

  lemma {:induction false} NoneReached(ls: seq<Listing>, s: Search)
    requires ls != [] && Stops(ls, s, 0)
    ensures Has(ls[0], s) && ChainsAt(ls, s, [], [])
  {
  }

  // ----- by positions of the methodlists

  /** The listings of a class, as positions of its methodlists counted from the end. */
  ghost predicate ListedBackwards(cls: Class, ls: seq<Listing>, n: nat) {
    && n == (if cls.inheritance.categories then 1 else |cls.lists|) <= |cls.lists|
    && |ls| == n - (if cls.inheritance.cls then 1 else 0)
    && forall i | 0 <= i < |ls| :: ls[i].list == cls.lists[n - 1 - i]
  }

  lemma {:induction false} EndsWhereItStops(cls: Class, ls: seq<Listing>, methodid: nat, n: nat, k: nat)
    requires ListedBackwards(cls, ls, n) && k < n
    ensures EndsAt(cls, methodid, k) == Stops(ls, SearchDefault(methodid), n - 1 - k)
  {
    hide FirstMatch, Knows, IsFirstOf;
    var s, own := SearchDefault(methodid), cls.inheritance;
    forall i | 0 <= i < |ls| ensures Has(ls[i], s) == Knows(cls.lists[n - 1 - i], methodid) {
      HasIsKnows(ls[i], methodid);
    }
    if n - 1 - k < |ls| {
      var list := cls.lists[k];
      FirstMatchIsFirst(list.methods, list.categoryid, methodid);
      forall m | IsFirstOf(list, methodid, m) ensures FirstMatch(list.methods, s) == Some(m) {
        OnlyOneIsFirst(list, methodid, m);
      }
      if OlderKnows(cls, own.cls, own.categories, methodid, k) {
        var j :| Shows(cls, own.cls, own.categories, j) && j < k && Knows(cls.lists[j], methodid);
        assert Has(ls[n - 1 - j], s);
      }
      if Stops(ls, s, n - 1 - k) {
        var x :| n - 1 - k < x < |ls| && Has(ls[x], s);
        assert Shows(cls, own.cls, own.categories, n - 1 - x) && Knows(cls.lists[n - 1 - x], methodid);
      }
    }
  }

  lemma {:induction false} VisitedIsReached(cls: Class, ls: seq<Listing>, methodid: nat, n: nat, k: nat)
    requires ListedBackwards(cls, ls, n) && k < n
    ensures Visited(cls, methodid, k) == Reached(ls, SearchDefault(methodid), n - 1 - k)
  {
    hide FirstMatch, Knows, EndsAt, Stops;
    var s := SearchDefault(methodid);
    forall j: nat | j < n ensures EndsAt(cls, methodid, j) == Stops(ls, s, n - 1 - j) {
      EndsWhereItStops(cls, ls, methodid, n, j);
    }
    NothingBeyond(cls, methodid, n);
    if n - 1 - k < |ls| {
      HasIsKnows(ls[n - 1 - k], methodid);
    }
    if Visited(cls, methodid, k) {
      forall i: nat | i <= n - 1 - k ensures !Stops(ls, s, i) {
        assert !EndsAt(cls, methodid, n - 1 - i);
      }
    }
    if Reached(ls, s, n - 1 - k) {
      forall j | k <= j < |cls.lists| ensures !EndsAt(cls, methodid, j) {
        assert j < n ==> !Stops(ls, s, n - 1 - j);
      }
    }
  }

  lemma {:induction false} NothingBeyond(cls: Class, methodid: nat, n: nat)
    requires n == (if cls.inheritance.categories then 1 else |cls.lists|) <= |cls.lists|
    ensures forall j | n <= j < |cls.lists| :: !EndsAt(cls, methodid, j) && !Visited(cls, methodid, j)
  {
  }

  function Backwards(at: seq<nat>, n: nat): (r: seq<nat>)
    requires forall i | 0 <= i < |at| :: at[i] < n
    ensures |r| == |at| && forall i | 0 <= i < |at| :: r[i] == n - 1 - at[i]
    ensures forall k: nat :: k in r <==> k < n && n - 1 - k in at
  {
    if at == [] then [] else [n - 1 - at[0]] + Backwards(at[1..], n)
  }

  lemma {:induction false} ChainVisits(cls: Class, ls: seq<Listing>, methodid: nat, n: nat, imps: seq<nat>, at: seq<nat>)
    requires ListedBackwards(cls, ls, n) && ChainsAt(ls, SearchDefault(methodid), imps, at)
    ensures (forall i | 0 <= i < |at| :: at[i] < n) && VisitsAt(cls, methodid, imps, Backwards(at, n))
  {
    hide FirstMatch, Knows, EndsAt, Stops, Reached, Visited, IsFirstOf, Backwards;
    var s := SearchDefault(methodid);
    forall k: nat ensures k in Backwards(at, n) <==> Visited(cls, methodid, k) {
      if k < n {
        VisitedIsReached(cls, ls, methodid, n, k);
      } else {
        VisitedIsBelow(cls, methodid, n, k);
      }
    }
    forall i | 0 <= i < |at|
      ensures exists m :: IsFirstOf(cls.lists[n - 1 - at[i]], methodid, m) && m.imp == imps[i]
    {
      var list := cls.lists[n - 1 - at[i]];
      FirstMatchIsFirst(list.methods, list.categoryid, methodid);
    }
  }

  lemma {:induction false} VisitedIsBelow(cls: Class, methodid: nat, n: nat, k: nat)
    requires n == (if cls.inheritance.categories then 1 else |cls.lists|) && k >= n
    ensures !Visited(cls, methodid, k)
  {
  }

  /** The chain of a class, by positions of its methodlists. */
  lemma {:induction false} ClassChain(h: Hierarchy, c: ClassRef, methodid: nat) returns (at: seq<nat>)
    requires ValidHierarchy(h) && c.pair < |h|
    ensures var b := Block(c, h[c.pair].classid, VisibleLists(ClassOf(h, c), OwnInheritance(h, c)), false);
            VisitsAt(Side(h, c.pair, c.meta), methodid, ImpsOf(ListingsOf(b, b.lists), SearchDefault(methodid)), at)
  {
    var cls, inh := Side(h, c.pair, c.meta), OwnInheritance(h, c);
    var b := Block(c, h[c.pair].classid, VisibleLists(ClassOf(h, c), inh), false);
    var ls, n := ListingsOf(b, b.lists), if inh.categories then 1 else |cls.lists|;
    VisibleAt(b, cls, inh);
    at := ChainAt(ls, SearchDefault(methodid));
    assert ListedBackwards(cls, ls, n);
    hide *;
    ChainVisits(cls, ls, methodid, n, ImpsOf(ls, SearchDefault(methodid)), at);
    at := Backwards(at, n);
  }

  /** The loop over the chain visits the implementations of the class, newest first, each once, and then ends. */
  method ClobberChainFor(h: Hierarchy, c: ClassRef, methodid: nat) returns (imps: seq<nat>)
    requires SortedHierarchy(h) && c.pair < |h|
    requires DistinctCategories(VisibleLists(ClassOf(h, c), OwnInheritance(h, c)))
    ensures var b := Block(c, h[c.pair].classid, VisibleLists(ClassOf(h, c), OwnInheritance(h, c)), false);
            imps == ImpsOf(ListingsOf(b, b.lists), SearchDefault(methodid))
    ensures exists at :: VisitsAt(Side(h, c.pair, c.meta), methodid, imps, at)
  {
    hide VisitsAt, SearchResult, VisibleLists;
    var rover := new Enumerator(h, c, methodid);
    ghost var all := Imps(Chain(rover.Remaining()));
    imps := [];
    ghost var chain := Chain(rover.Remaining());
    var imp := rover.Next();
    while imp.Some?
      invariant rover.Valid() && all == imps + Imps(chain)
      invariant if imp.None? then chain == []
                else chain != [] && imp.value == chain[0].found.imp && Chain(rover.Remaining()) == chain[1..]
      decreases |chain|
    {
      ImpsNext(imps, chain);
      imps := imps + [imp.value];
      chain := chain[1..];
      imp := rover.Next();
    }
    ghost var at := ClassChain(h, c, methodid);
  }
}
