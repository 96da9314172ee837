/** Method dispatch: what the caches of classes hold, and how they keep up with the methodlists. */
module Dispatch {
  import opened Prelude
  import opened SearchSpec
  import opened MethodSearch
  import opened SearchTheorems
  import SearchUpdates
  import opened Masks
  import opened CacheSlots
  import opened Cache
  import opened CacheSizes

  const FORWARD_METHODID: nat := 0x295a_a601

  /** What is the same for all classes of a universe. A superid stands for a method as searched from the super of a class. */
  datatype Settings = Settings(fillrate: nat, forward: Option<Method>, supers: map<nat, (nat, nat)>)

  // ----- what is to be called

  /** The method that handles what no other does: that of the class, or that of the universe. */
  function ForwardMethod(h: Hierarchy, c: ClassRef, u: Settings): Option<Method>
    requires ValidHierarchy(h) && c.pair < |h|
  {
    match SearchResult(h, c, SearchDefault(FORWARD_METHODID), ClassOf(h, c).inheritance)
    case Found(hit) => Some(hit.found)
    case Failed(_) => u.forward
  }

  /** The method found without any cache; `memo` is the forward method that the class remembers. None is a fatal error. */
  function Uncached(h: Hierarchy, c: ClassRef, u: Settings, memo: Option<Method>, s: Search): Option<Method>
    requires ValidHierarchy(h) && c.pair < |h|
  {
    match SearchResult(h, c, s, ClassOf(h, c).inheritance)
    case Found(hit) => Some(hit.found)
    case Failed(_) => if memo.Some? then memo else ForwardMethod(h, c, u)
  }

  function ImpOf(m: Option<Method>): Option<nat> {
    if m.None? then None else Some(m.value.imp)
  }

  // ----- the same, by positions of methodlists

  /** This listing is the first one with the method, and the method is not an override that must not be one. */
  ghost predicate Answers(ls: seq<Listing>, methodid: nat, i: nat) {
    var s := SearchDefault(methodid);
    && i < |ls| && Has(ls[i], s) && (forall j | 0 <= j < i :: !Has(ls[j], s))
    && !(FirstMatch(ls[i].list.methods, s).value.fatal && exists k :: i < k < |ls| && Has(ls[k], s))
  }

  ghost predicate Unanswered(ls: seq<Listing>, methodid: nat) {
    forall i: nat :: !Answers(ls, methodid, i)
  }

  /** The implementation in the listing that answers, for each that does (there is at most one). */
  ghost predicate AnsweredBy(ls: seq<Listing>, methodid: nat, imp: Option<nat>) {
    forall i: nat | Answers(ls, methodid, i) :: imp == Some(FirstMatch(ls[i].list.methods, SearchDefault(methodid)).value.imp)
  }

  /** What is called: the method if a listing answers, else what is remembered, else forward:, else the default of the universe. */
  ghost predicate CallsByPosition(ls: seq<Listing>, u: Settings, memo: Option<Method>, methodid: nat, imp: Option<nat>) {
    && AnsweredBy(ls, methodid, imp)
    && (Unanswered(ls, methodid) ==>
          if memo.Some? then imp == Some(memo.value.imp)
          else AnsweredBy(ls, FORWARD_METHODID, imp) && (Unanswered(ls, FORWARD_METHODID) ==> imp == ImpOf(u.forward)))
  }

  /** What a class sees, in order. */
  ghost function Linearized(h: Hierarchy, c: ClassRef): seq<Listing>
    requires ValidHierarchy(h) && c.pair < |h|
  {
    Listings(Blocks(h, c, ClassOf(h, c).inheritance))
  }

  lemma {:induction false} FirstListing(ls: seq<Listing>, s: Search) returns (i: nat)
    ensures i <= |ls| && (i < |ls| ==> Has(ls[i], s)) && forall j | 0 <= j < i :: !Has(ls[j], s)
  {
    if ls == [] || Has(ls[0], s) {
      i := 0;
    } else {
      i := FirstListing(ls[1..], s);
      i := i + 1;
    }
  }

  lemma {:induction false} SearchByPosition(h: Hierarchy, c: ClassRef, methodid: nat)
    requires ValidHierarchy(h) && c.pair < |h|
    ensures var ls, s := Linearized(h, c), SearchDefault(methodid);
            var r := SearchResult(h, c, s, ClassOf(h, c).inheritance);
            && (r.Failed? <==> Unanswered(ls, methodid))
            && forall i: nat | Answers(ls, methodid, i) ::
                 r == Found(Hit(ls[i].cls, ls[i].list, FirstMatch(ls[i].list.methods, s).value))
  {
    hide Blocks, FirstMatch, Listings, SearchResult;
    var ls, s := Linearized(h, c), SearchDefault(methodid);
    DefaultSearchFindsFirst(h, c, s, ClassOf(h, c).inheritance);
    var i := FirstListing(ls, s);
    VerdictByPosition(ls, s, i);
    assert forall j: nat | Answers(ls, methodid, j) :: j == i;
    assert SearchResult(h, c, s, ClassOf(h, c).inheritance).Found? ==> Answers(ls, methodid, i);
  }

  /** The search without any cache, by positions. */
  lemma {:induction false} UncachedByPosition(h: Hierarchy, c: ClassRef, u: Settings, memo: Option<Method>, methodid: nat)
    requires ValidHierarchy(h) && c.pair < |h|
    ensures CallsByPosition(Linearized(h, c), u, memo, methodid, ImpOf(Uncached(h, c, u, memo, SearchDefault(methodid))))
  {
    hide SearchResult, FirstMatch, Answers, Linearized;
    SearchByPosition(h, c, methodid);
    SearchByPosition(h, c, FORWARD_METHODID);
  }

  // ----- coherence

  /** This cached implementation is what would be found now. If it was forwarded, the class remembers the forward method. */
  ghost predicate Agreeing(h: Hierarchy, c: ClassRef, u: Settings, memo: Option<Method>, s: Search, imp: nat)
    requires ValidHierarchy(h) && c.pair < |h|
  {
    && ImpOf(Uncached(h, c, u, memo, s)) == Some(imp)
    && (SearchResult(h, c, s, ClassOf(h, c).inheritance).Failed? ==> memo.Some?)
  }

  /** All cached methods agree. Superids are not kept up to date. */
  ghost predicate Coherent(h: Hierarchy, c: ClassRef, u: Settings, memo: Option<Method>, cached: map<nat, nat>)
    requires ValidHierarchy(h) && c.pair < |h|
  {
    forall id | id in cached && id !in u.supers :: Agreeing(h, c, u, memo, SearchDefault(id), cached[id])
  }

  /** Remembering the forward method changes nothing. */
  lemma {:induction false} RememberForward(h: Hierarchy, c: ClassRef, u: Settings, cached: map<nat, nat>)
    requires ValidHierarchy(h) && c.pair < |h| && Coherent(h, c, u, None, cached)
    ensures Coherent(h, c, u, ForwardMethod(h, c, u), cached)
  {
    forall id | id in cached && id !in u.supers
      ensures Agreeing(h, c, u, ForwardMethod(h, c, u), SearchDefault(id), cached[id])
    {
      assert Agreeing(h, c, u, None, SearchDefault(id), cached[id]);
    }
  }

  /** A methodlist does not touch a cache that holds none of its methods. */
  lemma {:induction false} AddListKeepsCoherent(h: Hierarchy, t: ClassRef, list: MethodList, c: ClassRef, u: Settings, memo: Option<Method>,
                             cached: map<nat, nat>)
    requires ValidHierarchy(h) && t.pair < |h| && c.pair < |h| && Coherent(h, c, u, memo, cached)
    requires forall m | m in list.methods :: m.methodid !in cached
    ensures Coherent(SearchUpdates.AddList(h, t, list), c, u, memo, cached)
  {
    var h' := SearchUpdates.AddList(h, t, list);
    assert ClassOf(h', c).inheritance == ClassOf(h, c).inheritance;
    forall id | id in cached && id !in u.supers
      ensures Agreeing(h', c, u, memo, SearchDefault(id), cached[id])
    {
      SearchUpdates.UnrelatedListKeepsSearch(h, t, list, c, ClassOf(h, c).inheritance, id);
      assert Agreeing(h, c, u, memo, SearchDefault(id), cached[id]);
    }
  }

  /** Only a list with forward: can change what a class forwards to. */
  lemma {:induction false} AddListKeepsForward(h: Hierarchy, t: ClassRef, list: MethodList, c: ClassRef, u: Settings)
    requires ValidHierarchy(h) && t.pair < |h| && c.pair < |h|
    requires forall m | m in list.methods :: m.methodid != FORWARD_METHODID
    ensures ForwardMethod(SearchUpdates.AddList(h, t, list), c, u) == ForwardMethod(h, c, u)
  {
    SearchUpdates.UnrelatedListKeepsSearch(h, t, list, c, ClassOf(h, c).inheritance, FORWARD_METHODID);
    assert ClassOf(SearchUpdates.AddList(h, t, list), c).inheritance == ClassOf(h, c).inheritance;
  }

  // ----- classes

  /** The caches all classes start with are never filled; only a normal cache is. */
  datatype CachePivot = Initial | Empty | Normal(cache: Cache)

  /** How a call is compiled. */
  datatype Way = Inline | InlineVariable | InlineFull

  class RuntimeClass {
    const ref: ClassRef
    const alwaysEmpty: bool
    var cachepivot: CachePivot
    var ready: bool
    var forwardmethod: Option<Method>

    ghost function Repr(): set<object>
      reads this
    {
      {this} + if cachepivot.Normal? then {cachepivot.cache, cachepivot.cache.entries} else {}
    }

    /** No dispatch is under way. A cache can take one more entry than makes it grow. */
    ghost predicate Sound(u: Settings)
      reads Repr()
    {
      && (cachepivot.Normal? <==> ready && !alwaysEmpty)
      && (ready && alwaysEmpty ==> cachepivot.Empty?)
      && (cachepivot.Normal? ==> Roomy(cachepivot.cache, u.fillrate))
    }

    ghost function Cached(): map<nat, nat>
      reads this, Repr()
    {
      if cachepivot.Normal? && cachepivot.cache.Valid() then cachepivot.cache.Map() else map[]
    }

    ghost predicate Valid(h: Hierarchy, u: Settings)
      reads this, Repr()
    {
      SortedHierarchy(h) && ref.pair < |h| && Sound(u) && Coherent(h, ref, u, forwardmethod, Cached())
    }

    /** If the class remembers a forward method, it is the one that would be found now. */
    ghost predicate Fresh(h: Hierarchy, u: Settings)
      requires ValidHierarchy(h) && ref.pair < |h|
      reads this
    {
      forwardmethod.Some? ==> forwardmethod == ForwardMethod(h, ref, u)
    }

    /** Then every cached method is what would be found without any cache and without any memory. */
    lemma {:induction false} CachedIsFresh(h: Hierarchy, u: Settings, id: nat)
      requires Valid(h, u) && Fresh(h, u) && id in Cached() && id !in u.supers
      ensures ImpOf(Uncached(h, ref, u, None, SearchDefault(id))) == Some(Cached()[id])
    {
      assert Agreeing(h, ref, u, forwardmethod, SearchDefault(id), Cached()[id]);
    }

    /** The implementation in a cache, by positions. */
    lemma {:induction false} CachedByPosition(h: Hierarchy, u: Settings, id: nat)
      requires Valid(h, u) && id in Cached() && id !in u.supers
      ensures CallsByPosition(Linearized(h, ref), u, forwardmethod, id, Some(Cached()[id]))
    {
      UncachedByPosition(h, ref, u, forwardmethod, id);
      assert Agreeing(h, ref, u, forwardmethod, SearchDefault(id), Cached()[id]);
    }

    constructor (ref: ClassRef, alwaysEmpty: bool)
      ensures this.ref == ref && this.alwaysEmpty == alwaysEmpty && !ready && cachepivot == Initial && forwardmethod == None
    {
      this.ref, this.alwaysEmpty := ref, alwaysEmpty;
      ready, cachepivot, forwardmethod := false, Initial, None;
    }

    /** While the class is set up, it can be messaged, but nothing is cached. */
    method SetupInitializeCache(ghost h: Hierarchy, u: Settings)
      requires Valid(h, u) && cachepivot.Initial?
      modifies this`cachepivot
      ensures Valid(h, u) && cachepivot.Empty? && Repr() == old(Repr())
    {
      cachepivot := Empty;
    }

    /** Gives the class a cache, unless it is never to have one, and marks it as ready. */
    method SetupInitialCacheIfNeeded(ghost h: Hierarchy, u: Settings, n_entries: bv32, cachecount: nat) returns (count: nat)
      requires Valid(h, u) && (!ready ==> cachepivot.Empty?)
      requires !ready && !alwaysEmpty ==> LeavesRoom(n_entries, u.fillrate)
      modifies this`cachepivot, this`ready
      ensures Valid(h, u) && ready && fresh(Repr() - old(Repr()))
      ensures if old(ready) then cachepivot == old(cachepivot) else Cached() == map[]
      ensures !old(ready) && !alwaysEmpty ==> cachepivot.Normal? && cachepivot.cache.log2 == RoundedLog2(n_entries)
      ensures count == cachecount + if !old(ready) && !alwaysEmpty then 1 else 0
    {
      count := cachecount;
      if ready {
        return;
      }
      if !alwaysEmpty {
        var size, m := InitialSize(n_entries);
        SizeAboveOne(m);
        var icache := new Cache(size, m);
        count := count + 1;
        cachepivot := Normal(icache);
      }
      ready := true;
    }

    method SetupCaches(ghost h: Hierarchy, u: Settings, n_entries: bv32, cachecount: nat) returns (count: nat)
      requires Valid(h, u) && !ready && (!alwaysEmpty ==> LeavesRoom(n_entries, u.fillrate))
      modifies this`cachepivot, this`ready
      ensures Valid(h, u) && ready && fresh(Repr() - old(Repr())) && !cachepivot.Initial? && Cached() == map[]
      ensures if alwaysEmpty then cachepivot.Empty? else cachepivot.Normal? && cachepivot.cache.log2 == RoundedLog2(n_entries)
      ensures old(Fresh(h, u)) ==> Fresh(h, u)
      ensures count == cachecount + if !alwaysEmpty then 1 else 0
    {
      if cachepivot.Initial? {
        SetupInitializeCache(h, u);
      }
      count := SetupInitialCacheIfNeeded(h, u, n_entries, cachecount);
    }

    // ----- uncached search

    method SearchForwardmethod(h: Hierarchy, u: Settings) returns (m: Option<Method>)
      requires SortedHierarchy(h) && ref.pair < |h|
      ensures m == ForwardMethod(h, ref, u)
    {
      var r := SearchMethod(h, ref, SearchDefault(FORWARD_METHODID), ClassOf(h, ref).inheritance);
      match r
      case Found(hit) => return Some(hit.found);
      case Failed(_) => return u.forward;
    }

    /** The forward method is searched once, and then remembered. */
    method LazygetForwardmethod(h: Hierarchy, u: Settings) returns (m: Option<Method>)
      requires Valid(h, u)
      modifies this`forwardmethod
      ensures Valid(h, u) && m == forwardmethod
      ensures old(Fresh(h, u)) ==> Fresh(h, u)
      ensures m == if old(forwardmethod).Some? then old(forwardmethod) else ForwardMethod(h, ref, u)
    {
      m := forwardmethod;
      if m.None? {
        m := SearchForwardmethod(h, u);
        if m.Some? {
          RememberForward(h, ref, u, Cached());
          forwardmethod := m;
        }
      }
    }

    method SearchNofail(h: Hierarchy, u: Settings, s: Search) returns (m: Option<Method>)
      requires Valid(h, u)
      modifies this`forwardmethod
      ensures Valid(h, u) && m == Uncached(h, ref, u, old(forwardmethod), s)
      ensures old(Fresh(h, u)) ==> Fresh(h, u)
      ensures forall hit | SearchResult(h, ref, s, ClassOf(h, ref).inheritance) == Found(hit) :: m == Some(hit.found)
      ensures m.Some? ==> Agreeing(h, ref, u, forwardmethod, s, m.value.imp)
      ensures forall t :: Uncached(h, ref, u, forwardmethod, t) == Uncached(h, ref, u, old(forwardmethod), t)
    {
      var r := SearchMethod(h, ref, s, ClassOf(h, ref).inheritance);
      match r
      case Found(hit) =>
        m := Some(hit.found);
      case Failed(_) =>
        m := LazygetForwardmethod(h, u);
    }

    // ----- filling the cache

    /** Replaces the cache with a new one, without entries. */
    method ConvenientSwapImpcache(u: Settings, strategy: Strategy)
      requires Sound(u) && cachepivot.Normal? && strategy != Shrink
      modifies this`cachepivot
      ensures Sound(u) && cachepivot.Normal? && fresh(Repr() - {this}) && Cached() == map[] && cachepivot.cache.n == 0
      ensures cachepivot.cache.log2 == if strategy == Grow then Larger(old(cachepivot.cache.log2)) else old(cachepivot.cache.log2)
    {
      var old_cache := cachepivot.cache;
      SizeDividesIdSpace(old_cache.log2);
      var size, m := SuccessorSize(old_cache.size, old_cache.log2, strategy);
      RoomAfterResize(old_cache.size, size, u.fillrate);
      SizeAboveOne(m);
      var icache := new Cache(size, m);
      cachepivot := Normal(icache);
    }

    /** One attempt: either the entry is there, or the cache was too full and has been replaced with a larger one. */
    method TryFill(u: Settings, imp: Imp, uniqueid: nat) returns (entry: bool)
      requires Sound(u) && cachepivot.Normal? && uniqueid != 0
      modifies Repr()
      ensures Sound(u) && cachepivot.Normal? && fresh(Repr() - old(Repr()))
      ensures ready == old(ready) && forwardmethod == old(forwardmethod)
      ensures entry <==> !old(TooFull(u))
      ensures entry ==> cachepivot == old(cachepivot) && Cached() == Added(old(Cached()), uniqueid, imp)
      ensures !entry ==> Cached() == map[] && cachepivot.cache.n == 0 && cachepivot.cache.log2 == Larger(old(cachepivot.cache.log2))
    {
      var cache := cachepivot.cache;
      if ShouldGrow(cache.n, cache.size, u.fillrate) {
        ConvenientSwapImpcache(u, Grow);
        return false;
      }
      NotYetFull(cache.n, cache.size, u.fillrate);
      entry := cache.AddFunctionpointerEntry(imp, uniqueid);
    }

    ghost predicate TooFull(u: Settings)
      requires cachepivot.Normal?
      reads this, Repr()
    {
      ShouldGrow(cachepivot.cache.n, cachepivot.cache.size, u.fillrate)
    }

    /** Adds to the cache, or to a new one, twice as large, if it is filled too much. Entries that are there stay as they are. */
    method FillImpcachepivotImp(u: Settings, imp: Imp, uniqueid: nat)
      requires Sound(u) && cachepivot.Normal? && uniqueid != 0
      modifies Repr()
      ensures Sound(u) && cachepivot.Normal? && fresh(Repr() - old(Repr()))
      ensures ready == old(ready) && forwardmethod == old(forwardmethod)
      ensures if old(TooFull(u)) then Cached() == map[uniqueid := imp] && cachepivot.cache.log2 == Larger(old(cachepivot.cache.log2))
              else Cached() == Added(old(Cached()), uniqueid, imp) && cachepivot == old(cachepivot)
    {
      var entry := TryFill(u, imp, uniqueid);
      while !entry
        invariant Sound(u) && cachepivot.Normal? && fresh(Repr() - old(Repr()))
        invariant ready == old(ready) && forwardmethod == old(forwardmethod)
        invariant if old(TooFull(u)) then
                    && Cached() == (if entry then map[uniqueid := imp] else map[])
                    && cachepivot.cache.log2 == Larger(old(cachepivot.cache.log2)) && (entry || cachepivot.cache.n == 0)
                  else entry && Cached() == Added(old(Cached()), uniqueid, imp) && cachepivot == old(cachepivot)
        decreases !entry
      {
        EmptyIsNotTooFull(cachepivot.cache.size, u.fillrate);
        entry := TryFill(u, imp, uniqueid);
      }
    }

    /** Fills the cache, if there is one that is ever filled. */
    method FillImpcacheMethod(h: Hierarchy, u: Settings, m: Method, uniqueid: nat)
      requires Valid(h, u) && uniqueid != 0
      requires uniqueid !in u.supers ==> Agreeing(h, ref, u, forwardmethod, SearchDefault(uniqueid), m.imp)
      modifies Repr()
      ensures Valid(h, u) && fresh(Repr() - old(Repr()))
      ensures ready == old(ready) && forwardmethod == old(forwardmethod)
      ensures if cachepivot.Normal? then
                Cached() == Added(old(Cached()), uniqueid, m.imp) || Cached() == map[uniqueid := m.imp]
              else cachepivot == old(cachepivot)
    {
      if alwaysEmpty || !ready {
        return;
      }
      FillImpcachepivotImp(u, m.imp, uniqueid);
    }

    method RefreshMethodNofail(h: Hierarchy, u: Settings, methodid: nat) returns (m: Option<Method>)
      requires Valid(h, u) && methodid != 0
      modifies Repr()
      ensures Valid(h, u) && fresh(Repr() - old(Repr())) && ready == old(ready)
      ensures old(Fresh(h, u)) ==> Fresh(h, u)
      ensures m == Uncached(h, ref, u, old(forwardmethod), SearchDefault(methodid))
      ensures m.Some? && cachepivot.Normal? ==> methodid in Cached()
    {
      m := SearchNofail(h, u, SearchDefault(methodid));
      if m.Some? {
        FillImpcacheMethod(h, u, m.value, methodid);
      }
    }

    /** A superid that is not known is fatal. */
    method RefreshSupermethodNofail(h: Hierarchy, u: Settings, superid: nat) returns (m: Option<Method>)
      requires Valid(h, u) && superid != 0
      modifies Repr()
      ensures Valid(h, u) && fresh(Repr() - old(Repr())) && ready == old(ready)
      ensures old(Fresh(h, u)) ==> Fresh(h, u)
      ensures m == if superid !in u.supers then None else
                     var (classid, methodid) := u.supers[superid];
                     Uncached(h, ref, u, old(forwardmethod), SearchSuper(methodid, classid))
      ensures forall classid, methodid, hit | superid in u.supers && u.supers[superid] == (classid, methodid)
                                              && SearchResult(h, ref, SearchSuper(methodid, classid), ClassOf(h, ref).inheritance) == Found(hit) ::
                m == Some(hit.found)
      ensures m.Some? && cachepivot.Normal? ==> superid in Cached()
    {
      if superid !in u.supers {
        return None;
      }
      var (classid, methodid) := u.supers[superid];
      m := SearchNofail(h, u, SearchSuper(methodid, classid));
      if m.Some? {
        FillImpcacheMethod(h, u, m.value, superid);
      }
    }

    // ----- dispatch

    /** What is called if the method is found without a cache. */
    ghost function ToCall(h: Hierarchy, u: Settings, methodid: nat): Option<nat>
      requires ValidHierarchy(h) && ref.pair < |h|
      reads this
    {
      ImpOf(Uncached(h, ref, u, forwardmethod, SearchDefault(methodid)))
    }

    /** A hit is what is to be called. */
    lemma {:induction false} HitAgrees(h: Hierarchy, u: Settings, methodid: nat)
      requires Valid(h, u) && methodid in Cached() && methodid !in u.supers
      ensures ToCall(h, u, methodid) == Some(Cached()[methodid])
    {
      assert Agreeing(h, ref, u, forwardmethod, SearchDefault(methodid), Cached()[methodid]);
    }

    /** The continuation of a call that has missed the cache. */
    method CallCacheMiss(h: Hierarchy, u: Settings, methodid: nat) returns (imp: Option<nat>)
      requires Valid(h, u) && methodid != 0
      modifies Repr()
      ensures Valid(h, u) && fresh(Repr() - old(Repr())) && ready == old(ready)
      ensures old(Fresh(h, u)) ==> Fresh(h, u)
      ensures imp == old(ToCall(h, u, methodid))
      ensures imp.Some? && cachepivot.Normal? ==> methodid in Cached()
    {
      var m := RefreshMethodNofail(h, u, methodid);
      imp := ImpOf(m);
    }

    /** The continuation of a call that has found another method, or none, in the first slot. */
    method CallCacheCollision(h: Hierarchy, u: Settings, methodid: nat) returns (imp: Option<nat>)
      requires Valid(h, u) && cachepivot.Normal? && 0 < methodid < UINT32_SIZE && methodid !in u.supers
      requires cachepivot.cache.entries[Home(methodid, cachepivot.cache.size)].key != methodid
      modifies Repr()
      ensures Valid(h, u) && fresh(Repr() - old(Repr())) && ready == old(ready)
      ensures old(Fresh(h, u)) ==> Fresh(h, u)
      ensures imp == old(ToCall(h, u, methodid))
      ensures imp.Some? && cachepivot.Normal? ==> methodid in Cached()
    {
      hide Coherent, Agreeing, SortedHierarchy, ValidHierarchy, Uncached, SearchResult;
      var p := cachepivot.cache.ProbeCollision(methodid);
      if p != 0 {
        HitAgrees(h, u, methodid);
        return Some(p);
      }
      var m := RefreshMethodNofail(h, u, methodid);
      imp := ImpOf(m);
    }

    /** The empty cache searches every time. */
    method CallSlow(h: Hierarchy, u: Settings, methodid: nat) returns (imp: Option<nat>)
      requires Valid(h, u)
      modifies this`forwardmethod
      ensures Valid(h, u) && imp == old(ToCall(h, u, methodid))
      ensures old(Fresh(h, u)) ==> Fresh(h, u)
    {
      var m := SearchNofail(h, u, SearchDefault(methodid));
      imp := ImpOf(m);
    }

    /** The inlined call looks at the first slot only, and leaves the rest to the callback for collisions. */
    method CallInline(h: Hierarchy, u: Settings, methodid: nat) returns (imp: Option<nat>)
      requires Valid(h, u) && !cachepivot.Initial? && 0 < methodid < UINT32_SIZE && methodid !in u.supers
      modifies Repr()
      ensures Valid(h, u) && fresh(Repr() - old(Repr())) && ready == old(ready)
      ensures old(Fresh(h, u)) ==> Fresh(h, u)
      ensures imp == old(ToCall(h, u, methodid))
      ensures imp.Some? && cachepivot.Normal? ==> methodid in Cached()
    {
      hide Coherent, Agreeing, SortedHierarchy, ValidHierarchy, ImpOf, Uncached, SearchResult;
      match cachepivot
      case Empty =>
        imp := CallSlow(h, u, methodid);
      case Normal(cache) =>
        var entry := cache.ProbeHome(methodid);
        if entry.key == methodid {
          HitAgrees(h, u, methodid);
          return Some(entry.value);
        }
        imp := CallCacheCollision(h, u, methodid);
    }

    /** Like the inlined call, but an empty first slot is known to be a miss. */
    method CallInlineVariable(h: Hierarchy, u: Settings, methodid: nat) returns (imp: Option<nat>)
      requires Valid(h, u) && !cachepivot.Initial? && 0 < methodid < UINT32_SIZE && methodid !in u.supers
      modifies Repr()
      ensures Valid(h, u) && fresh(Repr() - old(Repr())) && ready == old(ready)
      ensures old(Fresh(h, u)) ==> Fresh(h, u)
      ensures imp == old(ToCall(h, u, methodid))
      ensures imp.Some? && cachepivot.Normal? ==> methodid in Cached()
    {
      hide Coherent, Agreeing, SortedHierarchy, ValidHierarchy, ImpOf, Uncached, SearchResult;
      match cachepivot
      case Empty =>
        imp := CallSlow(h, u, methodid);
      case Normal(cache) =>
        var entry := cache.ProbeHome(methodid);
        if entry.key == methodid {
          HitAgrees(h, u, methodid);
          return Some(entry.value);
        }
        if entry.key != 0 {
          imp := CallCacheCollision(h, u, methodid);
        } else {
          imp := CallCacheMiss(h, u, methodid);
        }
    }

    /** The inlined call that goes on to the end of the probe chain; the callback of the class does the same. */
    method CallInlineFull(h: Hierarchy, u: Settings, methodid: nat) returns (imp: Option<nat>)
      requires Valid(h, u) && !cachepivot.Initial? && 0 < methodid && methodid !in u.supers
      modifies Repr()
      ensures Valid(h, u) && fresh(Repr() - old(Repr())) && ready == old(ready)
      ensures old(Fresh(h, u)) ==> Fresh(h, u)
      ensures imp == old(ToCall(h, u, methodid))
      ensures imp.Some? && cachepivot.Normal? ==> methodid in Cached()
    {
      hide Coherent, Agreeing, SortedHierarchy, ValidHierarchy, ImpOf, Uncached, SearchResult;
      match cachepivot
      case Empty =>
        imp := CallSlow(h, u, methodid);
      case Normal(cache) =>
        var p := cache.ProbeInline(methodid);
        if p != 0 {
          HitAgrees(h, u, methodid);
          return Some(p);
        }
        imp := CallCacheMiss(h, u, methodid);
    }

    /**
     The first call of a class sets it up, and goes on with the caches it has got then. If the thread is
     at the setup already, further out, nothing is set up or cached.
     */
    method CallNeedcache(h: Hierarchy, u: Settings, methodid: nat, n_entries: bv32, recursing: bool, cachecount: nat)
      returns (imp: Option<nat>, count: nat)
      requires Valid(h, u) && cachepivot.Initial? && methodid != 0
      requires !recursing && !alwaysEmpty ==> LeavesRoom(n_entries, u.fillrate)
      modifies Repr()
      ensures Valid(h, u) && fresh(Repr() - old(Repr())) && ready == !recursing
      ensures old(Fresh(h, u)) ==> Fresh(h, u)
      ensures imp == old(ToCall(h, u, methodid))
      ensures imp.Some? && cachepivot.Normal? ==> methodid in Cached()
      ensures cachepivot.Normal? <==> !recursing && !alwaysEmpty
      ensures count == cachecount + if cachepivot.Normal? then 1 else 0
    {
      hide Coherent, Agreeing, SortedHierarchy, ValidHierarchy, ImpOf, Uncached, SearchResult;
      count := cachecount;
      if recursing {
        imp := CallSlow(h, u, methodid);
        return;
      }
      count := SetupCaches(h, u, n_entries, cachecount);
      if cachepivot.Empty? {
        imp := CallSlow(h, u, methodid);
      } else {
        imp := CallCacheMiss(h, u, methodid);
      }
    }

    /** A call finds what a search finds, by whatever way it is made, even if it is the first one of the class. */
    method Call(h: Hierarchy, u: Settings, way: Way, methodid: nat, n_entries: bv32, recursing: bool, cachecount: nat)
      returns (imp: Option<nat>, count: nat)
      requires Valid(h, u) && 0 < methodid < UINT32_SIZE && methodid !in u.supers
      requires cachepivot.Initial? && !recursing && !alwaysEmpty ==> LeavesRoom(n_entries, u.fillrate)
      modifies Repr()
      ensures Valid(h, u) && fresh(Repr() - old(Repr())) && ready == (old(ready) || (old(cachepivot).Initial? && !recursing))
      ensures old(Fresh(h, u)) ==> Fresh(h, u)
      ensures imp == old(ToCall(h, u, methodid))
      ensures imp.Some? && cachepivot.Normal? ==> methodid in Cached()
      ensures count == cachecount + if cachepivot.Normal? && !old(cachepivot).Normal? then 1 else 0
    {
      count := cachecount;
      if cachepivot.Initial? {
        imp, count := CallNeedcache(h, u, methodid, n_entries, recursing, cachecount);
        return;
      }
      match way
      case Inline => imp := CallInline(h, u, methodid);
      case InlineVariable => imp := CallInlineVariable(h, u, methodid);
      case InlineFull => imp := CallInlineFull(h, u, methodid);
    }

    // ----- invalidation

    /** Replaces the cache if it holds the id, or if it holds anything and no id is given. */
    method InvalidateImpcacheentry(u: Settings, uniqueid: nat) returns (done: bool)
      requires Sound(u) && ready
      modifies this`cachepivot
      ensures Sound(u) && fresh(Repr() - old(Repr()))
      ensures done <==> old(Cached()) != map[] && (uniqueid == 0 || uniqueid in old(Cached()))
      ensures if done then cachepivot.Normal? && Cached() == map[] && cachepivot.cache.log2 == old(cachepivot.cache.log2)
              else cachepivot == old(cachepivot)
    {
      if alwaysEmpty {
        return false;
      }
      var cache := cachepivot.cache;
      if cache.n == 0 {
        NothingCached(cache);
        return false;
      }
      SomethingCached(cache);
      if uniqueid != 0 {
        var offset, _ := cache.ProbeEntryoffset(uniqueid);
        if cache.entries[offset / ENTRY_SIZE].key == 0 {
          return false;
        }
      }
      ConvenientSwapImpcache(u, Stagnate);
      return true;
    }

    /** None of the methods stays in the cache. */
    method InvalidateImpcache(u: Settings, methods: seq<Method>)
      requires Sound(u) && ready && forall m | m in methods :: m.methodid != 0
      modifies this`cachepivot
      ensures Sound(u) && fresh(Repr() - old(Repr()))
      ensures Cached() == if HoldsAny(old(Cached()), methods) then map[] else old(Cached())
    {
      for k := 0 to |methods|
        invariant cachepivot == old(cachepivot)
        invariant !HoldsAny(old(Cached()), methods[..k])
      {
        HoldsNext(Cached(), methods, k);
        var done := InvalidateImpcacheentry(u, methods[k].methodid);
        if done {
          return;
        }
      }
      assert methods[..|methods|] == methods;
    }

    /** What a class does about a methodlist that was added to some class: nothing, if it is not ready. */
    method InvalidateCachesCallback(ghost h: Hierarchy, u: Settings, t: ClassRef, list: MethodList)
      requires Valid(h, u) && t.pair < |h| && SortedHierarchy(SearchUpdates.AddList(h, t, list))
      requires forall m | m in list.methods :: m.methodid != 0
      modifies this`cachepivot
      ensures Valid(SearchUpdates.AddList(h, t, list), u) && fresh(Repr() - old(Repr()))
    {
      if ready {
        InvalidateImpcache(u, list.methods);
      }
      ghost var cached := Cached();
      forall m | m in list.methods ensures m.methodid !in cached {
        assert ready && m.methodid in old(Cached()) ==> HoldsAny(old(Cached()), list.methods);
      }
      assert cached == map[] || cached == old(Cached());
      AddListKeepsCoherent(h, t, list, ref, u, forwardmethod, cached);
    }
  }

  ghost predicate HoldsAny(cached: map<nat, nat>, methods: seq<Method>) {
    exists m :: m in methods && m.methodid in cached
  }

  lemma {:induction false} HoldsNext(cached: map<nat, nat>, methods: seq<Method>, k: nat)
    requires k < |methods|
    ensures HoldsAny(cached, methods[..k + 1]) <==> HoldsAny(cached, methods[..k]) || methods[k].methodid in cached
    ensures methods[k].methodid in cached ==> HoldsAny(cached, methods)
  {
    assert methods[..k + 1] == methods[..k] + [methods[k]];
  }

  lemma {:induction false} NothingCached(cache: Cache)
    requires cache.Valid() && cache.n == 0
    ensures cache.Map() == map[]
  {
    forall e | e in cache.Slots() && e.key != 0 ensures false {
      var p :| 0 <= p < cache.size && cache.Slots()[p] == e;
      NothingUsed(cache.Slots(), p);
    }
  }

  lemma {:induction false} SomethingCached(cache: Cache)
    requires cache.Valid() && cache.n != 0
    ensures cache.Map() != map[]
  {
    var p := SlotInUse(cache.Slots());
    ProbeHits(cache.Slots(), p);
  }

  /** The size, as a power of two, of the cache that replaces one that is too full. */
  function Larger(log2: nat): nat {
    if log2 < 22 then log2 + 1 else log2
  }

  lemma {:induction false} EmptyIsNotTooFull(size: nat, fillrate: nat)
    requires size > 0
    ensures !ShouldGrow(0, size, fillrate)
  {
    if fillrate > 0 {
      assert size * fillrate >= fillrate;
    }
  }

  function Added(cached: map<nat, nat>, id: nat, imp: nat): map<nat, nat> {
    if id in cached then cached else cached[id := imp]
  }

  lemma {:induction false} SizeAboveOne(m: nat)
    requires m >= 2
    ensures Pow2(m) > 1
  {
    assert Pow2(m) == 2 * Pow2(m - 1);
  }

  /** A single thread that fills a first cache of the requested size, rounded, makes it grow before its last slot is taken. */
  ghost predicate LeavesRoom(request: bv32, fillrate: nat) {
    var size := Pow2(RoundedLog2(request));
    ShouldGrow(size - 1, size, fillrate)
  }

  lemma {:induction false} RoomAfterResize(size: nat, size': nat, fillrate: nat)
    requires size > 0 && (size' == size || size' == size * 2)
    requires ShouldGrow(size - 1, size, fillrate)
    ensures ShouldGrow(size' - 1, size', fillrate)
  {
    if size' != size {
      assert 2 * size * fillrate == 2 * (size * fillrate);
    }
  }

  /** A cache that is not to grow yet can take another entry and still has a free slot. */
  lemma {:induction false} NotYetFull(n: nat, size: nat, fillrate: nat)
    requires !ShouldGrow(n, size, fillrate) && ShouldGrow(size - 1, size, fillrate) && n < size
    ensures n + 1 < size
  {
  }

  ghost predicate Roomy(cache: Cache, fillrate: nat)
    reads cache, cache.entries
  {
    cache.Valid() && 2 <= cache.log2 <= 22 && ShouldGrow(cache.size - 1, cache.size, fillrate)
  }

  // ----- the universe

  /** Ids of methods are sane, and a list does not hold a method twice. */
  ghost predicate ProperMethods(methods: seq<Method>) {
    && (forall m | m in methods :: m.methodid != 0)
    && forall i, j | 0 <= i < j < |methods| :: methods[i].methodid != methods[j].methodid
  }

  class Universe {
    const settings: Settings
    const classes: seq<RuntimeClass>
    var hierarchy: Hierarchy
    // the number of normal caches that were ever set up
    var cachecount: nat

    ghost predicate Apart()
      reads classes
    {
      forall i, j | 0 <= i < j < |classes| :: classes[i].Repr() !! classes[j].Repr()
    }

    /** All classes are valid in that hierarchy, and have their caches for themselves. */
    ghost predicate AllValid(h: Hierarchy)
      reads this, classes, set i, o | 0 <= i < |classes| && o in classes[i].Repr() :: o
    {
      && SortedHierarchy(h) && Apart()
      && (forall i | 0 <= i < |classes| :: this !in classes[i].Repr() && classes[i].Valid(h, settings))
      && (cachecount == 0 ==> forall i | 0 <= i < |classes| :: !classes[i].cachepivot.Normal?)
    }

    ghost predicate Valid()
      reads this, classes, set i, o | 0 <= i < |classes| && o in classes[i].Repr() :: o
    {
      AllValid(hierarchy)
    }

    ghost predicate AllFresh()
      requires ValidHierarchy(hierarchy) && forall i | 0 <= i < |classes| :: classes[i].ref.pair < |hierarchy|
      reads this, classes
    {
      forall i | 0 <= i < |classes| :: classes[i].Fresh(hierarchy, settings)
    }

    constructor (h: Hierarchy, settings: Settings, classes: seq<RuntimeClass>)
      requires SortedHierarchy(h) && forall i, j | 0 <= i < j < |classes| :: classes[i] != classes[j]
      requires forall c | c in classes :: c.ref.pair < |h| && c.cachepivot.Initial? && !c.ready && c.forwardmethod == None
      ensures Valid() && AllFresh() && hierarchy == h && this.settings == settings && this.classes == classes
    {
      hierarchy, this.settings, this.classes, cachecount := h, settings, classes, 0;
    }

    lemma {:induction false} NoCacheNoEntries(h: Hierarchy, t: ClassRef, list: MethodList)
      requires AllValid(h) && t.pair < |h| && SortedHierarchy(SearchUpdates.AddList(h, t, list))
      requires list.methods == [] || cachecount == 0
      ensures AllValid(SearchUpdates.AddList(h, t, list))
    {
      forall i | 0 <= i < |classes| ensures classes[i].Valid(SearchUpdates.AddList(h, t, list), settings) {
        AddListKeepsCoherent(h, t, list, classes[i].ref, settings, classes[i].forwardmethod, classes[i].Cached());
      }
    }

    /** After a methodlist was added, one class is told. */
    method TellClass(k: nat, t: ClassRef, list: MethodList, ghost h: Hierarchy)
      requires k < |classes| && Apart() && (forall i | 0 <= i < |classes| :: this !in classes[i].Repr())
      requires classes[k].Valid(h, settings) && t.pair < |h| && hierarchy == SearchUpdates.AddList(h, t, list)
      requires SortedHierarchy(hierarchy) && forall m | m in list.methods :: m.methodid != 0
      modifies classes[k]
      ensures Apart() && (forall i | 0 <= i < |classes| :: this !in classes[i].Repr())
      ensures classes[k].Valid(hierarchy, settings) && fresh(classes[k].Repr() - old(classes[k].Repr()))
      ensures classes[k].forwardmethod == old(classes[k].forwardmethod)
      ensures forall i | 0 <= i < |classes| && i != k :: classes[i].Repr() == old(classes[i].Repr())
      ensures forall i | 0 <= i < |classes| && i != k :: classes[i].Valid(h, settings) == old(classes[i].Valid(h, settings))
      ensures forall i | 0 <= i < |classes| && i != k ::
                classes[i].Valid(hierarchy, settings) == old(classes[i].Valid(hierarchy, settings))
    {
      hide RuntimeClass.Valid, RuntimeClass.Sound, RuntimeClass.Fresh, RuntimeClass.Cached, RuntimeClass.ToCall;
      hide Coherent, SortedHierarchy, ValidHierarchy, ImpOf, Uncached, SearchResult;
      OthersApart(k);
      label before:
      classes[k].InvalidateCachesCallback(h, settings, t, list);
      StillApart@before(k);
      forall i | 0 <= i < |classes| && i != k
        ensures classes[i].Valid(h, settings) == old@before(classes[i].Valid(h, settings))
        ensures classes[i].Valid(hierarchy, settings) == old@before(classes[i].Valid(hierarchy, settings))
      {
        assert classes[k] !in old@before(classes[i].Repr());
      }
    }

    /** After a methodlist was added, all classes are told, unless there has never been a cache. */
    method DidaddMethodlist(t: ClassRef, list: MethodList, ghost h: Hierarchy)
      requires AllValid(h) && t.pair < |h| && hierarchy == SearchUpdates.AddList(h, t, list)
      requires SortedHierarchy(hierarchy) && forall m | m in list.methods :: m.methodid != 0
      modifies classes
      ensures Valid() && forall i | 0 <= i < |classes| :: classes[i].forwardmethod == old(classes[i].forwardmethod)
      ensures forall i | 0 <= i < |classes| :: fresh(classes[i].Repr() - old(classes[i].Repr()))
    {
      if list.methods == [] || cachecount == 0 {
        NoCacheNoEntries(h, t, list);
        return;
      }
      hide RuntimeClass.Valid, SortedHierarchy;
      for k := 0 to |classes|
        invariant Apart() && forall i | 0 <= i < |classes| :: this !in classes[i].Repr()
        invariant forall i | 0 <= i < k :: classes[i].Valid(hierarchy, settings)
        invariant forall i | k <= i < |classes| :: classes[i].Valid(h, settings)
        invariant forall i | 0 <= i < |classes| :: classes[i].forwardmethod == old(classes[i].forwardmethod)
        invariant forall i | 0 <= i < |classes| :: fresh(classes[i].Repr() - old(classes[i].Repr()))
      {
        TellClass(k, t, list, h);
      }
    }

    lemma {:induction false} OthersApart(k: nat)
      requires k < |classes| && Apart()
      ensures forall i | 0 <= i < |classes| && i != k :: classes[k] !in classes[i].Repr() && classes[i] != classes[k]
    {
      forall i | 0 <= i < |classes| && i != k
        ensures classes[k] !in classes[i].Repr() && classes[i] != classes[k]
      {
        assert classes[k] in classes[k].Repr() && classes[i] in classes[i].Repr();
        assert if i < k then classes[i].Repr() !! classes[k].Repr() else classes[k].Repr() !! classes[i].Repr();
      }
    }

    /** A class whose other objects are all new is still apart from the other classes. */
    twostate lemma {:induction false} StillApart(k: nat)
      requires k < |classes| && old(Apart()) && old(this !in classes[k].Repr())
      requires forall i | 0 <= i < |classes| && i != k :: classes[i].Repr() == old(classes[i].Repr())
      requires fresh(classes[k].Repr() - old(classes[k].Repr()))
      ensures Apart() && this !in classes[k].Repr()
    {
      forall i, j | 0 <= i < j < |classes|
        ensures classes[i].Repr() !! classes[j].Repr()
      {
        assert old(classes[i].Repr()) !! old(classes[j].Repr());
        forall o | o in classes[i].Repr() ensures o !in classes[j].Repr() {
          assert i != k ==> old(allocated(o));
        }
      }
    }

    /** Refuses a list that is not sorted. */
    method AddMethodlistNocache(t: ClassRef, list: MethodList) returns (ok: bool)
      requires Valid() && t.pair < |hierarchy| && ProperMethods(list.methods)
      modifies this`hierarchy
      ensures AllValid(old(hierarchy))
      ensures ok <==> SortedMethods(list.methods)
      ensures hierarchy == if ok then SearchUpdates.AddList(old(hierarchy), t, list) else old(hierarchy)
      ensures SortedHierarchy(hierarchy)
    {
      var last := 0;
      for k := 0 to |list.methods|
        invariant SortedMethods(list.methods[..k])
        invariant last == if k == 0 then 0 else list.methods[k - 1].methodid
      {
        if last > list.methods[k].methodid {
          return false;
        }
        last := list.methods[k].methodid;
      }
      assert list.methods[..|list.methods|] == list.methods;
      AddListKeepsSorted(hierarchy, t, list);
      hierarchy := SearchUpdates.AddList(hierarchy, t, list);
      return true;
    }

    /** And what the classes remember about forwarding stays right, unless the list brings a new forward method. */
    lemma {:induction false} AddKeepsFresh(h: Hierarchy, t: ClassRef, list: MethodList)
      requires ValidHierarchy(h) && t.pair < |h| && hierarchy == SearchUpdates.AddList(h, t, list)
      requires forall m | m in list.methods :: m.methodid != FORWARD_METHODID
      requires forall i | 0 <= i < |classes| :: classes[i].ref.pair < |h| && classes[i].Fresh(h, settings)
      ensures AllFresh()
    {
      forall i | 0 <= i < |classes| ensures classes[i].Fresh(hierarchy, settings) {
        AddListKeepsForward(h, t, list, classes[i].ref, settings);
      }
    }

    /** Adding a methodlist to any class leaves no outdated method in any cache. */
    method AddMethodlist(t: ClassRef, list: MethodList) returns (ok: bool)
      requires Valid() && t.pair < |hierarchy| && ProperMethods(list.methods)
      modifies this`hierarchy, classes
      ensures Valid() && (ok <==> SortedMethods(list.methods))
      ensures hierarchy == if ok then SearchUpdates.AddList(old(hierarchy), t, list) else old(hierarchy)
      ensures forall i | 0 <= i < |classes| :: classes[i].forwardmethod == old(classes[i].forwardmethod)
      ensures forall i | 0 <= i < |classes| :: fresh(classes[i].Repr() - old(classes[i].Repr()))
    {
      hide RuntimeClass.Valid;
      ok := AddMethodlistNocache(t, list);
      if ok {
        DidaddMethodlist(t, list, old(hierarchy));
      }
    }

    /** Every cached method is what a search without any cache and without any memory finds. */
    ghost predicate CachesUpToDate()
      requires ValidHierarchy(hierarchy) && forall i | 0 <= i < |classes| :: classes[i].ref.pair < |hierarchy|
      reads this, classes, set i, o | 0 <= i < |classes| && o in classes[i].Repr() :: o
    {
      forall i, id | 0 <= i < |classes| && id in classes[i].Cached() && id !in settings.supers ::
        ImpOf(Uncached(hierarchy, classes[i].ref, settings, None, SearchDefault(id))) == Some(classes[i].Cached()[id])
    }

    lemma {:induction false} FreshIsUpToDate()
      requires Valid() && AllFresh()
      ensures CachesUpToDate()
    {
      forall i, id | 0 <= i < |classes| && id in classes[i].Cached() && id !in settings.supers
        ensures ImpOf(Uncached(hierarchy, classes[i].ref, settings, None, SearchDefault(id))) == Some(classes[i].Cached()[id])
      {
        classes[i].CachedIsFresh(hierarchy, settings, id);
      }
    }

    /** Unless the list brings a forward method, all classes and caches are up to date with it. A list that is refused is fatal. */
    method AddMethodlistNofail(t: ClassRef, list: MethodList) returns (ok: bool)
      requires Valid() && AllFresh() && t.pair < |hierarchy| && ProperMethods(list.methods)
      requires forall m | m in list.methods :: m.methodid != FORWARD_METHODID
      modifies this`hierarchy, classes
      ensures Valid() && AllFresh() && CachesUpToDate() && (ok <==> SortedMethods(list.methods))
      ensures hierarchy == if ok then SearchUpdates.AddList(old(hierarchy), t, list) else old(hierarchy)
    {
      ok := AddMethodlist(t, list);
      if ok {
        AddKeepsFresh(old(hierarchy), t, list);
      }
      FreshIsUpToDate();
    }

    /** Prepares a class for being messaged. */
    method SetupCaches(k: nat, n_entries: bv32)
      requires Valid() && k < |classes| && !classes[k].ready
      requires !classes[k].alwaysEmpty ==> LeavesRoom(n_entries, settings.fillrate)
      modifies this`cachecount, classes[k]
      ensures Valid() && classes[k].ready && fresh(classes[k].Repr() - old(classes[k].Repr())) && classes[k].Cached() == map[]
      ensures classes[k].cachepivot.Normal? <==> !classes[k].alwaysEmpty
      ensures old(AllFresh()) ==> AllFresh()
      ensures cachecount == old(cachecount) + if classes[k].alwaysEmpty then 0 else 1
    {
      hide RuntimeClass.Valid, RuntimeClass.Sound, RuntimeClass.Fresh, RuntimeClass.ToCall;
      hide Coherent, SortedHierarchy, ValidHierarchy;
      OthersApart(k);
      label before:
      cachecount := classes[k].SetupCaches(hierarchy, settings, n_entries, cachecount);
      StillApart@before(k);
      forall i | 0 <= i < |classes| && i != k
        ensures classes[i].Valid(hierarchy, settings) == old@before(classes[i].Valid(hierarchy, settings))
      {
        assert classes[k] !in old@before(classes[i].Repr());
      }
    }

    /** Selects an implementation, by whatever way the call is made. */
    method Select(k: nat, way: Way, methodid: nat, n_entries: bv32, recursing: bool) returns (imp: Option<nat>)
      requires Valid() && k < |classes| && 0 < methodid < UINT32_SIZE && methodid !in settings.supers
      requires classes[k].cachepivot.Initial? && !recursing && !classes[k].alwaysEmpty ==> LeavesRoom(n_entries, settings.fillrate)
      modifies this`cachecount, classes[k].Repr()
      ensures Valid() && fresh(classes[k].Repr() - old(classes[k].Repr()))
      ensures imp == old(classes[k].ToCall(hierarchy, settings, methodid))
      ensures classes[k].ready == (old(classes[k].ready) || (old(classes[k].cachepivot.Initial?) && !recursing))
      ensures imp.Some? && classes[k].cachepivot.Normal? ==> methodid in classes[k].Cached()
      ensures old(AllFresh()) ==> AllFresh()
    {
      hide RuntimeClass.Valid, RuntimeClass.Sound, RuntimeClass.Fresh, RuntimeClass.Cached, RuntimeClass.ToCall;
      hide Coherent, SortedHierarchy, ValidHierarchy, ImpOf, Uncached, SearchResult;
      OthersApart(k);
      label before:
      imp, cachecount := classes[k].Call(hierarchy, settings, way, methodid, n_entries, recursing, cachecount);
      StillApart@before(k);
      forall i | 0 <= i < |classes| && i != k
        ensures classes[i].Valid(hierarchy, settings) == old@before(classes[i].Valid(hierarchy, settings))
      {
        assert old@before(classes[i].Repr()) !! old@before(classes[k].Repr());
      }
    }

    lemma {:induction false} CallByPosition(k: nat, methodid: nat)
      requires Valid() && k < |classes|
      ensures CallsByPosition(Linearized(hierarchy, classes[k].ref), settings, classes[k].forwardmethod, methodid,
                              classes[k].ToCall(hierarchy, settings, methodid))
    {
      UncachedByPosition(hierarchy, classes[k].ref, settings, classes[k].forwardmethod, methodid);
    }

    /**
     A call finds what a search finds, by whatever way it is made, even if it is the first one of the class. Then the
     class is set up, with as many entries as the application wishes for, unless this thread is about to do so further out.
     */
    method Call(k: nat, way: Way, methodid: nat, n_entries: bv32, recursing: bool) returns (imp: Option<nat>)
      requires Valid() && k < |classes| && 0 < methodid < UINT32_SIZE && methodid !in settings.supers
      requires classes[k].cachepivot.Initial? && !recursing && !classes[k].alwaysEmpty ==> LeavesRoom(n_entries, settings.fillrate)
      modifies this`cachecount, classes[k].Repr()
      ensures Valid() && fresh(classes[k].Repr() - old(classes[k].Repr()))
      ensures CallsByPosition(Linearized(hierarchy, classes[k].ref), settings, old(classes[k].forwardmethod), methodid, imp)
      ensures imp == old(classes[k].ToCall(hierarchy, settings, methodid))
      ensures classes[k].ready == (old(classes[k].ready) || (old(classes[k].cachepivot.Initial?) && !recursing))
      ensures imp.Some? && classes[k].cachepivot.Normal? ==> methodid in classes[k].Cached()
      ensures old(AllFresh()) ==> AllFresh()
    {
      CallByPosition(k, methodid);
      hide RuntimeClass.Valid, RuntimeClass.Fresh, RuntimeClass.Cached, RuntimeClass.ToCall, CallsByPosition, Linearized;
      hide Universe.AllValid, Universe.AllFresh, SearchResult, Answers, AnsweredBy, Unanswered;
      imp := Select(k, way, methodid, n_entries, recursing);
    }
  }

  lemma {:induction false} AddListKeepsSorted(h: Hierarchy, t: ClassRef, list: MethodList)
    requires SortedHierarchy(h) && t.pair < |h| && SortedMethods(list.methods)
    ensures SortedHierarchy(SearchUpdates.AddList(h, t, list))
  {
    var p, p' := h[t.pair], SearchUpdates.AddList(h, t, list)[t.pair];
    assert SortedLists(p.infra.lists) && SortedLists(p.meta.lists);
    assert SortedLists(p'.infra.lists) && SortedLists(p'.meta.lists);
  }
}
