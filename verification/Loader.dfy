/**
 The load resolver: classes, mixins and categories arrive in any order. What
 can be installed is installed at once and wakes up what waits for it; the rest
 is parked on the list of the first class it misses.
 */
module Loader {
  import opened Prelude
  import opened LoadSpec
  import opened WaitQueues

  /** The two wait queues of a universe. */
  datatype Waitqueue = CategoriesToLoad | ClassesToLoad

  /** The part of a loadinfo that carries classes, mixins and categories. */
  datatype LoadInfo = LoadInfo(classes: seq<Load>, mixins: seq<Load>, categories: seq<Load>) {
    ghost predicate Sane() {
      && (forall l | l in classes :: l.LoadClass?)
      && (forall l | l in mixins :: l.LoadMixin?)
      && (forall l | l in categories :: l.LoadCategory?)
    }

    ghost function All(): set<Load> {
      Elems(classes) + Elems(mixins) + Elems(categories)
    }
  }

  /** The +load calls that one loadinfo has queued up. */
  class CallQueue {
    var list: seq<Load>

    constructor ()
      ensures list == []
    {
      list := [];
    }

    method Add(l: Load)
      modifies this
      ensures list == old(list) + [l]
    {
      list := list + [l];
    }
  }

  class Universe {
    const hashOf: Hash
    const classestoload: WaitQueue
    const categoriestoload: WaitQueue
    var classtable: ClassTable
    var loadcalls: seq<Load>      // the +load calls made so far
    ghost var submitted: set<Load>
    ghost var log: seq<Load>      // what was installed, in order

    ghost function Installed(): set<Load>
      reads this
    {
      Elems(log)
    }

    ghost function Waiting(): set<Load>
      reads classestoload, categoriestoload
    {
      classestoload.at.Keys + categoriestoload.at.Keys
    }

    /** Each waiting load is on one list of the right queue, that of its first missing class unless that list is pending. */
    ghost predicate Queued(pendingCategories: set<nat>, pendingClasses: set<nat>)
      reads this, classestoload, categoriestoload
    {
      && classestoload != categoriestoload && classestoload.Valid() && categoriestoload.Valid()
      && (forall l | l in classestoload.at :: l.LoadClass?)
      && (forall l | l in categoriestoload.at :: l.LoadCategory?)
      && Settled(classestoload.at, classtable, hashOf, pendingClasses)
      && Settled(categoriestoload.at, classtable, hashOf, pendingCategories)
    }

    /** What holds even in the middle of a drain, when the lists in the two pending sets are yet to be drained. */
    ghost predicate Inv(loads: CallQueue, pendingCategories: set<nat>, pendingClasses: set<nat>)
      reads this, classestoload, categoriestoload, loads
    {
      && Queued(pendingCategories, pendingClasses)
      && Books(submitted, log, Waiting(), classtable, loadcalls, loads.list)
    }

    /** What holds whenever no loadinfo is being enqueued. */
    ghost predicate Valid()
      reads this, classestoload, categoriestoload
    {
      && Queued({}, {})
      && Books(submitted, log, Waiting(), classtable, loadcalls, [])
      && Installed() + Waiting() == submitted
    }

    constructor (hashOf: Hash)
      ensures Valid() && this.hashOf == hashOf && submitted == {} && log == []
      ensures fresh(classestoload) && fresh(categoriestoload)
    {
      this.hashOf := hashOf;
      classestoload := new WaitQueue();
      categoriestoload := new WaitQueue();
      classtable, loadcalls, submitted, log := map[], [], {}, [];
    }

    // ----- dependencies

    /** Walks a dependency list, looking up a class only when it differs from the one at hand. */
    method FulfillDependencies(infra: Option<UniqueId>, dependencies: seq<Dependency>)
      returns (missing: Option<Dependency>)
      requires infra.Some? ==> infra.value in classtable
      ensures missing == FirstAbsent(dependencies, classtable)
    {
      var atHand := infra;
      for i := 0 to |dependencies|
        invariant atHand.Some? ==> atHand.value in classtable
        invariant FirstAbsent(dependencies, classtable) == FirstAbsent(dependencies[i..], classtable)
      {
        var d := dependencies[i];
        if atHand.None? || atHand.value != d.classid {
          atHand := if d.classid in classtable then Some(d.classid) else None;
          if atHand.None? {
            return Some(d);
          }
        }
        if d.categoryid.Some? && d.categoryid.value !in classtable[atHand.value] {
          return Some(d);
        }
      }
      return None;
    }

    method FulfillMixins(mixinids: seq<UniqueId>, skip: set<UniqueId>) returns (missing: Option<Dependency>)
      ensures missing == FirstAbsent(MixinRequirements(mixinids, skip), classtable)
    {
      for i := 0 to |mixinids|
        invariant FirstAbsent(MixinRequirements(mixinids, skip), classtable)
               == FirstAbsent(MixinRequirements(mixinids[i..], skip), classtable)
      {
        assert mixinids[i..][1..] == mixinids[i + 1..];
        FirstAbsentConcat(if mixinids[i] in skip then [] else [Dependency(mixinids[i], None)],
                          MixinRequirements(mixinids[i + 1..], skip), classtable);
        if mixinids[i] in skip {
          continue;
        }
        if mixinids[i] !in classtable {
          return Some(Dependency(mixinids[i], None));
        }
      }
      return None;
    }

    method LoadclassFulfillDependencies(info: Load) returns (missing: Option<Dependency>)
      requires info.LoadClass?
      ensures missing == FirstMissing(info, classtable)
    {
      var mixins := MixinRequirements(info.mixinids, SkippedMixins(info));
      FirstAbsentConcat(BaseRequirement(info) + mixins, info.dependencies, classtable);
      FirstAbsentConcat(BaseRequirement(info), mixins, classtable);
      if info.superclassid.Some? && info.superclassid.value !in classtable {
        return Some(Dependency(info.superclassid.value, None));
      }
      missing := FulfillMixins(info.mixinids, SkippedMixins(info));
      if missing.None? {
        missing := FulfillDependencies(None, info.dependencies);
      }
    }

    method LoadcategoryFulfillDependencies(info: Load) returns (missing: Option<Dependency>)
      requires info.LoadCategory?
      ensures missing == FirstMissing(info, classtable)
    {
      var mixins := MixinRequirements(info.mixinids, SkippedMixins(info));
      FirstAbsentConcat(BaseRequirement(info) + mixins, info.dependencies, classtable);
      FirstAbsentConcat(BaseRequirement(info), mixins, classtable);
      if info.classid !in classtable {
        return Some(Dependency(info.classid, None));
      }
      missing := FulfillMixins(info.mixinids, SkippedMixins(info));
      if missing.None? {
        missing := FulfillDependencies(Some(info.classid), info.dependencies);
      }
    }

    // ----- wait queues

    /** Parks a load on the list of the class it misses. */
    method MapAppendInfo(q: Waitqueue, missingclassid: UniqueId, info: Load, loads: CallQueue,
                         ghost pendingCategories: set<nat>, ghost pendingClasses: set<nat>)
      requires Inv(loads, pendingCategories, pendingClasses)
      requires info in submitted && info !in Installed() + Waiting()
      requires if q.ClassesToLoad? then info.LoadClass? else info.LoadCategory?
      requires WaitsAt(info, hashOf(missingclassid), classtable, hashOf)
      modifies classestoload, categoriestoload
      ensures Inv(loads, pendingCategories, pendingClasses)
      ensures Waiting() == old(Waiting()) + {info}
    {
      hide Books, Settled, WaitsAt, WaitQueue.Valid;
      BooksPark(submitted, log, Waiting(), classtable, loadcalls, loads.list, info);
      var hash := hashOf(missingclassid);
      if q.ClassesToLoad? {
        ParkSettles(classestoload.at, classtable, hashOf, pendingClasses, info, hash);
        classestoload.Append(hash, info);
      } else {
        ParkSettles(categoriestoload.at, classtable, hashOf, pendingCategories, info, hash);
        categoriestoload.Append(hash, info);
      }
      assert Waiting() == old(Waiting()) + {info};
    }

    /** The function that a queue is drained with. */
    method Callback(q: Waitqueue, info: Load, loads: CallQueue,
                    ghost pendingCategories: set<nat>, ghost pendingClasses: set<nat>)
      requires Inv(loads, pendingCategories, pendingClasses)
      requires info in submitted && info !in Installed() + Waiting()
      requires if q.CategoriesToLoad? then info.LoadCategory? else info.LoadClass?
      modifies this, classestoload, categoriestoload, loads
      ensures Inv(loads, pendingCategories, pendingClasses)
      ensures submitted == old(submitted) && old(log) <= log && loadcalls == old(loadcalls)
      ensures Installed() + Waiting() == old(Installed() + Waiting()) + {info}
      decreases submitted - Installed(), 2
    {
      if q.CategoriesToLoad? {
        LoadcategoryEnqueueNofail(info, loads, pendingCategories, pendingClasses);
      } else {
        LoadclassEnqueueNofail(info, loads, pendingCategories, pendingClasses);
      }
    }

    /** Takes a pending list out of its wait queue. */
    method DetachList(q: Waitqueue, hash: nat, loads: CallQueue,
                      ghost pendingCategories: set<nat>, ghost pendingClasses: set<nat>)
      returns (list: seq<Load>)
      requires if q.CategoriesToLoad? then Inv(loads, pendingCategories + {hash}, pendingClasses)
               else Inv(loads, pendingCategories, pendingClasses + {hash})
      modifies classestoload, categoriestoload
      ensures Inv(loads, pendingCategories, pendingClasses)
      ensures NoRepeats(list) && Waiting() == old(Waiting()) - Elems(list) && Elems(list) <= old(Waiting())
      ensures forall l | l in list :: if q.CategoriesToLoad? then l.LoadCategory? else l.LoadClass?
    {
      hide Books, Settled, WaitsAt, WaitQueue.Valid;
      ghost var was := Waiting();
      if q.CategoriesToLoad? {
        list := categoriestoload.Detach(hash);
        DetachSettles(old(categoriestoload.at), classtable, hashOf, pendingCategories, list, hash);
      } else {
        list := classestoload.Detach(hash);
        DetachSettles(old(classestoload.at), classtable, hashOf, pendingClasses, list, hash);
      }
      assert Waiting() == was - Elems(list);
      BooksUnpark(submitted, log, was, classtable, loadcalls, loads.list, Elems(list));
    }

    /** Calls back for every load of a detached list. Loads that are parked again land on a new list. */
    method ForEach(q: Waitqueue, list: seq<Load>, loads: CallQueue,
                   ghost pendingCategories: set<nat>, ghost pendingClasses: set<nat>)
      requires Inv(loads, pendingCategories, pendingClasses) && NoRepeats(list)
      requires forall l | l in list :: l in submitted && l !in Installed() + Waiting()
      requires forall l | l in list :: if q.CategoriesToLoad? then l.LoadCategory? else l.LoadClass?
      modifies this, classestoload, categoriestoload, loads
      ensures Inv(loads, pendingCategories, pendingClasses)
      ensures submitted == old(submitted) && old(log) <= log && loadcalls == old(loadcalls)
      ensures Installed() + Waiting() == old(Installed() + Waiting()) + Elems(list)
      decreases submitted - Installed(), 3
    {
      ghost var left := Elems(list);
      for i := 0 to |list|
        invariant Inv(loads, pendingCategories, pendingClasses)
        invariant submitted == old(submitted) && old(log) <= log && loadcalls == old(loadcalls)
        invariant left == Elems(list[i..]) && left <= submitted
        invariant Installed() + Waiting() + left == old(Installed() + Waiting()) + Elems(list)
        invariant forall l | l in left :: l !in Installed() + Waiting()
      {
        ElemsFrom(list, i);
        left := left - {list[i]};
        Callback(q, list[i], loads, pendingCategories, pendingClasses);
      }
    }

    /** Detaches the wait list of a class and enqueues everything that was on it once more. */
    method MapF(q: Waitqueue, classid: UniqueId, loads: CallQueue,
                ghost pendingCategories: set<nat>, ghost pendingClasses: set<nat>)
      requires if q.CategoriesToLoad?
               then Inv(loads, pendingCategories + {hashOf(classid)}, pendingClasses)
               else Inv(loads, pendingCategories, pendingClasses + {hashOf(classid)})
      modifies this, classestoload, categoriestoload, loads
      ensures Inv(loads, pendingCategories, pendingClasses)
      ensures submitted == old(submitted) && old(log) <= log && loadcalls == old(loadcalls)
      ensures Installed() + Waiting() == old(Installed() + Waiting())
      decreases submitted - Installed(), 4
    {
      hide Settled, WaitQueue.Valid;
      var list := DetachList(q, hashOf(classid), loads, pendingCategories, pendingClasses);
      ForEach(q, list, loads, pendingCategories, pendingClasses);
    }

    // ----- installing

    /** A new row for a class or mixin, one more category id for a category. */
    method RegisterInTable(info: Load)
      requires FirstMissing(info, classtable).None?
      modifies this`classtable
      ensures classtable == Register(old(classtable), info)
    {
      if info.LoadCategory? {
        assert Requirements(info)[0] in Requirements(info);
        classtable := classtable[info.classid := classtable[info.classid] + {info.categoryid}];
      } else {
        classtable := classtable[info.classid := {}];
      }
    }

    /** Enters a load into the class table and queues its +load; from here on its two wait lists are due. */
    method Install(info: Load, loads: CallQueue, ghost pendingCategories: set<nat>, ghost pendingClasses: set<nat>)
      requires Inv(loads, pendingCategories, pendingClasses)
      requires info in submitted && info !in Installed() + Waiting()
      requires FirstMissing(info, classtable).None?
      modifies this`classtable, this`log, loads
      ensures var h := hashOf(info.classid);
              Inv(loads, pendingCategories + {h}, pendingClasses + {h})
      ensures log == old(log) + [info] && Installed() == old(Installed()) + {info}
    {
      hide Settled, WaitsAt, WaitQueue.Valid, Register, FirstMissing;
      BooksInstall(submitted, log, Waiting(), classtable, loadcalls, loads.list, info);
      InstallSettles(classestoload.at, Installed(), info, hashOf, pendingClasses);
      InstallSettles(categoriestoload.at, Installed(), info, hashOf, pendingCategories);
      RegisterInTable(info);
      log := log + [info];
      if info.load {
        loads.Add(info);
      }
    }

    /** Retries first the categories, then the classes that wait for a class. */
    method Retrigger(classid: UniqueId, loads: CallQueue, ghost pendingCategories: set<nat>, ghost pendingClasses: set<nat>)
      requires var h := hashOf(classid);
               Inv(loads, pendingCategories + {h}, pendingClasses + {h})
      modifies this, classestoload, categoriestoload, loads
      ensures Inv(loads, pendingCategories, pendingClasses)
      ensures submitted == old(submitted) && old(log) <= log && loadcalls == old(loadcalls)
      ensures Installed() + Waiting() == old(Installed() + Waiting())
      decreases submitted - Installed(), 5
    {
      hide Books, Settled, WaitQueue.Valid;
      ghost var h := hashOf(classid);
      MapF(CategoriesToLoad, classid, loads, pendingCategories, pendingClasses + {h});
      MapF(ClassesToLoad, classid, loads, pendingCategories, pendingClasses);
    }

    method LoadclassEnqueue(info: Load, loads: CallQueue,
                            ghost pendingCategories: set<nat>, ghost pendingClasses: set<nat>)
      returns (missing: Option<UniqueId>)
      requires Inv(loads, pendingCategories, pendingClasses)
      requires info.LoadClass? && info in submitted && info !in Installed() + Waiting()
      modifies this, classestoload, categoriestoload, loads
      ensures Inv(loads, pendingCategories, pendingClasses)
      ensures submitted == old(submitted) && loadcalls == old(loadcalls)
      ensures missing.Some? <==> old(FirstMissing(info, classtable)).Some?
      ensures missing.Some? ==> missing.value == old(FirstMissing(info, classtable)).value.classid
      ensures missing.Some? ==> unchanged(this, classestoload, categoriestoload, loads)
      ensures missing.None? ==> old(log) + [info] <= log
      ensures missing.None? ==> Installed() + Waiting() == old(Installed() + Waiting()) + {info}
      decreases submitted - Installed(), 0
    {
      var dependency := LoadclassFulfillDependencies(info);
      if dependency.Some? {
        return Some(dependency.value.classid);
      }
      Install(info, loads, pendingCategories, pendingClasses);
      Retrigger(info.classid, loads, pendingCategories, pendingClasses);
      return None;
    }

    method LoadclassEnqueueNofail(info: Load, loads: CallQueue,
                                  ghost pendingCategories: set<nat>, ghost pendingClasses: set<nat>)
      requires Inv(loads, pendingCategories, pendingClasses)
      requires info.LoadClass? && info in submitted && info !in Installed() + Waiting()
      modifies this, classestoload, categoriestoload, loads
      ensures Inv(loads, pendingCategories, pendingClasses)
      ensures submitted == old(submitted) && old(log) <= log && loadcalls == old(loadcalls)
      ensures Installed() + Waiting() == old(Installed() + Waiting()) + {info}
      decreases submitted - Installed(), 1
    {
      var missingclassid := LoadclassEnqueue(info, loads, pendingCategories, pendingClasses);
      if missingclassid.Some? {
        MapAppendInfo(ClassesToLoad, missingclassid.value, info, loads, pendingCategories, pendingClasses);
      }
    }

    /** A mixin is always root: it waits for nothing. */
    method LoadmixinEnqueue(info: Load, loads: CallQueue,
                            ghost pendingCategories: set<nat>, ghost pendingClasses: set<nat>)
      requires Inv(loads, pendingCategories, pendingClasses)
      requires info.LoadMixin? && info in submitted && info !in Installed() + Waiting()
      modifies this, classestoload, categoriestoload, loads
      ensures Inv(loads, pendingCategories, pendingClasses)
      ensures submitted == old(submitted) && old(log) + [info] <= log && loadcalls == old(loadcalls)
      ensures Installed() + Waiting() == old(Installed() + Waiting()) + {info}
    {
      Install(info, loads, pendingCategories, pendingClasses);
      Retrigger(info.classid, loads, pendingCategories, pendingClasses);
    }

    method LoadcategoryEnqueue(info: Load, loads: CallQueue,
                               ghost pendingCategories: set<nat>, ghost pendingClasses: set<nat>)
      returns (missing: Option<UniqueId>)
      requires Inv(loads, pendingCategories, pendingClasses)
      requires info.LoadCategory? && info in submitted && info !in Installed() + Waiting()
      modifies this, classestoload, categoriestoload, loads
      ensures Inv(loads, pendingCategories, pendingClasses)
      ensures submitted == old(submitted) && loadcalls == old(loadcalls)
      ensures missing.Some? <==> old(FirstMissing(info, classtable)).Some?
      ensures missing.Some? ==> missing.value == old(FirstMissing(info, classtable)).value.classid
      ensures missing.Some? ==> unchanged(this, classestoload, categoriestoload, loads)
      ensures missing.None? ==> old(log) + [info] <= log
      ensures missing.None? ==> Installed() + Waiting() == old(Installed() + Waiting()) + {info}
      decreases submitted - Installed(), 0
    {
      var dependency := LoadcategoryFulfillDependencies(info);
      if dependency.Some? {
        return Some(dependency.value.classid);
      }
      Install(info, loads, pendingCategories, pendingClasses);
      Retrigger(info.classid, loads, pendingCategories, pendingClasses);
      return None;
    }

    method LoadcategoryEnqueueNofail(info: Load, loads: CallQueue,
                                     ghost pendingCategories: set<nat>, ghost pendingClasses: set<nat>)
      requires Inv(loads, pendingCategories, pendingClasses)
      requires info.LoadCategory? && info in submitted && info !in Installed() + Waiting()
      modifies this, classestoload, categoriestoload, loads
      ensures Inv(loads, pendingCategories, pendingClasses)
      ensures submitted == old(submitted) && old(log) <= log && loadcalls == old(loadcalls)
      ensures Installed() + Waiting() == old(Installed() + Waiting()) + {info}
      decreases submitted - Installed(), 1
    {
      var missingclassid := LoadcategoryEnqueue(info, loads, pendingCategories, pendingClasses);
      if missingclassid.Some? {
        MapAppendInfo(CategoriesToLoad, missingclassid.value, info, loads, pendingCategories, pendingClasses);
      }
    }

    // ----- loadinfos

    method LoadclasslistEnqueueNofail(list: seq<Load>, loads: CallQueue)
      requires Inv(loads, {}, {}) && NoRepeats(list) && forall l | l in list :: l.LoadClass?
      requires forall l | l in list :: l in submitted && l !in Installed() + Waiting()
      modifies this, classestoload, categoriestoload, loads
      ensures Inv(loads, {}, {})
      ensures submitted == old(submitted) && old(log) <= log && loadcalls == old(loadcalls)
      ensures Installed() + Waiting() == old(Installed() + Waiting()) + Elems(list)
    {
      ghost var left := Elems(list);
      for i := 0 to |list|
        invariant Inv(loads, {}, {})
        invariant submitted == old(submitted) && old(log) <= log && loadcalls == old(loadcalls)
        invariant left == Elems(list[i..]) && left <= submitted
        invariant Installed() + Waiting() + left == old(Installed() + Waiting()) + Elems(list)
        invariant forall l | l in left :: l !in Installed() + Waiting()
      {
        ElemsFrom(list, i);
        left := left - {list[i]};
        LoadclassEnqueueNofail(list[i], loads, {}, {});
      }
    }

    method LoadmixinlistEnqueueNofail(list: seq<Load>, loads: CallQueue)
      requires Inv(loads, {}, {}) && NoRepeats(list) && forall l | l in list :: l.LoadMixin?
      requires forall l | l in list :: l in submitted && l !in Installed() + Waiting()
      modifies this, classestoload, categoriestoload, loads
      ensures Inv(loads, {}, {})
      ensures submitted == old(submitted) && old(log) <= log && loadcalls == old(loadcalls)
      ensures Installed() + Waiting() == old(Installed() + Waiting()) + Elems(list)
    {
      ghost var left := Elems(list);
      for i := 0 to |list|
        invariant Inv(loads, {}, {})
        invariant submitted == old(submitted) && old(log) <= log && loadcalls == old(loadcalls)
        invariant left == Elems(list[i..]) && left <= submitted
        invariant Installed() + Waiting() + left == old(Installed() + Waiting()) + Elems(list)
        invariant forall l | l in left :: l !in Installed() + Waiting()
      {
        ElemsFrom(list, i);
        left := left - {list[i]};
        LoadmixinEnqueue(list[i], loads, {}, {});
      }
    }

    method LoadcategorylistEnqueueNofail(list: seq<Load>, loads: CallQueue)
      requires Inv(loads, {}, {}) && NoRepeats(list) && forall l | l in list :: l.LoadCategory?
      requires forall l | l in list :: l in submitted && l !in Installed() + Waiting()
      modifies this, classestoload, categoriestoload, loads
      ensures Inv(loads, {}, {})
      ensures submitted == old(submitted) && old(log) <= log && loadcalls == old(loadcalls)
      ensures Installed() + Waiting() == old(Installed() + Waiting()) + Elems(list)
    {
      ghost var left := Elems(list);
      for i := 0 to |list|
        invariant Inv(loads, {}, {})
        invariant submitted == old(submitted) && old(log) <= log && loadcalls == old(loadcalls)
        invariant left == Elems(list[i..]) && left <= submitted
        invariant Installed() + Waiting() + left == old(Installed() + Waiting()) + Elems(list)
        invariant forall l | l in left :: l !in Installed() + Waiting()
      {
        ElemsFrom(list, i);
        left := left - {list[i]};
        LoadcategoryEnqueueNofail(list[i], loads, {}, {});
      }
    }

    /** Makes the +load calls that are queued up, in order. */
    method Walk(loads: CallQueue)
      modifies this`loadcalls
      ensures loadcalls == old(loadcalls) + loads.list
    {
      for i := 0 to |loads.list|
        invariant loadcalls == old(loadcalls) + loads.list[..i]
      {
        loadcalls := loadcalls + [loads.list[i]];
      }
    }

    ghost method Submit(more: set<Load>, loads: CallQueue)
      requires Valid() && loads.list == [] && DistinctIds(submitted + more) && more !! submitted
      modifies this`submitted
      ensures Inv(loads, {}, {}) && submitted == old(submitted) + more
    {
      submitted := submitted + more;
    }

    /** With no list pending, what is installed is exactly the least closed set of what was submitted. */
    lemma {:induction false} NothingLeftToInstall()
      requires Valid()
      ensures IsLeastClosed(submitted, Installed()) && Waiting() == submitted - Installed()
    {
      forall l | l in submitted - Installed() ensures FirstMissing(l, classtable).Some? {
        assert l in classestoload.at || l in categoriestoload.at;
      }
      QuiescentIsLeastClosed(submitted, log);
    }

    /** Enqueues the classes, mixins and categories of a loadinfo and then makes the +load calls of all that got installed. */
    method LoadinfoEnqueueNofail(info: LoadInfo)
      requires Valid() && info.Sane()
      requires NoRepeats(info.classes) && NoRepeats(info.mixins) && NoRepeats(info.categories)
      requires info.All() !! submitted && DistinctIds(submitted + info.All())
      modifies this, classestoload, categoriestoload
      ensures Valid()
      ensures submitted == old(submitted) + info.All() && old(log) <= log
      ensures IsLeastClosed(submitted, Installed()) && Waiting() == submitted - Installed()
    {
      hide Settled, WaitQueue.Valid;
      var loads := new CallQueue();
      Submit(info.All(), loads);
      LoadclasslistEnqueueNofail(info.classes, loads);
      LoadmixinlistEnqueueNofail(info.mixins, loads);
      LoadcategorylistEnqueueNofail(info.categories, loads);
      Walk(loads);
      NothingLeftToInstall();
    }
  }
}
