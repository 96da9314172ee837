# The runtime's loader, caches, method search and class setup

This project models four parts of the mulle-objc runtime that keep state, and proves what they promise:

* **Loading** (`LoadSpec`, `WaitQueues`, `Loader`, `LoaderTheorems`). Classes, mixins and categories arrive in any
  order. Each is installed once everything it depends on is installed, and is parked on a wait list until then. The
  resolver is an object (`Loader.Universe`) with two tables of wait lists, keyed by any hash of class ids; that of the
  source is `WaitQueues.PlatformHash`. Installing something drains lists, which installs more. Its specification is the least set that is closed under "all dependencies are installed".
* **Method caches** (`Masks`, `CacheSizes`, `CacheSlots`, `Cache`). An open-addressed table of entries, probed by byte
  offset with a preshifted mask. Without concurrency it is a finite map.
* **Racing caches** (`CacheRace`, `CacheRaceFill`, `CacheRaceOwners`, `CacheRaceTheorems`, `CacheRaceOverflow`,
  `CacheRaceLookup`, `CacheRaceInsert`). Any
  number of threads fill and read one cache pivot without locks. A step is one atomic access. `CacheRace.Step` models
  the fill loop (`src/mulle-objc-cache.c:567-607` with `:178-212`, `:215-230`, `:469-519`, `:522-543`) and the lookup
  loop of the dispatchers (`src/mulle-objc-call.h:340-387`). Slots, the count and the pivot are shared, so a slot is
  half-published between the steps "value" and "key". `CacheRaceTheorems.Run` is any interleaving, and every state it
  ends in satisfies `CacheRaceTheorems.Invariant`.
* **Method search** (`SearchSpec`, `MethodSearch`, `SearchTheorems`, `SearchLaws`, `ClobberChain`, `SearchUpdates`). The recursive
  search with a mode that it changes as it goes is proved to compute a scan of a linearization
  (`SearchSpec.Blocks`: categories newest first, the class, its mixins in reverse, the superclass, and for a root
  metaclass its own infraclass). Then what each kind of search finds is said without modes, and in `SearchLaws` without
  the linearization, from the fields of one class at a time.
* **Dispatch** (`Dispatch`, `ForwardMemory`). Classes with their cache pivots, the ways to call a method, and the
  invalidation after a methodlist was added. A class is valid if what its cache holds is what a search would find now.
  `ForwardMemory` says when the forward method that a class remembers is outdated by a new methodlist.
* **Setup before the first message** (`Initialize`, `InitializeProof`, `InitializeTheorems`, `InitializeProgress`). Any number of threads set
  up classes and run `+initialize`, which may message any class. `Initialize.Act` models
  `src/mulle-objc-class-initialize.c:544-635` step by step; a setup that calls another one waits on the stack of its
  thread. `InitializeTheorems.Run` is any interleaving; `Sane`, which it mentions, holds in all reachable states.

Fatal errors of the runtime (duplicate classes, mismatching hashes or names) are preconditions. A missing forward
method or an unknown superid is the result `None`. Asserts in the source are taken as compiled out, and the
expectations they state are proved where they matter.

## Findings

* With a fill rate of 90 percent, which the configuration allows (`src/mulle-objc-universe-struct.h:83`), a cache of the
  default size 8 can be filled completely by a single thread, and then a lookup of any other id does not end
  (`CacheRaceOverflow.DefaultCacheAt90Percent`). `CacheRaceFill.Enough` is the exact condition for how many inserting
  threads, among any number of others, a cache can stand (`CacheRaceTheorems.EveryProbeEnds`,
  `CacheRaceOverflow.TooManyInsertersTrapALookup`).
* A lookup can miss a key that is visible in the cache before the lookup starts. A thread that fills another key sets the
  value of a slot before its key, and lookups take a slot without a key for the end of the probe
  (`src/mulle-objc-call.h:376`, `CacheRaceLookup.LookupCanMiss`). The call is then searched like any other miss.
  `CacheRaceLookup.LookupHitsExactly` says exactly when a visible key is found by every schedule: if all slots that are
  probed before it have keys.
* A search for the method of a specific category of a mixin goes on into the first methodlist of what follows if the
  mixin does not have the method (`SearchTheorems.SpecificSearchStrays`), since the mode that it has reached is not
  reset. `SearchTheorems.SpecificSearchIsExact` says exactly when the search answers for its category.
* The forward method that a class remembers is not forgotten when a new one is added: a class that has forwarded a call
  goes on to do so with the old method (`ForwardMemory.ForwardGoesStale`, `ForwardMemory.CallAcrossNewForward`).
  `ForwardMemory.FreshExactly` says, in terms of the new list and of the order of the methodlists that the class sees,
  exactly when what it remembers stays right, and `ForwardMemory.CallsStayRightExactly` which calls are affected if it
  does not. All other cached methods are kept up to date.
* The comment on `methodid` order in `src/mulle-objc-class.c` speaks of signed ids; the code compares unsigned ones, and
  so does the model.

## Model

| member | source | states |
|---|---|---|
| LoadSpec.FirstAbsent | src/mulle-objc-load.c:142-201 | the result is an absent dependency of the list, and there is none exactly if all are present |
| LoadSpec.FirstAbsentConcat | src/mulle-objc-load.c:349-447 | checking superclass, mixins and +dependencies one after the other finds the first absent one of all |
| LoadSpec.EnabledMonotone | src/mulle-objc-load.c:349-447 | what can be installed stays installable when more is installed |
| LoadSpec.LeastClosedUnique | src/mulle-objc-load.c:533-651 | there is only one least set that is closed under "all dependencies installed" |
| LoadSpec.QuiescentIsLeastClosed | src/mulle-objc-load.c:620-631 | an install log in dependency order, with nothing installable left over, is the least closed set |
| LoadSpec.ProviderComesFirst | src/mulle-objc-load.c:533-632 | in a dependency ordered log, who provides a dependency was installed before who needs it |
| LoadSpec.LoadRunsAfterDependencies | src/mulle-objc-load.c:1900-1923 | the +load calls of a dependency ordered log run +load of the dependencies first |
| WaitQueues.WaitqueueHashAliases | src/mulle-objc-load.h:73-82 | two different ids share a wait list exactly if intptr_t has 32 bits and they differ by the top bit, or are 0x7FFFFFFF and 0x80000000 |
| WaitQueues.WaitQueue.Append | src/mulle-objc-load.c:247-285 | the load is parked on the list of that key, and no other load moves |
| WaitQueues.WaitQueue.Detach | src/mulle-objc-load.c:105-111 | the list of the key is taken out with exactly the loads that wait there, each once, and only these leave the queue |
| WaitQueues.InstallWakesOnlyItsClass | src/mulle-objc-load.c:620-631 | after an install, a waiter still waits at the right list, or it waits on the list of the class that was installed |
| WaitQueues.InstallSettles | src/mulle-objc-load.c:620-631 | so all lists stay right except those of the class, which are about to be drained |
| WaitQueues.BooksInstall | src/mulle-objc-load.c:533-632 | an install keeps the books: log, class table, waiting loads and +load calls still agree |
| Loader.CallQueue.Add | src/mulle-objc-callqueue.c:94-114 | calls are queued in order |
| Loader.Universe.FulfillDependencies | src/mulle-objc-load.c:142-201 | the walk with a class at hand finds the first dependency of the list that is absent |
| Loader.Universe.FulfillMixins | src/mulle-objc-load.c:349-447 | the walk over the mixins finds the first one that is absent, leaving out the class itself |
| Loader.Universe.LoadclassFulfillDependencies | src/mulle-objc-load.c:349-447 | the result is what the class misses first: superclass, mixins, then +dependencies |
| Loader.Universe.LoadcategoryFulfillDependencies | src/mulle-objc-load.c:929-992 | the result is what the category misses first: class, mixins, then +dependencies |
| Loader.Universe.MapAppendInfo | src/mulle-objc-load.c:247-285 | a load that misses a class is parked on the list of that class, and the invariant is kept |
| Loader.Universe.DetachList | src/mulle-objc-load.c:105-111 | a pending list leaves its queue as a whole, after which it is no longer pending |
| Loader.Universe.ForEach | src/mulle-objc-load.c:112-115 | after calling back for a whole list each of its loads is installed or parked again, none is lost, and it terminates |
| Loader.Universe.MapF | src/mulle-objc-load.c:90-121 | draining a pending list keeps the invariant, loses and duplicates no load, and terminates, for any hash of class ids |
| Loader.Universe.Install | src/mulle-objc-load.c:571-619 | the load is registered once, in dependency order, and the lists of its class become pending |
| Loader.Universe.Retrigger | src/mulle-objc-load.c:620-631 | both lists of the class are drained and nothing is pending any more because of it |
| Loader.Universe.LoadclassEnqueue | src/mulle-objc-load.c:533-632 | the class is installed with all that this makes possible, or the class that it misses first is returned and nothing has changed |
| Loader.Universe.LoadclassEnqueueNofail | src/mulle-objc-load.c:635-651 | the class is installed or parked, exactly once |
| Loader.Universe.LoadmixinEnqueue | src/mulle-objc-load.c:672-746 | the mixin is installed with all that this makes possible |
| Loader.Universe.LoadcategoryEnqueue | src/mulle-objc-load.c:1128-1220 | the category is installed with all that this makes possible, or the class that it misses first is returned and nothing has changed |
| Loader.Universe.LoadcategoryEnqueueNofail | src/mulle-objc-load.c:1224-1238 | the category is installed or parked, exactly once |
| Loader.Universe.LoadclasslistEnqueueNofail | src/mulle-objc-load.c:776-797 | all classes of the list are installed or parked |
| Loader.Universe.LoadmixinlistEnqueueNofail | src/mulle-objc-load.c:802-823 | all mixins of the list are installed |
| Loader.Universe.LoadcategorylistEnqueueNofail | src/mulle-objc-load.c:1259-1280 | all categories of the list are installed or parked |
| Loader.Universe.Walk | src/mulle-objc-callqueue.c:129-145 | the queued +load calls are performed in order |
| Loader.Universe.NothingLeftToInstall | src/mulle-objc-load.c:1127-1238 | between loadinfos the installed set is the least closed set of all that was submitted |
| Loader.Universe.LoadinfoEnqueueNofail | src/mulle-objc-load.c:1868-1930 | a loadinfo is enqueued: afterwards exactly the least closed set of all that was ever submitted is installed |
| LoaderTheorems.ArrivalOrderIrrelevant | src/mulle-objc-load.c:533-651 | two universes that were given the same loads have installed the same, wait for the same, and have equal class tables, whatever the order and the platform |
| LoaderTheorems.NoLostWakeup | src/mulle-objc-load.c:246-285 | what is not installed is on the list of the class that it misses first now, and on no other list of either queue |
| LoaderTheorems.InstalledOnce | src/mulle-objc-load.c:635-651 | what is installed was installed once and is on no list any more |
| LoaderTheorems.LoadCalledOnce | src/mulle-objc-load.c:1900-1923 | exactly the installed loads that implement +load get it called, each once |
| LoaderTheorems.LoadCalledInOrder | src/mulle-objc-load.c:1900-1923 | +load is called after the superclass, class, mixins and +dependencies were installed and have had their +load called, over all loadinfos |
| LoaderTheorems.RequirementsAreNeeds | src/mulle-objc-load.c:349-447 | a load depends on exactly its superclass or class, its mixins except its own id and that of its superclass, and what +dependencies names |
| LoaderTheorems.TableHoldsInstalled | src/mulle-objc-load.c:571-619 | the class table has exactly the classes, mixins and categories that are installed |
| LoaderTheorems.NeedsComeFirst | src/mulle-objc-load.c:533-632 | superclass, class, mixins and +dependencies of an installed load were installed before it, read off its fields |
| LoaderTheorems.NeedsLoadFirst | src/mulle-objc-load.c:1900-1923 | and have had their +load called before |
| LoaderTheorems.WaitsForWhatItLacks | src/mulle-objc-load.c:246-285 | a load that is not installed waits on the list of its superclass or class if that is absent, else of its first absent mixin, else of its first absent dependency, and on no other; a mixin never waits |
| Masks.PreshiftedMaskIsModulo | src/mulle-objc-cache.h:112-121 | masking an id with the preshifted mask is the offset of a slot modulo the number of slots |
| Masks.StepWraps | src/mulle-objc-cache.h:289-301 | adding the entry size and masking goes to the next slot, or around |
| Masks.FirstStepWraps | src/mulle-objc-call.c:452-462 | so does adding it to the unmasked id, even if that overflows 32 bits |
| CacheSlots.OneLapVisitsEverySlotOnce | src/mulle-objc-cache.h:289-301 | a lap of probe steps visits every slot exactly once |
| CacheSlots.BelowLimit | src/mulle-objc-cache.c:215-230 | the limit at which a cache is to grow is a third of its size, or the fill rate in percent, rounded up |
| CacheSizes.Smear | src/mulle-objc-impcache.c:214-219 | the shifts fill all bits below the topmost one |
| CacheSizes.RoundUp | src/mulle-objc-impcache.c:212-221 | the result is the power of two from the number to less than twice the number |
| CacheSizes.ImpcacheNew | src/mulle-objc-impcache.c:195-221 | the size is a power of two from 4 to 4M, and the least that is not below the clamped request |
| CacheSizes.ImpcacheGrowWithStrategy | src/mulle-objc-impcache.h:337-353 | growing doubles, shrinking halves, stagnating keeps the size, within the limits |
| CacheSizes.CacheSizeIsPow2 | src/mulle-objc-impcache.c:205-221 | every cache size is 2^m for an m from 2 to 22 |
| CacheSlots.ProbeDecides | src/mulle-objc-cache.c:178-212 | a probe that stops at a free slot has proved that the id is absent |
| CacheSlots.InsertExtendsMap | src/mulle-objc-cache.c:382-409 | writing an absent id to the slot where its probe stopped adds it to the map and keeps keys distinct and chains unbroken |
| Cache.Cache.constructor | src/mulle-objc-cache.h:112-121 | a new cache is the empty map |
| Cache.Cache.ProbeEntryoffset | src/mulle-objc-cache.c:178-212 | the entry at the offset is that of the id if the map has it, else a free one, and all slots probed before are in use |
| Cache.Cache.ProbeEntryindex | src/mulle-objc-cache.c:133-170 | the number of steps to the id, or -1 exactly if it is absent |
| Cache.Cache.ProbeFunctionpointer | src/mulle-objc-cache.h:275-302 | the value of the id in the map, or NULL exactly if it is absent |
| Cache.Cache.ProbeInline | src/mulle-objc-impcache.h:265-297 | the loop that stops at keys instead of values finds the same |
| Cache.Cache.ProbeCollision | src/mulle-objc-call.c:452-479 | the loop that starts one slot after home finds the same, if home does not hold the id, even if home is free |
| Cache.Cache.StepsOfEntry | src/mulle-objc-cache.c:245-293 | the distance of an entry from its home by offsets, across the wrap-around |
| Cache.Cache.CalculateHits | src/mulle-objc-cache.c:245-293 | counts how many keys are found with 0, 1, 2 and more steps, and the total |
| Cache.Cache.AddFunctionpointerInactive | src/mulle-objc-cache.c:382-409 | an absent id is added to the map, a present one stays, and the count is that of the map |
| Cache.Cache.AddFunctionpointerEntry | src/mulle-objc-cache.c:469-519 | without other threads the three steps add the id to the map, or find it there |
| CacheRace.StepEvolves | src/mulle-objc-cache.c:469-519 | no step changes a value that is set or a key that is written, in any cache |
| CacheRace.SlotsKept | src/mulle-objc-cache.c:469-519 | every step keeps what is known of slots: values were passed for their keys, claims are exclusive, chains are unbroken |
| CacheRaceFill.FillKept | src/mulle-objc-cache.c:567-607 | every step keeps the account of slots in use, counted entries and admitted threads, in which only threads that insert appear |
| CacheRaceFill.OneThreadNeedsAFreeSlot | src/mulle-objc-cache.c:215-230 | one thread is few enough exactly if the cache is to grow while a slot is free |
| CacheRaceOwners.OwnersKept | src/mulle-objc-cache.c:522-607 | every step keeps each cache with exactly one owner |
| CacheRaceTheorems.InitialInvariant | src/mulle-objc-cache.c:567-607 | the invariant holds initially, for any number of threads |
| CacheRaceTheorems.InvariantKept | src/mulle-objc-cache.c:567-607 | every step of every thread keeps the invariant |
| CacheRaceTheorems.VisibleEntriesNeverChange | src/mulle-objc-cache.c:469-519 | in every run, a visible key keeps its slot and its value, in every cache ever allocated |
| CacheRaceTheorems.HalfPublishedHasOneWriter | src/mulle-objc-cache.c:469-519 | a slot with a value but without a key has exactly one thread that is about to write the key, and the value is the one it was asked to cache |
| CacheRaceTheorems.SlotsAgree | src/mulle-objc-cache.c:622-624 | if all fills of a key agree, then duplicate slots of the key hold the same value, across caches |
| CacheRaceTheorems.HitsArePassed | src/mulle-objc-call.h:340-387 | in every run, a lookup that has found its key returns next an implementation that is not NULL and was passed for that key, whether or not fills agree |
| CacheRaceTheorems.HitsAreRight | src/mulle-objc-call.h:340-387 | in every run, an implementation that a lookup has returned was passed for its key, and is the one implementation of the key if all fills of it agree |
| CacheRaceLookup.LookupHits | src/mulle-objc-call.h:340-387 | a lookup of a key that is visible, with keys in all slots probed before it, ends with the value of a slot with that key within 2d+3 of its own steps, d being the distance, whatever other threads do |
| CacheRaceLookup.LookupHitsExactly | src/mulle-objc-call.h:340-387 | that condition is exact: every schedule of a lookup hits if and only if it holds as the pivot is read |
| CacheRaceLookup.LookupMisses | src/mulle-objc-call.h:376-381 | otherwise the lookup misses if it runs alone |
| CacheRaceLookup.LookupCanMiss | src/mulle-objc-cache.c:469-519 | a reachable state with a visible key, and a run of a lookup of that key that misses |
| CacheRaceTheorems.NoGapBeforeKey | src/mulle-objc-cache.c:178-212 | all slots from the home of a visible key to the key are in use, at any time |
| CacheRaceTheorems.FillBound | src/mulle-objc-cache.c:215-230 | in every run, less than a third of the size, or less than the fill rate, is in use beyond the number of threads that insert, among any number of threads |
| CacheRaceTheorems.SomeSlotIsFree | src/mulle-objc-cache.c:215-230 | and then every cache that was ever allocated has a free slot, in every state of every run |
| CacheRaceTheorems.EveryProbeEnds | src/mulle-objc-cache.c:178-212 | if the number of threads that insert is at most the size minus that limit, every probe of every thread in every run gets closer to its end with each step |
| CacheRaceTheorems.CachesConserved | src/mulle-objc-cache.c:522-607 | each allocated cache is either current, or released once, or discarded once, or private to one thread |
| CacheRaceTheorems.LosersNeverPublished | src/mulle-objc-cache.c:522-543 | a cache that lost the race is never current and never in the hands of a thread again |
| CacheRaceTheorems.SizesDouble | src/mulle-objc-cache.c:547-607 | in the generic fill path, successive current caches exactly double in size |
| CacheRaceInsert.FillLeavesKey | src/mulle-objc-cache.c:567-607 | in every run, when a fill has ended, by its own write or because of another thread, its key is visible in a cache that is or was current |
| CacheRaceInsert.VisibleIsNotFilledAgain | src/mulle-objc-cache.c:469-519 | a fill of a key that is visible when it starts to probe takes no slot |
| CacheRaceInsert.ReplacedWereFull | src/mulle-objc-cache.c:567-607 | in the generic fill path, each cache that was replaced was filled to a third, or to the fill rate |
| CacheRaceInsert.ReplacedForGood | src/mulle-objc-cache.c:522-543 | once a thread has tried to replace a cache, it is never current again |
| CacheRaceInsert.AllocatesLarger | src/mulle-objc-cache.c:547-560 | a new cache is free and twice as large, method caches not beyond 4M entries |
| CacheRaceOverflow.TrappedForever | src/mulle-objc-call.h:340-387 | a lookup of an absent key in a cache where every slot has a key never ends, whatever any thread does |
| CacheRaceOverflow.TooManyInsertersTrapALookup | src/mulle-objc-cache.c:215-230 | with one inserting thread more than `EveryProbeEnds` allows there is a run after which a lookup, of any one of the threads, never ends |
| CacheRaceOverflow.DefaultCacheAt90Percent | src/mulle-objc-cache.c:215-230 | with a fill rate of 90 this happens to a cache of size 8 with a single thread |
| MethodSearch.MethodBsearch | src/mulle-objc-method.c:48-78 | finds an index with that id in sorted methods, or there is none |
| MethodSearch.MethodlistFind | src/mulle-objc-methodlist.c:76-96 | finds the first method that matches |
| MethodSearch.MethodlistSearch | src/mulle-objc-methodlist.h:133-147 | for sorted distinct ids, both ways to search find the first match |
| SearchSpec.FirstMatch | src/mulle-objc-methodlist.c:76-96 | the result is a match in the list, and there is none exactly if nothing matches |
| SearchSpec.ScanConcat | src/mulle-objc-class-search.c:673-772 | a search of one part of the linearization goes on in the next part with the mode it has reached |
| MethodSearch.SearchList | src/mulle-objc-class-search.c:545-656 | one methodlist: what is found, the new mode and the end of the search are those of the scan, for all modes |
| MethodSearch.SearchLists | src/mulle-objc-class-search.c:538-657 | the loop over the methodlists of a class, newest first and as the flags allow, is the scan of its visible lists |
| MethodSearch.SearchOwn | src/mulle-objc-class-search.c:510-671 | skipping a class, finding the anchor, and EINVAL for a missing category are those of the scan |
| MethodSearch.ProtocolSearch | src/mulle-objc-class-search.c:346-447 | the reverse loop over the mixins is the scan of the mixin blocks, with EEXIST for a second hidden override |
| MethodSearch.SearchMixin | src/mulle-objc-class-search.c:389-442 | a mixin is searched on its own, and found methods are merged as the loop does |
| MethodSearch.SearchOwnAndMixins | src/mulle-objc-class-search.c:510-707 | the class and then its mixins are scanned, and the search ends where it should |
| MethodSearch.SearchMethodInternal | src/mulle-objc-class-search.c:485-773 | the recursive search with its mode variable returns what the scan of the linearization says, and terminates |
| MethodSearch.SearchMethodSuper | src/mulle-objc-class-search.c:450-475 | the superclass is searched with its own flags unless the flags at hand are to be kept |
| MethodSearch.SearchMethod | src/mulle-objc-class-search.c:797-925 | the outcome of a search, with its error, is that of the linearization |
| SearchTheorems.DefaultSearchFindsFirst | src/mulle-objc-class-search.c:485-773 | a default search (and a search by implementation) is the verdict on the implementations in the linearization |
| SearchTheorems.VerdictByPosition | src/mulle-objc-class-search.c:605-656 | that verdict by positions: the first listing that has the method, or EEXIST if its method must not be an override and a later listing has one, or ENOENT |
| SearchTheorems.SuperSearchContinues | src/mulle-objc-class-search.c:510-518 | a super search is a default search of what is strictly after the first block of the anchor class, also if that is a mixin, and EINVAL exactly if there is no such block |
| SearchTheorems.OverriddenSearchContinues | src/mulle-objc-class-search.c:519-589 | an overridden search is a default search of what is after the anchor methodlist, without lists of that category of that class, and EINVAL exactly if class or category is missing |
| SearchTheorems.SpecificSearchIsExact | src/mulle-objc-class-search.c:519-592 | a specific search answers for its category if and only if that is not a mixin lacking the method with a stray match behind it; the errors for a missing class and a missing category |
| SearchTheorems.SpecificSearchStrays | src/mulle-objc-class-search.c:574-592 | a concrete hierarchy where a specific search finds the method of the superclass |
| SearchLaws.NewestListWins | src/mulle-objc-class-search.c:538-657 | if a visible methodlist of the class or metaclass has the method, the newest one that has it answers, or EEXIST if its method must not be an override and an older list, a mixin or the superclass has it, too |
| SearchLaws.LastMixinWins | src/mulle-objc-class-search.c:346-447 | if no visible methodlist has it, the newest list of the last mixin that has it answers, in the same way, unless flags or the class being a mixin rule out mixins |
| SearchLaws.SuperclassInherits | src/mulle-objc-class-search.c:732-772 | if no mixin has it either, the answer is that of the superclass of the same side, with its own flags unless those at hand are to be kept; of the own infraclass for a root metaclass; and ENOENT for a root infraclass |
| SearchLaws.SuperFindsLastMixin | src/mulle-objc-class-search.c:510-517 | a super search from the class itself finds what the last mixin with the method has |
| SearchLaws.SuperFindsSuperclass | src/mulle-objc-class-search.c:510-517 | or else what its superclass answers |
| SearchLaws.SpecificFindsCategory | src/mulle-objc-class-search.c:519-592 | a specific search for a category of the class itself finds the first such method of its newest list, or ENOENT |
| SearchLaws.ImpSearchFinds | src/mulle-objc-class-search.c:568-572 | a search by implementation answers with a method that has it, and is ENOENT exactly if nothing that it sees has it |
| ClobberChain.ChainIsComplete | src/mulle-objc-class-search.h:610-650 | the chain has all implementations exactly if none but the last minds being an override |
| ClobberChain.Enumerator.constructor | src/mulle-objc-class-search.h:610-619 | all implementations of the class remain to be enumerated |
| ClobberChain.Enumerator.Next | src/mulle-objc-class-search.h:622-650 | yields the newest remaining implementation and leaves the others, or ends and stays ended |
| ClobberChain.ClobberChainFor | src/mulle-objc-class-search.h:660-669 | the loop visits the methodlists of the class that its flags show and that have the method, from the newest to the oldest, each once, up to one whose method must not be an override but is, and then stops |
| SearchUpdates.UnrelatedListKeepsSearch | src/mulle-objc-class.c:403-456 | adding a methodlist to any class changes no default search, of any class, for an id that is not in the list |
| SearchUpdates.AddListInserts | src/mulle-objc-class.c:403-456 | what any search sees after a methodlist was added are the same blocks in the same order, with the new list put into those of the one class |
| SearchUpdates.NewListWins | src/mulle-objc-class.c:403-456 | a method of the new list is found in its class at once, also on the metaclass side and if an older list has one, unless it must not be an override |
| Dispatch.RememberForward | src/mulle-objc-class-search.c:1038-1053 | remembering the forward method leaves a coherent cache coherent |
| Dispatch.UncachedByPosition | src/mulle-objc-class-search.h:537-549 | without a cache, the method of the first listing with the id is called, unless it must not be an override and is; else the remembered forward method, else the first forward:, else that of the universe |
| Dispatch.AddListKeepsCoherent | src/mulle-objc-class.c:360-400 | a cache that holds none of the methods of a new list stays coherent |
| Dispatch.AddListKeepsForward | src/mulle-objc-class.c:360-400 | a list without forward: does not change the forward method of any class |
| Dispatch.RuntimeClass.CachedIsFresh | src/mulle-objc-class-search.h:537-549 | every method in the cache of a valid class is what a search without cache and memory finds now |
| Dispatch.RuntimeClass.CachedByPosition | src/mulle-objc-class-search.h:537-549 | and the one that the positions of methodlists say |
| Dispatch.RuntimeClass.SetupInitialCacheIfNeeded | src/mulle-objc-class-initialize.c:90-156 | the class becomes ready with an empty cache of the requested size, rounded, unless it is never to have one, and the cache is counted |
| Dispatch.RuntimeClass.LazygetForwardmethod | src/mulle-objc-class-search.c:1024-1053 | the remembered forward method, or the one that is found, which is remembered |
| Dispatch.RuntimeClass.SearchNofail | src/mulle-objc-class-search.h:537-549 | the method that a search finds, or the forward method |
| Dispatch.RuntimeClass.TryFill | src/mulle-objc-class-impcache.c:110-120 | one attempt adds the entry, or, exactly if the cache is too full, replaces it with an empty one, twice as large unless it has 4M entries already |
| Dispatch.RuntimeClass.FillImpcachepivotImp | src/mulle-objc-class-impcache.c:87-125 | a cache that is too full is replaced by one that holds just this entry, twice as large or as large if it has 4M entries; any other gets the entry; and the loop terminates |
| Dispatch.RuntimeClass.FillImpcacheMethod | src/mulle-objc-class-impcache.c:131-198 | a method that agrees with a search is put into the cache, which stays coherent; classes without a cache are left alone |
| Dispatch.RuntimeClass.RefreshMethodNofail | src/mulle-objc-class-lookup.c:202-211 | returns what is found without a cache, caches it, and keeps the class valid |
| Dispatch.RuntimeClass.RefreshSupermethodNofail | src/mulle-objc-class-lookup.c:234-243 | returns what the super search of the superid finds, caches it, and keeps the class valid |
| Dispatch.RuntimeClass.CallCacheMiss | src/mulle-objc-call.c:505-527 | selects what is found without a cache |
| Dispatch.RuntimeClass.CallCacheCollision | src/mulle-objc-call.c:432-479 | selects the same, from the cache or by a search, if the first slot does not hold the id |
| Dispatch.RuntimeClass.CallInline | src/mulle-objc-call.h:270-322 | the call that inlines the first slot selects the same, even if that slot is empty |
| Dispatch.RuntimeClass.CallInlineVariable | src/mulle-objc-call.h:479-518 | so does the call that tells an empty first slot from a collision |
| Dispatch.RuntimeClass.CallInlineFull | src/mulle-objc-call.h:340-458 | so does the call that inlines the whole loop, which is also that of the class callback (`src/mulle-objc-call.c:359-410`) |
| Dispatch.RuntimeClass.CallNeedcache | src/mulle-objc-class-initialize.c:710-733 | the first call of a class sets up its cache and then selects the same as a search, cached if there is a cache; during a setup further out it selects the same and sets up nothing |
| Dispatch.RuntimeClass.InvalidateImpcacheentry | src/mulle-objc-class-impcache.c:205-239 | the cache is replaced with an empty one of the same size exactly if it holds the id, or anything when no id is given, else it stays |
| Dispatch.RuntimeClass.InvalidateImpcache | src/mulle-objc-class.c:286-304 | the cache is emptied exactly if it holds one of the methods |
| Dispatch.RuntimeClass.InvalidateCachesCallback | src/mulle-objc-class.c:328-346 | a class that was valid before a methodlist was added is valid with it |
| Dispatch.Universe.DidaddMethodlist | src/mulle-objc-class.c:360-400 | all classes are valid with the new list, also if the walk is skipped because there has never been a cache |
| Dispatch.Universe.AddMethodlistNocache | src/mulle-objc-class.c:403-456 | a list that is not sorted is refused, any other is added |
| Dispatch.Universe.AddMethodlist | src/mulle-objc-class.c:520-535 | adding any methodlist to any class leaves all caches coherent |
| Dispatch.Universe.AddKeepsFresh | src/mulle-objc-class.c:360-400 | and what is remembered about forwarding, if the list has no forward: |
| Dispatch.Universe.AddMethodlistNofail | src/mulle-objc-class.c:538-546 | if the list has no forward:, each method in each cache is afterwards what a search without any cache or memory finds in the new hierarchy |
| ForwardMemory.ForwardStaysExactly | src/mulle-objc-class-search.c:1024-1035 | a new methodlist leaves the forward method of a class as it is exactly if no list has forward:, or the first one with it is new and brings the method used so far, or is old and does not become ambiguous by the new list; with EEXIST falling back to the default of the universe |
| ForwardMemory.FreshExactly | src/mulle-objc-class-search.c:1038-1053 | a class that remembers the right forward method, or none, still does after a methodlist was added exactly if it remembers none or that condition holds |
| ForwardMemory.CallsStayRightExactly | src/mulle-objc-class-search.h:537-549 | a call is selected as without memory exactly if its method is found, or nothing is remembered, or that condition holds |
| ForwardMemory.ForwardGoesStale | src/mulle-objc-class-search.c:1038-1053 | a concrete class and category with forward: where the remembered method is not the one that is found |
| ForwardMemory.CallAcrossNewForward | src/mulle-objc-class.c:520-535 | the same as a run of the model: call, new category, call; the second call selects the old forward method |
| Dispatch.Universe.SetupCaches | src/mulle-objc-class-initialize.c:608-622 | setting up a class gives it an empty cache and keeps all classes valid |
| Dispatch.Universe.Call | src/mulle-objc-call.h:270-518 | every way to call a method of a class, be it the first call or a later one, selects what the positions of methodlists say, which is what a search finds, caches it if the class has a cache then, and leaves all classes valid |
| InitializeProof.NotLockedByWaiter | src/mulle-objc-class-initialize.c:564-577 | the recursion test turns away a thread that has the lock already |
| InitializeProof.RecursionSettles | src/mulle-objc-class-initialize.c:564-574 | a thread that is turned away is at the setup further out, or the class is done |
| InitializeProof.StepKeepsInv | src/mulle-objc-class-initialize.c:544-635 | every step of every thread keeps the invariant of locks, bits, caches and stacks |
| InitializeTheorems.InitializeRunsOnce | src/mulle-objc-class-initialize.c:583-613 | in every run, +initialize of a class is called at most once, and never for a mixin |
| InitializeTheorems.DoneIsInitialized | src/mulle-objc-class-initialize.c:608-625 | a class that is done has had its +initialize, if it is not a mixin, and has its caches |
| InitializeTheorems.NeverWaitsForItself | src/mulle-objc-class-initialize.c:564-577 | a thread never waits for a class lock that it holds |
| InitializeTheorems.OneHolder | src/mulle-objc-class-initialize.c:576-633 | a class lock is held by one setup of one thread |
| InitializeTheorems.DependenciesComeFirst | src/mulle-objc-class-initialize.c:491-537 | when +initialize of a class is called, its superclass and each of its mixins is done or being set up by that same thread |
| InitializeTheorems.SetupReturnsSettled | src/mulle-objc-class-initialize.c:544-635 | when a setup returns, the class is done or a setup further out of that thread is at it |
| InitializeTheorems.ExpectationsHold | src/mulle-objc-class-initialize.c:74-142 | the expectations asserted in the source hold: the cache is initial, then empty, and a class that others have set up is done |
| InitializeTheorems.OwnCachesComeAfterInitialize | src/mulle-objc-class-initialize.c:608-622 | a class or metaclass has a cache of its own only after +initialize has returned |
| InitializeProgress.LoneThreadFinishes | src/mulle-objc-class-initialize.c:544-635 | if no other thread holds a lock, a thread that is setting up classes and is left alone is never blocked, comes to an end, and leaves the class done that it began with |

## Left out

- Loader.Universe.LoadinfoEnqueueNofail: strings, hashed strings, super strings, version checks, the filter callback and sorting of unsorted lists are not modelled.
- Loader.Universe.Install: adding methods, properties and ivars to the class is not modelled, only that it is registered; name, ivar hash and duplicate checks are preconditions.
- LoaderTheorems.ArrivalOrderIrrelevant: the order of category methodlists of a class does depend on the order of arrival, and is not claimed.
- A class that depends on itself stays parked; the assert against it is taken as compiled out.
- Cache.Cache.ProbeCollision: sizes are limited to 4M entries and ids to 32 bits, as in the source; an entry is 16 bytes (64 bit, entries without thread and class).
- CacheRaceTheorems.SizesDouble: not claimed for the "convenient" swap of the method caches (`reread`), which sizes the new cache by one read of the pivot and replaces the cache of another, so it may replace one that is larger already.
- CacheRace: memory ordering weaker than sequential consistency, torn writes of keys and the reclamation of released caches are not modelled.
- `_mulle_objc_impcachepivot_fill` reads an entry that was not set after a retry; the version in class-impcache.c is modelled instead.
- MethodSearch.SearchMethod: search callbacks, `stop_classid`, the search for a previous method, the retry after `method_is_missing` and the mark for found methods are not modelled. The result record of a specific search is not set by the source, only its method.
- MethodSearch.MethodBsearch: the sum of two indexes is not limited to 31 bits.
- MethodSearch.MethodlistSearch: the ids of a list are distinct, as the compiler makes them; the check of the source admits repeated ids.
- SearchSpec.Blocks: superclasses come before their subclasses in a hierarchy, so there are no cycles; aliases of methods are resolved.
- Dispatch.RuntimeClass.FillImpcacheMethod: call tracing and thread affine checks are off, and a fill before setup has begun, which is fatal, is taken as no fill.
- Dispatch.RuntimeClass.SetupInitialCacheIfNeeded: requires a fill rate with which a single thread cannot fill up the rounded first cache (`LeavesRoom`: up to 75 percent for 4 entries, 87 for 8, and any rate that the configuration allows for more); with any other, lookups need not end, see the findings.
- Dispatch.RuntimeClass.CallNeedcache: sets up the class that is messaged only. That this goes with its metaclass, superclass, mixins and their +initialize is modelled in `Initialize`, not in the model of dispatch.
- Dispatch.RuntimeClass.RefreshSupermethodNofail: entries for superids are not invalidated by the source when methodlists are added, so nothing is claimed of them.
- Dispatch: adding a mixin to a class that is in use invalidates nothing and is not modelled. Neither are the fast method table, the mask of standard implementations and the cache for key value coding.
- Dispatch: calls that race with a fill are modelled in `CacheRace`, calls that race with adding a methodlist are not.
- `_mulle_objc_class_lookup_implementation_mode`: its combinations of probing, searching and filling add nothing to the ways to call.
- Initialize: the order of the calls of +initializeSelf, of +initialize and of those of the mixins within one setup is not modelled, nor is deinitialization. The loop that sets a state bit is one step.
- Initialize: freedom from deadlock between threads is not claimed, only that a thread alone comes to an end; a superclass may message its subclasses in +initialize.
- Tracing, dumps, instance reuse and the research directory.
