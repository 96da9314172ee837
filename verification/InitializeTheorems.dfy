/** What the setup of classes guarantees in every run, whatever the threads do. */
module InitializeTheorems {
  import opened Prelude
  import opened Initialize
  import opened InitializeProof

  ghost predicate Run(w: World, run: seq<State>) {
    && run != [] && Init(w, run[0])
    && forall n | 0 <= n < |run| - 1 :: Sane(w, run[n]) && Step(w, run[n], run[n + 1])
  }

  lemma {:induction false} RunInv(w: World, run: seq<State>, n: nat)
    requires Run(w, run) && n < |run|
    ensures Inv(w, run[n])
  {
    if n > 0 {
      RunInv(w, run, n - 1);
      StepKeepsInv(w, run[n - 1], run[n]);
    }
  }

  /** The innermost setup of a thread. */
  ghost predicate Innermost(w: World, s: State, t: ThreadId, f: Setup) {
    Sane(w, s) && t < |s.stacks| && s.stacks[t] != [] && s.stacks[t][|s.stacks[t]| - 1] == f
  }

  lemma {:induction false} InnermostOk(w: World, s: State, t: ThreadId, f: Setup) returns (i: nat)
    requires Inv(w, s) && Innermost(w, s, t, f)
    ensures Top(w, s, t, i, f) && SetupOk(w[f.cls], s.classes[f.cls], t, i, f.pc) && DependenciesSettled(w, s.classes, t, i, f)
    ensures ClassOk(w[f.cls], s.classes[f.cls], f.cls, s.stacks)
  {
    i := |s.stacks[t]| - 1;
    assert ThreadOk(w, s.classes, t, s.stacks[t]);
  }

  // ----- once

  /** With this step, a thread calls the +initialize of a class. */
  ghost predicate Starts(w: World, s: State, s': State, c: nat)
    requires Sane(w, s)
  {
    exists t: ThreadId, f ::
      Innermost(w, s, t, f) && f.cls == c && f.pc.StartInitialize? && !w[c].isMixin && Proceeds(w, s, t, s')
  }

  ghost predicate RunsKept(a: State, b: State, c: nat) {
    c < |a.classes| && c < |b.classes| && a.classes[c].runs <= b.classes[c].runs
  }

  lemma {:induction false} StepKeepsRuns(w: World, s: State, s': State, c: nat)
    requires Sane(w, s) && Step(w, s, s') && c < |w|
    ensures RunsKept(s, s', c)
  {
  }

  lemma {:induction false} RunKeepsRuns(w: World, run: seq<State>, m: nat, n: nat, c: nat)
    requires Run(w, run) && m < n < |run| && c < |w|
    ensures RunsKept(run[m], run[n], c)
    decreases n
  {
    StepKeepsRuns(w, run[n - 1], run[n], c);
    if m < n - 1 {
      RunKeepsRuns(w, run, m, n - 1, c);
    }
  }

  lemma {:induction false} StartsCount(w: World, s: State, s': State, c: nat)
    requires Inv(w, s) && Starts(w, s, s', c) && c < |w|
    ensures c < |s'.classes| && s.classes[c].runs == 0 && s'.classes[c].runs == 1 && !w[c].isMixin
  {
    var t: ThreadId, f :| Innermost(w, s, t, f) && f.cls == c && f.pc.StartInitialize? && !w[c].isMixin && Proceeds(w, s, t, s');
    var _ := InnermostOk(w, s, t, f);
  }

  /** The +initialize of a class is called at most once, and never for a mixin. */
  lemma {:induction false} InitializeRunsOnce(w: World, run: seq<State>, m: nat, n: nat, c: nat)
    requires Run(w, run) && m <= n < |run| - 1 && c < |w|
    requires Starts(w, run[m], run[m + 1], c) && Starts(w, run[n], run[n + 1], c)
    ensures m == n && !w[c].isMixin
  {
    RunInv(w, run, m);
    RunInv(w, run, n);
    StartsCount(w, run[m], run[m + 1], c);
    StartsCount(w, run[n], run[n + 1], c);
    if m + 1 < n {
      RunKeepsRuns(w, run, m + 1, n, c);
    }
  }

  /** A class that is done has had its +initialize, and it has its caches. */
  lemma {:induction false} DoneIsInitialized(w: World, run: seq<State>, n: nat, c: nat)
    requires Run(w, run) && n < |run| && c < |w| && Sane(w, run[n]) && run[n].classes[c].done
    ensures var k := run[n].classes[c];
            && (k.runs == 1 <==> !w[c].isMixin)
            && k.meta == FullSide(w[c].emptyMeta) && k.infra == FullSide(w[c].emptyInfra)
  {
    RunInv(w, run, n);
    assert ClassOk(w[c], run[n].classes[c], c, run[n].stacks);
  }

  // ----- locks

  /** A thread never waits for a lock that it has. */
  lemma {:induction false} NeverWaitsForItself(w: World, run: seq<State>, n: nat, t: ThreadId, f: Setup)
    requires Run(w, run) && n < |run| && Innermost(w, run[n], t, f) && f.pc.Lock?
    ensures run[n].classes[f.cls].lock != Some(t)
    ensures forall j | 0 <= j < |run[n].stacks[t]| && Holds(run[n].stacks[t][j].pc) :: run[n].stacks[t][j].cls != f.cls
  {
    RunInv(w, run, n);
    var i := InnermostOk(w, run[n], t, f);
    assert ThreadOk(w, run[n].classes, t, run[n].stacks[t]);
  }

  /** No two setups hold the lock of a class, on whatever stacks. */
  lemma {:induction false} OneHolder(w: World, run: seq<State>, n: nat, t: ThreadId, i: nat, u: ThreadId, j: nat)
    requires Run(w, run) && n < |run| && t < |run[n].stacks| && u < |run[n].stacks|
    requires i < |run[n].stacks[t]| && j < |run[n].stacks[u]|
    requires run[n].stacks[t][i].cls == run[n].stacks[u][j].cls
    requires Holds(run[n].stacks[t][i].pc) && Holds(run[n].stacks[u][j].pc)
    ensures t == u && i == j
  {
    RunInv(w, run, n);
    assert ThreadOk(w, run[n].classes, t, run[n].stacks[t]) && ThreadOk(w, run[n].classes, u, run[n].stacks[u]);
  }

  // ----- order

  /** The class is set up, or a setup further out on the stack of that thread is at it. */
  ghost predicate SetUpOrAtIt(s: State, t: ThreadId, c: nat)
    requires t < |s.stacks| && c < |s.classes|
  {
    s.classes[c].done || exists j :: 0 <= j < |s.stacks[t]| && s.stacks[t][j].cls == c && Working(s.stacks[t][j].pc)
  }

  lemma {:induction false} SettledMeans(w: World, s: State, t: ThreadId, i: nat, c: nat)
    requires Inv(w, s) && t < |s.stacks| && i < |s.stacks[t]| && c < |w| && Settled(s.classes[c], t, i)
    ensures SetUpOrAtIt(s, t, c)
  {
    assert ClassOk(w[c], s.classes[c], c, s.stacks);
    if !s.classes[c].done {
      assert s.stacks[t][s.classes[c].at].cls == c;
    }
  }

  /** When +initialize of a class is called, the superclass and the mixins were set up, unless this thread is at it. */
  lemma {:induction false} DependenciesComeFirst(w: World, run: seq<State>, n: nat, t: ThreadId, f: Setup)
    requires Run(w, run) && n < |run| && Innermost(w, run[n], t, f) && f.pc.StartInitialize?
    ensures forall j | 0 <= j < |w[f.cls].mixins| :: w[f.cls].mixins[j] < |w| && SetUpOrAtIt(run[n], t, w[f.cls].mixins[j])
    ensures w[f.cls].superclass.Some? ==>
              w[f.cls].superclass.value < |w| && SetUpOrAtIt(run[n], t, w[f.cls].superclass.value)
  {
    RunInv(w, run, n);
    var i := InnermostOk(w, run[n], t, f);
    forall j | 0 <= j < |w[f.cls].mixins| ensures SetUpOrAtIt(run[n], t, w[f.cls].mixins[j]) {
      SettledMeans(w, run[n], t, i, w[f.cls].mixins[j]);
    }
    if w[f.cls].superclass.Some? {
      SettledMeans(w, run[n], t, i, w[f.cls].superclass.value);
    }
  }

  /** The class of a setup from which a thread has returned. */
  lemma {:induction false} PoppedIsSettled(w: World, s: State, t: ThreadId, i: nat, f: Setup, s': State)
    requires Top(w, s, t, i, f) && Act(w, s.classes, t, i, f).Did? && Act(w, s.classes, t, i, f).move.Pop? && Inv(w, s')
    requires s' == State(s.classes[f.cls := Act(w, s.classes, t, i, f).cls], s.stacks[t := MoveStack(s.stacks[t], Pop)])
    ensures SetUpOrAtIt(s', t, f.cls)
  {
    hide ThreadOk, ClassOk, Act;
    PopSettles(w, s, t, i, f);
    if i > 0 {
      SettledMeans(w, s', t, i - 1, f.cls);
    }
  }

  /** A setup that returns leaves a class that is set up, except if a setup further out is at it. */
  lemma {:induction false} SetupReturnsSettled(w: World, run: seq<State>, n: nat, t: ThreadId, f: Setup)
    requires Run(w, run) && n < |run| - 1 && Innermost(w, run[n], t, f) && Proceeds(w, run[n], t, run[n + 1])
    requires Act(w, run[n].classes, t, |run[n].stacks[t]| - 1, f).move.Pop?
    ensures |run[n + 1].classes| == |w| && t < |run[n + 1].stacks| && SetUpOrAtIt(run[n + 1], t, f.cls)
  {
    hide Run, ThreadOk, ClassOk, Act;
    RunInv(w, run, n);
    RunInv(w, run, n + 1);
    var i := InnermostOk(w, run[n], t, f);
    PoppedIsSettled(w, run[n], t, i, f, run[n + 1]);
  }

  // ----- caches

  /** What the steps expect of the caches, and of a class that others have set up. */
  lemma {:induction false} ExpectationsHold(w: World, run: seq<State>, n: nat, t: ThreadId, f: Setup)
    requires Run(w, run) && n < |run| && Innermost(w, run[n], t, f)
    ensures var k := run[n].classes[f.cls];
            && (f.pc.EmptyMeta? ==> k.meta.pivot == InitialCache) && (f.pc.EmptyInfra? ==> k.infra.pivot == InitialCache)
            && (f.pc.CacheMeta? ==> k.meta == Side(EmptyCache, false)) && (f.pc.CacheInfra? ==> k.infra == Side(EmptyCache, false))
            && (f.pc.SetInitializing? && k.initializing ==> k.done)
  {
    RunInv(w, run, n);
    var _ := InnermostOk(w, run[n], t, f);
  }

  /** As long as +initialize runs, nothing is cached: caches of their own come to the class and its metaclass afterwards. */
  lemma {:induction false} OwnCachesComeAfterInitialize(w: World, run: seq<State>, n: nat, c: nat)
    requires Run(w, run) && n < |run| && c < |w| && Sane(w, run[n])
    requires run[n].classes[c].meta.pivot == OwnCache || run[n].classes[c].infra.pivot == OwnCache
    ensures run[n].classes[c].runs == if w[c].isMixin then 0 else 1
    ensures forall t, i | 0 <= t < |run[n].stacks| && 0 <= i < |run[n].stacks[t]| ::
              run[n].stacks[t][i].cls == c ==> !run[n].stacks[t][i].pc.UserCode?
  {
    RunInv(w, run, n);
    var s := run[n];
    var k := s.classes[c];
    assert ClassOk(w[c], k, c, s.stacks);
    if k.initializing && !k.done {
      assert ThreadOk(w, s.classes, k.lock.value, s.stacks[k.lock.value]);
    }
    forall t, i | 0 <= t < |s.stacks| && 0 <= i < |s.stacks[t]| && s.stacks[t][i].cls == c
      ensures !s.stacks[t][i].pc.UserCode?
    {
      assert ThreadOk(w, s.classes, t, s.stacks[t]);
      assert SetupOk(w[c], k, t, i, s.stacks[t][i].pc);
    }
  }
}
