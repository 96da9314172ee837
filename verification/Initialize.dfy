/**
 The setup of classes before their first message, by any number of threads. A thread has a stack of setups, since
 the setup of a class sets up its superclass and mixins, and runs +initialize, which may message any class.
 */
module Initialize {
  import opened Prelude

  type ThreadId = nat

  /** What is known of a class and its metaclass beforehand. The empty caches are those that are never to be replaced. */
  datatype Pair = Pair(superclass: Option<nat>, mixins: seq<nat>, isMixin: bool, emptyMeta: bool, emptyInfra: bool)

  type World = seq<Pair>

  ghost predicate WorldOk(w: World) {
    forall c | 0 <= c < |w| ::
      && (w[c].superclass.Some? ==> w[c].superclass.value < |w|)
      && forall k | 0 <= k < |w[c].mixins| :: w[c].mixins[k] < |w|
  }

  datatype Pivot = InitialCache | EmptyCache | OwnCache

  /** The cache of a class or a metaclass. */
  datatype Side = Side(pivot: Pivot, ready: bool)

  /** `runs` counts how often +initialize was started. `at` is the position of the setup that holds the lock on the stack of its thread. */
  datatype ClassState = ClassState(lock: Option<ThreadId>, threadId: Option<ThreadId>, initializing: bool, done: bool,
                                   meta: Side, infra: Side, runs: nat, at: nat)

  /** Where a setup has got to. */
  datatype Pc =
    | CheckInitializing
    | CheckThread
    | Lock
    | WriteThread
    | SetInitializing
    | MetaSuper
    | Mixins(k: nat)
    | Super
    | EmptyMeta
    | EmptyInfra
    | StartInitialize
    | UserCode
    | CacheMeta
    | CacheInfra
    | SetDone
    | Unlock

  datatype Setup = Setup(cls: nat, pc: Pc)

  datatype State = State(classes: seq<ClassState>, stacks: seq<seq<Setup>>)

  /** What a step does to the setup: go on, start another one, or return. */
  datatype Move = Goto(pc: Pc) | Push(cls: nat) | Pop

  /** The class of the setup may change. A thread that waits for a lock is blocked. */
  datatype Effect = Blocked | Did(cls: ClassState, move: Move)

  ghost predicate Sane(w: World, s: State) {
    && WorldOk(w) && |s.classes| == |w|
    && forall t, i | 0 <= t < |s.stacks| && 0 <= i < |s.stacks[t]| :: s.stacks[t][i].cls < |w|
  }

  /** Sets up another class, unless that is done. The setup goes on from here when the other one returns. */
  function SetupIfNeeded(classes: seq<ClassState>, self: ClassState, target: nat, next: Pc): Effect
    requires target < |classes|
  {
    Did(self, if classes[target].done then Goto(next) else Push(target))
  }

  function InitialCacheIfNeeded(side: Side, alwaysEmpty: bool): Side {
    if side.ready then side else Side(if alwaysEmpty then side.pivot else OwnCache, true)
  }

  /** The next step of a setup, at a position on the stack of a thread. */
  function Act(w: World, classes: seq<ClassState>, t: ThreadId, i: nat, f: Setup): Effect
    requires WorldOk(w) && |classes| == |w| && f.cls < |w|
  {
    var p, k := w[f.cls], classes[f.cls];
    match f.pc
    case CheckInitializing => Did(k, Goto(if k.initializing then CheckThread else Lock))
    case CheckThread => Did(k, if k.threadId == Some(t) then Pop else Goto(Lock))
    case Lock => if k.lock.Some? then Blocked else Did(k.(lock := Some(t), at := i), Goto(WriteThread))
    case WriteThread => Did(k.(threadId := Some(t)), Goto(SetInitializing))
    case SetInitializing => Did(k.(initializing := true), Goto(if k.initializing then Unlock else MetaSuper))
    case MetaSuper => SetupIfNeeded(classes, k, if p.superclass.Some? then p.superclass.value else f.cls, Mixins(0))
    case Mixins(j) => if j < |p.mixins| then SetupIfNeeded(classes, k, p.mixins[j], Mixins(j + 1)) else Did(k, Goto(Super))
    case Super => if p.superclass.Some? then SetupIfNeeded(classes, k, p.superclass.value, EmptyMeta) else Did(k, Goto(EmptyMeta))
    case EmptyMeta => Did(k.(meta := k.meta.(pivot := EmptyCache)), Goto(EmptyInfra))
    case EmptyInfra => Did(k.(infra := k.infra.(pivot := EmptyCache)), Goto(StartInitialize))
    case StartInitialize => if p.isMixin then Did(k, Goto(CacheMeta)) else Did(k.(runs := k.runs + 1), Goto(UserCode))
    case UserCode => Did(k, Goto(CacheMeta))
    case CacheMeta => Did(k.(meta := InitialCacheIfNeeded(k.meta, p.emptyMeta)), Goto(CacheInfra))
    case CacheInfra => Did(k.(infra := InitialCacheIfNeeded(k.infra, p.emptyInfra)), Goto(SetDone))
    case SetDone => Did(k.(done := true), Goto(Unlock))
    case Unlock => Did(k.(lock := None), Pop)
  }

  /** Where the setup that has called another one goes on. */
  function Resume(pc: Pc): Pc {
    match pc
    case MetaSuper => Mixins(0)
    case Mixins(j) => Mixins(j + 1)
    case Super => EmptyMeta
    case _ => pc
  }

  function MoveStack(stack: seq<Setup>, move: Move): seq<Setup>
    requires stack != []
  {
    var n := |stack| - 1;
    match move
    case Goto(pc) => stack[n := stack[n].(pc := pc)]
    case Push(c) => stack + [Setup(c, CheckInitializing)]
    case Pop => if n == 0 then [] else stack[..n][n - 1 := stack[n - 1].(pc := Resume(stack[n - 1].pc))]
  }

  /** A thread takes the next step of its innermost setup. */
  ghost predicate Proceeds(w: World, s: State, t: ThreadId, s': State)
    requires Sane(w, s)
  {
    && t < |s.stacks| && s.stacks[t] != []
    && var stack := s.stacks[t];
       var f := stack[|stack| - 1];
       var e := Act(w, s.classes, t, |stack| - 1, f);
       e.Did? && s' == State(s.classes[f.cls := e.cls], s.stacks[t := MoveStack(stack, e.move)])
  }

  /** A thread messages a class, from outside of any setup or from a +initialize. */
  ghost predicate Messages(w: World, s: State, t: ThreadId, c: nat, s': State) {
    && t < |s.stacks| && c < |w|
    && var stack := s.stacks[t];
       (stack == [] || stack[|stack| - 1].pc == UserCode)
       && s' == s.(stacks := s.stacks[t := stack + [Setup(c, CheckInitializing)]])
  }

  ghost predicate StepOf(w: World, s: State, t: ThreadId, s': State)
    requires Sane(w, s)
  {
    Proceeds(w, s, t, s') || exists c :: Messages(w, s, t, c, s')
  }

  ghost predicate Step(w: World, s: State, s': State)
    requires Sane(w, s)
  {
    exists t :: StepOf(w, s, t, s')
  }

  /** No class is set up, and no thread is about to. */
  ghost predicate Init(w: World, s: State) {
    && WorldOk(w) && |s.classes| == |w|
    && (forall c | 0 <= c < |w| ::
          s.classes[c] == ClassState(None, s.classes[c].threadId, false, false, Side(InitialCache, false), Side(InitialCache, false), 0, 0))
    && forall t | 0 <= t < |s.stacks| :: s.stacks[t] == []
  }

  // ----- what holds in all reachable states

  /** The setup has the lock. */
  predicate Holds(pc: Pc) {
    !pc.CheckInitializing? && !pc.CheckThread? && !pc.Lock?
  }

  /** The setup is the one that really sets up the class. */
  predicate Working(pc: Pc) {
    Holds(pc) && !pc.WriteThread? && !pc.SetInitializing? && !pc.Unlock?
  }

  /** The setup that called another one. */
  predicate Waiting(pc: Pc) {
    pc.MetaSuper? || pc.Mixins? || pc.Super? || pc.UserCode?
  }

  function FullSide(alwaysEmpty: bool): Side {
    Side(if alwaysEmpty then EmptyCache else OwnCache, true)
  }

  function MetaAt(p: Pair, pc: Pc): Side {
    if pc.MetaSuper? || pc.Mixins? || pc.Super? || pc.EmptyMeta? then Side(InitialCache, false)
    else if pc.EmptyInfra? || pc.StartInitialize? || pc.UserCode? || pc.CacheMeta? then Side(EmptyCache, false)
    else FullSide(p.emptyMeta)
  }

  function InfraAt(p: Pair, pc: Pc): Side {
    if pc.MetaSuper? || pc.Mixins? || pc.Super? || pc.EmptyMeta? || pc.EmptyInfra? then Side(InitialCache, false)
    else if pc.StartInitialize? || pc.UserCode? || pc.CacheMeta? || pc.CacheInfra? then Side(EmptyCache, false)
    else FullSide(p.emptyInfra)
  }

  function RunsAt(p: Pair, pc: Pc): nat {
    if pc.UserCode? || pc.CacheMeta? || pc.CacheInfra? || pc.SetDone? then (if p.isMixin then 0 else 1) else 0
  }

  /** The class is set up, or being set up by this thread, further out or right at this position on its stack. */
  predicate Settled(k: ClassState, t: ThreadId, i: nat) {
    k.done || (k.initializing && k.lock == Some(t) && k.at <= i)
  }

  /** How many of the mixins were set up. */
  function MixinsDone(p: Pair, pc: Pc): nat {
    match pc
    case MetaSuper => 0
    case Mixins(j) => if j <= |p.mixins| then j else |p.mixins|
    case _ => |p.mixins|
  }

  predicate SuperDone(pc: Pc) {
    Working(pc) && !pc.MetaSuper? && !pc.Mixins? && !pc.Super?
  }

  /** The classes that a setup depends on are settled, as far as it has got. */
  ghost predicate DependenciesSettled(w: World, classes: seq<ClassState>, t: ThreadId, i: nat, f: Setup)
    requires WorldOk(w) && |classes| == |w| && f.cls < |w|
  {
    Working(f.pc) ==>
      && (forall j | 0 <= j < MixinsDone(w[f.cls], f.pc) :: Settled(classes[w[f.cls].mixins[j]], t, i))
      && (SuperDone(f.pc) && w[f.cls].superclass.Some? ==> Settled(classes[w[f.cls].superclass.value], t, i))
  }

  /** What a setup knows about its class. */
  ghost predicate SetupOk(p: Pair, k: ClassState, t: ThreadId, i: nat, pc: Pc) {
    && (Holds(pc) ==> k.lock == Some(t) && k.at == i)
    && (Holds(pc) && !pc.WriteThread? ==> k.threadId == Some(t))
    && (pc.CheckThread? ==> k.initializing)
    && (pc.Lock? ==> k.lock != Some(t))
    && (Working(pc) ==> k.initializing && !k.done && k.meta == MetaAt(p, pc) && k.infra == InfraAt(p, pc) && k.runs == RunsAt(p, pc))
    && (pc.Unlock? ==> k.done)
  }

  /** What is the target of the call that a setup waits for. */
  function Target(p: Pair, f: Setup): Option<nat> {
    match f.pc
    case MetaSuper => Some(if p.superclass.Some? then p.superclass.value else f.cls)
    case Mixins(j) => if j < |p.mixins| then Some(p.mixins[j]) else None
    case Super => p.superclass
    case _ => None
  }

  /** Setups further out wait for those further in. */
  ghost predicate StackOk(w: World, stack: seq<Setup>)
    requires forall i | 0 <= i < |stack| :: stack[i].cls < |w|
  {
    forall i | 0 <= i < |stack| - 1 ::
      Waiting(stack[i].pc) && (!stack[i].pc.UserCode? ==> Target(w[stack[i].cls], stack[i]) == Some(stack[i + 1].cls))
  }

  ghost predicate ThreadOk(w: World, classes: seq<ClassState>, t: ThreadId, stack: seq<Setup>)
    requires WorldOk(w) && |classes| == |w| && forall i | 0 <= i < |stack| :: stack[i].cls < |w|
  {
    && StackOk(w, stack)
    && forall i | 0 <= i < |stack| ::
         && SetupOk(w[stack[i].cls], classes[stack[i].cls], t, i, stack[i].pc)
         && DependenciesSettled(w, classes, t, i, stack[i])
  }

  /** The lock of a class is that of a setup on some stack, and a class is initializing as long as that one works. */
  ghost predicate HolderOk(k: ClassState, c: nat, stacks: seq<seq<Setup>>) {
    && (k.lock.Some? ==>
          && k.lock.value < |stacks| && k.at < |stacks[k.lock.value]|
          && var f := stacks[k.lock.value][k.at]; f.cls == c && Holds(f.pc))
    && (k.initializing && !k.done ==> k.lock.Some? && Working(stacks[k.lock.value][k.at].pc))
  }

  /** A class that is not being set up has the caches and the calls of +initialize of one that is not, or is, set up. */
  ghost predicate BitsOk(p: Pair, k: ClassState) {
    && (!k.initializing ==> !k.done && k.meta == k.infra == Side(InitialCache, false) && k.runs == 0)
    && (k.done ==> k.initializing && k.meta == FullSide(p.emptyMeta) && k.infra == FullSide(p.emptyInfra)
                   && k.runs == if p.isMixin then 0 else 1)
  }

  ghost predicate ClassOk(p: Pair, k: ClassState, c: nat, stacks: seq<seq<Setup>>) {
    HolderOk(k, c, stacks) && BitsOk(p, k)
  }

  ghost predicate Inv(w: World, s: State) {
    && Sane(w, s)
    && (forall t | 0 <= t < |s.stacks| :: ThreadOk(w, s.classes, t, s.stacks[t]))
    && forall c | 0 <= c < |w| :: ClassOk(w[c], s.classes[c], c, s.stacks)
  }
}
