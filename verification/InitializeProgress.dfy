/** A thread that nobody is in the way of finishes what it sets up. */
module InitializeProgress {
  import opened Prelude
  import opened Initialize
  import opened InitializeProof
  import opened InitializeTheorems

  /** No other thread has the lock of a class. */
  ghost predicate FreeFor(s: State, t: ThreadId) {
    forall c | 0 <= c < |s.classes| && s.classes[c].lock.Some? :: s.classes[c].lock == Some(t)
  }

  // ----- the work that is left

  /** The steps that a setup has left at most, without those of the setups that it calls and that really set up a class. */
  function Left(p: Pair, pc: Pc): nat {
    match pc
    case CheckInitializing => 6
    case CheckThread => 5
    case Lock => 4
    case WriteThread => 3
    case SetInitializing => 2
    case MetaSuper => 24 + 8 * |p.mixins|
    case Mixins(j) => 16 + 8 * (if j < |p.mixins| then |p.mixins| - j else 0)
    case Super => 15
    case EmptyMeta => 8
    case EmptyInfra => 7
    case StartInitialize => 6
    case UserCode => 5
    case CacheMeta => 4
    case CacheInfra => 3
    case SetDone => 2
    case Unlock => 1
  }

  /** Setups further out go on where they resume. */
  ghost function LeftOutside(w: World, stack: seq<Setup>): nat
    requires forall i | 0 <= i < |stack| :: stack[i].cls < |w|
  {
    if stack == [] then 0
    else LeftOutside(w, stack[..|stack| - 1]) + Left(w[stack[|stack| - 1].cls], Resume(stack[|stack| - 1].pc))
  }

  ghost function LeftOnStack(w: World, stack: seq<Setup>): nat
    requires forall i | 0 <= i < |stack| :: stack[i].cls < |w|
  {
    if stack == [] then 0
    else LeftOutside(w, stack[..|stack| - 1]) + Left(w[stack[|stack| - 1].cls], stack[|stack| - 1].pc)
  }

  /** What is left to do for classes whose setup has not begun. */
  ghost function LeftForClasses(w: World, classes: seq<ClassState>, n: nat): nat
    requires n <= |w| == |classes|
  {
    if n == 0 then 0
    else LeftForClasses(w, classes, n - 1) + if classes[n - 1].initializing then 0 else Left(w[n - 1], MetaSuper)
  }

  lemma {:induction false} ClassesAfter(w: World, classes: seq<ClassState>, n: nat, c: nat, k: ClassState)
    requires n <= |w| == |classes| && c < |w| && (classes[c].initializing ==> k.initializing)
    ensures LeftForClasses(w, classes[c := k], n) ==
              LeftForClasses(w, classes, n) - if c < n && k.initializing && !classes[c].initializing then Left(w[c], MetaSuper) else 0
  {
    if n > 0 {
      ClassesAfter(w, classes, n - 1, c, k);
    }
  }

  // ----- one step

  /** The thread is not blocked. */
  lemma {:induction false} NotBlocked(w: World, s: State, t: ThreadId, f: Setup)
    requires Inv(w, s) && Innermost(w, s, t, f) && FreeFor(s, t)
    ensures Act(w, s.classes, t, |s.stacks[t]| - 1, f).Did?
  {
    var _ := InnermostOk(w, s, t, f);
  }

  /** What a step takes away from the work left, by the class it sets to initializing and by its move. */
  lemma {:induction false} ActTakesAway(w: World, s: State, t: ThreadId, i: nat, f: Setup)
    requires Top(w, s, t, i, f) && SetupOk(w[f.cls], s.classes[f.cls], t, i, f.pc) && Act(w, s.classes, t, i, f).Did?
    ensures var e, k, p := Act(w, s.classes, t, i, f), s.classes[f.cls], w[f.cls];
            var budget := if e.cls.initializing && !k.initializing then Left(p, MetaSuper) else 0;
            && (k.initializing ==> e.cls.initializing) && (k.done ==> e.cls.done)
            && (e.cls.lock.Some? ==> e.cls.lock == k.lock || e.cls.lock == Some(t))
            && match e.move
               case Goto(pc) => Left(p, pc) < Left(p, f.pc) + budget
               case Push(c) => c < |w| && e.cls == k && Left(p, Resume(f.pc)) + 6 < Left(p, f.pc)
               case Pop => Left(p, f.pc) > 0 && budget == 0
  {
    hide BitsOk, HolderOk, StackOk, DependenciesSettled;
  }

  ghost function LeftFor(w: World, s: State, t: ThreadId): nat
    requires Sane(w, s) && t < |s.stacks|
  {
    LeftForClasses(w, s.classes, |w|) + LeftOnStack(w, s.stacks[t])
  }

  lemma {:induction false} StackAfter(w: World, stack: seq<Setup>, move: Move)
    requires stack != [] && (forall i | 0 <= i < |stack| :: stack[i].cls < |w|) && (move.Push? ==> move.cls < |w|)
    ensures var stack', f := MoveStack(stack, move), stack[|stack| - 1];
            && (forall i | 0 <= i < |stack'| :: stack'[i].cls < |w|)
            && LeftOnStack(w, stack') == LeftOnStack(w, stack) - Left(w[f.cls], f.pc)
                 + match move
                   case Goto(pc) => Left(w[f.cls], pc)
                   case Push(c) => Left(w[f.cls], Resume(f.pc)) + 6
                   case Pop => 0
  {
    var n := |stack| - 1;
    var stack' := MoveStack(stack, move);
    match move {
      case Goto(pc) =>
        assert stack'[..n] == stack[..n];
      case Push(c) =>
        assert stack'[..n + 1] == stack;
      case Pop =>
        if n > 0 {
          assert stack'[..n - 1] == stack[..n][..n - 1];
        }
    }
  }

  /** A step leaves less to do, and the locks as free as they were. */
  lemma {:induction false} StepLeavesLess(w: World, s: State, t: ThreadId, s': State)
    requires Inv(w, s) && FreeFor(s, t) && t < |s.stacks| && Proceeds(w, s, t, s')
    ensures Sane(w, s') && FreeFor(s', t) && |s'.stacks| == |s.stacks| && LeftFor(w, s', t) < LeftFor(w, s, t)
    ensures forall c | 0 <= c < |w| && s.classes[c].done :: s'.classes[c].done
  {
    hide Act, Left, MoveStack, ThreadOk, ClassOk, SetupOk;
    var i := |s.stacks[t]| - 1;
    var f := s.stacks[t][i];
    var e := Act(w, s.classes, t, i, f);
    var _ := InnermostOk(w, s, t, f);
    ActTakesAway(w, s, t, i, f);
    ClassesAfter(w, s.classes, |w|, f.cls, e.cls);
    StackAfter(w, s.stacks[t], e.move);
    ProceedsKeepsInv(w, s, t, s');
  }

  // ----- a whole setup

  /** Steps of one thread only. */
  ghost predicate Alone(w: World, run: seq<State>, t: ThreadId) {
    && run != [] && (forall n | 0 <= n < |run| :: Inv(w, run[n]))
    && forall n | 0 <= n < |run| - 1 :: Proceeds(w, run[n], t, run[n + 1])
  }

  /** The class of the outermost setup, with its progress. */
  ghost predicate Outermost(s: State, t: ThreadId, c: nat) {
    t < |s.stacks| && c < |s.classes| && if s.stacks[t] == [] then s.classes[c].done else s.stacks[t][0].cls == c
  }

  lemma {:induction false} OutermostStays(w: World, s: State, t: ThreadId, s': State, c: nat)
    requires Inv(w, s) && Proceeds(w, s, t, s') && Outermost(s, t, c) && s.stacks[t] != []
    ensures Outermost(s', t, c)
  {
    hide Act, ThreadOk, ClassOk, SetupOk;
    var i := |s.stacks[t]| - 1;
    var f := s.stacks[t][i];
    var _ := InnermostOk(w, s, t, f);
    if Act(w, s.classes, t, i, f).move.Pop? {
      PopSettles(w, s, t, i, f);
    }
  }

  /** If no other thread holds a lock, a thread that sets up classes and is left alone comes to an end, and its class is done. */
  lemma {:induction false} LoneThreadFinishes(w: World, s: State, t: ThreadId, c: nat) returns (run: seq<State>)
    requires Inv(w, s) && FreeFor(s, t) && Outermost(s, t, c)
    ensures Alone(w, run, t) && run[0] == s && t < |run[|run| - 1].stacks| && run[|run| - 1].stacks[t] == []
    ensures c < |run[|run| - 1].classes| && run[|run| - 1].classes[c].done
    decreases LeftFor(w, s, t)
  {
    hide Act, Left, ThreadOk, ClassOk, SetupOk, LeftFor;
    if s.stacks[t] == [] {
      return [s];
    }
    var i := |s.stacks[t]| - 1;
    var f := s.stacks[t][i];
    NotBlocked(w, s, t, f);
    var e := Act(w, s.classes, t, i, f);
    var s' := State(s.classes[f.cls := e.cls], s.stacks[t := MoveStack(s.stacks[t], e.move)]);
    StepLeavesLess(w, s, t, s');
    ProceedsKeepsInv(w, s, t, s');
    OutermostStays(w, s, t, s', c);
    var rest := LoneThreadFinishes(w, s', t, c);
    run := [s] + rest;
    assert run[1..] == rest && run[|run| - 1] == rest[|rest| - 1];
    assert forall n | 0 < n < |run| :: run[n] == rest[n - 1];
  }
}
