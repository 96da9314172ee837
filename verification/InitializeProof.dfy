/** Every step of the setup of classes keeps the invariant. */
module InitializeProof {
  import opened Prelude
  import opened Initialize

  /** How the class of a setup changes under the eyes of other setups: those of other threads, and those further out. */
  ghost predicate Evolves(k: ClassState, k': ClassState, t: ThreadId, i: nat) {
    && (k.initializing ==> k'.initializing)
    && (k.done ==> k'.done)
    && (k' != k && k.lock.Some? ==> k.lock == Some(t) && k.at == i)
    && (k.lock.None? && k'.lock.Some? ==> k'.lock == Some(t) && k'.at == i)
    && (k.lock.Some? && k'.lock.Some? ==> k'.lock == k.lock && k'.at == k.at)
  }

  ghost predicate Top(w: World, s: State, t: ThreadId, i: nat, f: Setup) {
    Inv(w, s) && t < |s.stacks| && i < |s.stacks[t]| && i == |s.stacks[t]| - 1 && s.stacks[t][i] == f
  }

  /** The setup that has the lock of a class waits for those further in on its stack. */
  lemma {:induction false} HolderKnows(w: World, s: State, t: ThreadId, i: nat, f: Setup)
    requires Top(w, s, t, i, f) && !Holds(f.pc)
    ensures var k := s.classes[f.cls]; k.lock == Some(t) ==> k.initializing && k.threadId == Some(t)
  {
    var k := s.classes[f.cls];
    assert ClassOk(w[f.cls], k, f.cls, s.stacks);
    assert ThreadOk(w, s.classes, t, s.stacks[t]);
    if k.lock == Some(t) {
      var g := s.stacks[t][k.at];
      assert SetupOk(w[g.cls], k, t, k.at, g.pc);
    }
  }

  /** A thread that is at the lock of a class does not have it already. */
  lemma {:induction false} NotLockedByWaiter(w: World, s: State, t: ThreadId, i: nat, f: Setup)
    requires Top(w, s, t, i, f) && (f.pc.CheckInitializing? || f.pc.CheckThread?)
    requires f.pc.CheckInitializing? ==> !s.classes[f.cls].initializing
    requires f.pc.CheckThread? ==> s.classes[f.cls].threadId != Some(t)
    ensures s.classes[f.cls].lock != Some(t)
  {
    HolderKnows(w, s, t, i, f);
  }

  /** A setup that returns because its thread is at it already leaves a settled class. */
  lemma {:induction false} RecursionSettles(w: World, s: State, t: ThreadId, i: nat, f: Setup)
    requires Top(w, s, t, i, f) && f.pc.CheckThread? && s.classes[f.cls].threadId == Some(t)
    ensures i > 0 ==> Settled(s.classes[f.cls], t, i - 1)
    ensures i == 0 ==> s.classes[f.cls].done
  {
    var k := s.classes[f.cls];
    assert ClassOk(w[f.cls], k, f.cls, s.stacks);
    assert ThreadOk(w, s.classes, t, s.stacks[t]);
    assert SetupOk(w[f.cls], k, t, i, f.pc);
    if !k.done {
      var u := k.lock.value;
      var g := s.stacks[u][k.at];
      assert ThreadOk(w, s.classes, u, s.stacks[u]);
      assert SetupOk(w[g.cls], k, u, k.at, g.pc);
    }
  }

  /** The class after a step. */
  lemma {:induction false} ActClass(w: World, s: State, t: ThreadId, i: nat, f: Setup)
    requires Top(w, s, t, i, f) && Act(w, s.classes, t, i, f).Did?
    ensures var k, k' := s.classes[f.cls], Act(w, s.classes, t, i, f).cls;
            Evolves(k, k', t, i)
  {
    assert ThreadOk(w, s.classes, t, s.stacks[t]);
    assert SetupOk(w[f.cls], s.classes[f.cls], t, i, f.pc);
  }

  lemma {:induction false} ActGotoOutside(w: World, s: State, t: ThreadId, i: nat, f: Setup)
    requires Top(w, s, t, i, f) && Act(w, s.classes, t, i, f).Did? && Act(w, s.classes, t, i, f).move.Goto? && !Holds(f.pc)
    ensures var e := Act(w, s.classes, t, i, f);
            SetupOk(w[f.cls], e.cls, t, i, e.move.pc)
  {
    if (f.pc.CheckInitializing? && !s.classes[f.cls].initializing) || f.pc.CheckThread? {
      NotLockedByWaiter(w, s, t, i, f);
    }
  }

  /** The setup after a step that does not leave it. */
  lemma {:induction false} ActGoto(w: World, s: State, t: ThreadId, i: nat, f: Setup)
    requires Top(w, s, t, i, f) && Act(w, s.classes, t, i, f).Did? && Act(w, s.classes, t, i, f).move.Goto?
    ensures var e := Act(w, s.classes, t, i, f);
            SetupOk(w[f.cls], e.cls, t, i, e.move.pc)
  {
    hide DependenciesSettled, StackOk;
    var k := s.classes[f.cls];
    assert ThreadOk(w, s.classes, t, s.stacks[t]);
    assert SetupOk(w[f.cls], k, t, i, f.pc);
    assert ClassOk(w[f.cls], k, f.cls, s.stacks);
    if !Holds(f.pc) {
      ActGotoOutside(w, s, t, i, f);
    }
  }

  /** What a setup has settled when it goes on. */
  lemma {:induction false} ActDependencies(w: World, s: State, t: ThreadId, i: nat, f: Setup)
    requires Top(w, s, t, i, f) && Act(w, s.classes, t, i, f).Did? && Act(w, s.classes, t, i, f).move.Goto?
    ensures var e := Act(w, s.classes, t, i, f);
            DependenciesSettled(w, s.classes[f.cls := e.cls], t, i, Setup(f.cls, e.move.pc))
  {
    var e := Act(w, s.classes, t, i, f);
    assert ThreadOk(w, s.classes, t, s.stacks[t]);
    assert DependenciesSettled(w, s.classes, t, i, f);
    ActGoto(w, s, t, i, f);
    if Working(e.move.pc) && Working(f.pc) {
      assert forall m | 0 <= m < |w| && Settled(s.classes[m], t, i) :: Settled(s.classes[f.cls := e.cls][m], t, i);
    }
  }

  /** Other setups do not notice the step. */
  lemma {:induction false} OtherSetup(w: World, s: State, t: ThreadId, i: nat, c: nat, k': ClassState, u: ThreadId, j: nat)
    requires Inv(w, s) && t < |s.stacks| && i < |s.stacks[t]| && i == |s.stacks[t]| - 1 && c < |w|
    requires Evolves(s.classes[c], k', t, i)
    requires u < |s.stacks| && j < |s.stacks[u]| && (u == t ==> j < i)
    ensures var g := s.stacks[u][j];
            && SetupOk(w[g.cls], s.classes[c := k'][g.cls], u, j, g.pc)
            && DependenciesSettled(w, s.classes[c := k'], u, j, g)
  {
    var g := s.stacks[u][j];
    assert ThreadOk(w, s.classes, u, s.stacks[u]);
    assert SetupOk(w[g.cls], s.classes[g.cls], u, j, g.pc);
    assert DependenciesSettled(w, s.classes, u, j, g);
    assert u == t ==> Waiting(g.pc);
    assert forall m | 0 <= m < |w| && Settled(s.classes[m], u, j) :: Settled(s.classes[c := k'][m], u, j);
  }

  /** The setup that has called another one goes on with its target settled. */
  lemma {:induction false} Resumed(w: World, classes: seq<ClassState>, t: ThreadId, j: nat, g: Setup, target: nat)
    requires WorldOk(w) && |classes| == |w| && g.cls < |w| && Waiting(g.pc) && target < |w|
    requires SetupOk(w[g.cls], classes[g.cls], t, j, g.pc) && DependenciesSettled(w, classes, t, j, g)
    requires !g.pc.UserCode? ==> Target(w[g.cls], g) == Some(target) && Settled(classes[target], t, j)
    ensures var pc := Resume(g.pc);
            SetupOk(w[g.cls], classes[g.cls], t, j, pc) && DependenciesSettled(w, classes, t, j, Setup(g.cls, pc))
  {
  }

  lemma {:induction false} OtherThread(w: World, s: State, t: ThreadId, i: nat, f: Setup, u: ThreadId)
    requires Top(w, s, t, i, f) && Act(w, s.classes, t, i, f).Did? && u < |s.stacks| && u != t
    ensures ThreadOk(w, s.classes[f.cls := Act(w, s.classes, t, i, f).cls], u, s.stacks[u])
  {
    ActClass(w, s, t, i, f);
    assert ThreadOk(w, s.classes, u, s.stacks[u]);
    forall j: nat | j < |s.stacks[u]| {
      OtherSetup(w, s, t, i, f.cls, Act(w, s.classes, t, i, f).cls, u, j);
    }
  }

  /** The thread that goes on with its innermost setup. */
  lemma {:induction false} ThreadAfterGoto(w: World, s: State, t: ThreadId, i: nat, f: Setup, k': ClassState, pc: Pc)
    requires Top(w, s, t, i, f) && Evolves(s.classes[f.cls], k', t, i) && SetupOk(w[f.cls], k', t, i, pc)
    requires DependenciesSettled(w, s.classes[f.cls := k'], t, i, Setup(f.cls, pc))
    ensures ThreadOk(w, s.classes[f.cls := k'], t, MoveStack(s.stacks[t], Goto(pc)))
  {
    var stack := s.stacks[t];
    assert ThreadOk(w, s.classes, t, stack);
    assert MoveStack(stack, Goto(pc)) == stack[i := Setup(f.cls, pc)];
    forall j: nat | j < i {
      OtherSetup(w, s, t, i, f.cls, k', t, j);
    }
  }

  /** The thread that has called another setup. */
  lemma {:induction false} ThreadAfterPush(w: World, s: State, t: ThreadId, i: nat, f: Setup, c: nat)
    requires Top(w, s, t, i, f) && c < |w| && Waiting(f.pc)
    requires f.pc.UserCode? || Target(w[f.cls], f) == Some(c)
    ensures ThreadOk(w, s.classes, t, MoveStack(s.stacks[t], Push(c)))
  {
    var stack, stack' := s.stacks[t], MoveStack(s.stacks[t], Push(c));
    assert ThreadOk(w, s.classes, t, stack);
    assert forall j | 0 <= j < |stack| :: stack'[j] == stack[j];
    assert stack'[i] == f && stack'[i + 1] == Setup(c, CheckInitializing) && |stack'| == i + 2;
    forall j | 0 <= j < |stack'| - 1
      ensures Waiting(stack'[j].pc) && (!stack'[j].pc.UserCode? ==> Target(w[stack'[j].cls], stack'[j]) == Some(stack'[j + 1].cls))
    {
      assert stack'[j] == stack[j];
    }
  }

  /** The thread that has returned from its innermost setup. */
  lemma {:induction false} ThreadAfterPop(w: World, s: State, t: ThreadId, i: nat, f: Setup, k': ClassState)
    requires Top(w, s, t, i, f) && Evolves(s.classes[f.cls], k', t, i) && (i > 0 ==> Settled(k', t, i - 1))
    ensures ThreadOk(w, s.classes[f.cls := k'], t, MoveStack(s.stacks[t], Pop))
  {
    var stack := s.stacks[t];
    assert ThreadOk(w, s.classes, t, stack);
    forall j: nat | j < i {
      OtherSetup(w, s, t, i, f.cls, k', t, j);
    }
    if i > 0 {
      var g := stack[i - 1];
      Resumed(w, s.classes[f.cls := k'], t, i - 1, g, f.cls);
      assert MoveStack(stack, Pop) == stack[..i][i - 1 := Setup(g.cls, Resume(g.pc))];
    }
  }

  lemma {:induction false} ThreadAfter(w: World, s: State, t: ThreadId, i: nat, f: Setup)
    requires Top(w, s, t, i, f) && Act(w, s.classes, t, i, f).Did?
    ensures var e := Act(w, s.classes, t, i, f);
            && Sane(w, State(s.classes[f.cls := e.cls], s.stacks[t := MoveStack(s.stacks[t], e.move)]))
            && ThreadOk(w, s.classes[f.cls := e.cls], t, MoveStack(s.stacks[t], e.move))
  {
    hide ThreadOk, ClassOk, SetupOk, DependenciesSettled, Settled, Evolves;
    var e := Act(w, s.classes, t, i, f);
    ActClass(w, s, t, i, f);
    match e.move {
      case Goto(pc) =>
        ActGoto(w, s, t, i, f);
        ActDependencies(w, s, t, i, f);
        ThreadAfterGoto(w, s, t, i, f, e.cls, pc);
      case Push(c) =>
        assert s.classes[f.cls := e.cls] == s.classes;
        ThreadAfterPush(w, s, t, i, f, c);
      case Pop =>
        PopSettles(w, s, t, i, f);
        ThreadAfterPop(w, s, t, i, f, e.cls);
    }
  }

  lemma {:induction false} PopSettles(w: World, s: State, t: ThreadId, i: nat, f: Setup)
    requires Top(w, s, t, i, f) && Act(w, s.classes, t, i, f).Did? && Act(w, s.classes, t, i, f).move.Pop?
    ensures i > 0 ==> Settled(Act(w, s.classes, t, i, f).cls, t, i - 1)
    ensures i == 0 ==> Act(w, s.classes, t, i, f).cls.done
  {
    if f.pc.CheckThread? {
      RecursionSettles(w, s, t, i, f);
    } else {
      assert ThreadOk(w, s.classes, t, s.stacks[t]);
      assert SetupOk(w[f.cls], s.classes[f.cls], t, i, f.pc);
    }
  }

  /** A setup further out, or of another thread, still has its lock, and works if it did. */
  lemma {:induction false} SetupStays(w: World, s: State, t: ThreadId, i: nat, f: Setup, u: ThreadId, j: nat)
    requires Top(w, s, t, i, f) && Act(w, s.classes, t, i, f).Did?
    requires u < |s.stacks| && j < |s.stacks[u]| && (u == t ==> j < i)
    ensures var stacks := s.stacks[t := MoveStack(s.stacks[t], Act(w, s.classes, t, i, f).move)];
            && j < |stacks[u]| && stacks[u][j].cls == s.stacks[u][j].cls
            && (Holds(s.stacks[u][j].pc) ==> Holds(stacks[u][j].pc))
            && (Working(s.stacks[u][j].pc) ==> Working(stacks[u][j].pc))
  {
    assert ThreadOk(w, s.classes, t, s.stacks[t]);
  }

  /** Other classes still know who holds their locks, and how far their setups have got. */
  lemma {:induction false} OtherClass(w: World, s: State, t: ThreadId, i: nat, f: Setup, c: nat)
    requires Top(w, s, t, i, f) && Act(w, s.classes, t, i, f).Did? && c < |w| && c != f.cls
    ensures ClassOk(w[c], s.classes[c], c, s.stacks[t := MoveStack(s.stacks[t], Act(w, s.classes, t, i, f).move)])
  {
    var k := s.classes[c];
    assert ClassOk(w[c], k, c, s.stacks);
    if k.lock.Some? {
      SetupStays(w, s, t, i, f, k.lock.value, k.at);
    }
  }

  /** So does the class of the setup, if that did not change it. */
  lemma {:induction false} OwnClassKept(w: World, s: State, t: ThreadId, i: nat, f: Setup)
    requires Top(w, s, t, i, f) && Act(w, s.classes, t, i, f).Did? && !Holds(f.pc) && !f.pc.Lock?
    ensures var e := Act(w, s.classes, t, i, f);
            ClassOk(w[f.cls], e.cls, f.cls, s.stacks[t := MoveStack(s.stacks[t], e.move)])
  {
    var k := s.classes[f.cls];
    assert ClassOk(w[f.cls], k, f.cls, s.stacks);
    if k.lock.Some? {
      SetupStays(w, s, t, i, f, k.lock.value, k.at);
    }
  }

  lemma {:induction false} OwnBits(w: World, s: State, t: ThreadId, i: nat, f: Setup)
    requires Top(w, s, t, i, f) && Act(w, s.classes, t, i, f).Did?
    ensures BitsOk(w[f.cls], Act(w, s.classes, t, i, f).cls)
  {
    assert ClassOk(w[f.cls], s.classes[f.cls], f.cls, s.stacks);
    assert ThreadOk(w, s.classes, t, s.stacks[t]);
    assert SetupOk(w[f.cls], s.classes[f.cls], t, i, f.pc);
  }

  /** A setup that holds the lock goes on to hold it, and keeps working until the class is done. */
  lemma {:induction false} OwnLock(w: World, s: State, t: ThreadId, i: nat, f: Setup)
    requires Top(w, s, t, i, f) && Act(w, s.classes, t, i, f).Did? && (Holds(f.pc) || f.pc.Lock?)
    ensures var e := Act(w, s.classes, t, i, f);
            if f.pc.Unlock? then e.cls.lock == None && e.cls.done
            else
              var pc := if e.move.Goto? then e.move.pc else f.pc;
              && !e.move.Pop? && e.cls.lock == Some(t) && e.cls.at == i && Holds(pc)
              && (e.cls.initializing && !e.cls.done ==> Working(pc))
  {
    assert ClassOk(w[f.cls], s.classes[f.cls], f.cls, s.stacks);
    assert ThreadOk(w, s.classes, t, s.stacks[t]);
    assert SetupOk(w[f.cls], s.classes[f.cls], t, i, f.pc);
  }

  lemma {:induction false} OwnHolder(w: World, s: State, t: ThreadId, i: nat, f: Setup)
    requires Top(w, s, t, i, f) && Act(w, s.classes, t, i, f).Did? && (Holds(f.pc) || f.pc.Lock?)
    ensures var e := Act(w, s.classes, t, i, f);
            HolderOk(e.cls, f.cls, s.stacks[t := MoveStack(s.stacks[t], e.move)])
  {
    var e := Act(w, s.classes, t, i, f);
    OwnLock(w, s, t, i, f);
    HolderAfterMove(s.stacks, t, i, f, e.cls, e.move);
  }

  lemma {:induction false} HolderAfterMove(stacks: seq<seq<Setup>>, t: ThreadId, i: nat, f: Setup, k: ClassState, move: Move)
    requires t < |stacks| && i < |stacks[t]| && i == |stacks[t]| - 1 && stacks[t][i] == f
    requires if k.lock.None? then k.done
             else
               var pc := if move.Goto? then move.pc else f.pc;
               !move.Pop? && k.lock == Some(t) && k.at == i && Holds(pc) && (k.initializing && !k.done ==> Working(pc))
    ensures HolderOk(k, f.cls, stacks[t := MoveStack(stacks[t], move)])
  {
    if k.lock.Some? {
      assert MoveStack(stacks[t], move)[i].cls == f.cls;
    }
  }

  /** Each class still knows who holds its lock, and how far its setup has got. */
  lemma {:induction false} ClassAfter(w: World, s: State, t: ThreadId, i: nat, f: Setup, c: nat)
    requires Top(w, s, t, i, f) && Act(w, s.classes, t, i, f).Did? && c < |w|
    ensures var e := Act(w, s.classes, t, i, f);
            ClassOk(w[c], s.classes[f.cls := e.cls][c], c, s.stacks[t := MoveStack(s.stacks[t], e.move)])
  {
    if c != f.cls {
      OtherClass(w, s, t, i, f, c);
    } else if Holds(f.pc) || f.pc.Lock? {
      OwnHolder(w, s, t, i, f);
      OwnBits(w, s, t, i, f);
    } else {
      OwnClassKept(w, s, t, i, f);
    }
  }

  lemma {:induction false} ProceedsKeepsInv(w: World, s: State, t: ThreadId, s': State)
    requires Inv(w, s) && Proceeds(w, s, t, s')
    ensures Inv(w, s')
  {
    var i := |s.stacks[t]| - 1;
    var f := s.stacks[t][i];
    var e := Act(w, s.classes, t, i, f);
    ThreadAfter(w, s, t, i, f);
    forall u | 0 <= u < |s.stacks| ensures ThreadOk(w, s'.classes, u, s'.stacks[u]) {
      if u != t {
        OtherThread(w, s, t, i, f, u);
      }
    }
    forall c | 0 <= c < |w| ensures ClassOk(w[c], s'.classes[c], c, s'.stacks) {
      ClassAfter(w, s, t, i, f, c);
    }
  }

  lemma {:induction false} MessagesKeepsInv(w: World, s: State, t: ThreadId, c: nat, s': State)
    requires Inv(w, s) && Messages(w, s, t, c, s')
    ensures Inv(w, s')
  {
    assert ThreadOk(w, s.classes, t, s.stacks[t]);
    forall d | 0 <= d < |w| ensures ClassOk(w[d], s'.classes[d], d, s'.stacks) {
      assert ClassOk(w[d], s.classes[d], d, s.stacks);
    }
  }

  lemma {:induction false} StepKeepsInv(w: World, s: State, s': State)
    requires Inv(w, s) && Step(w, s, s')
    ensures Inv(w, s')
  {
    var t :| StepOf(w, s, t, s');
    if Proceeds(w, s, t, s') {
      ProceedsKeepsInv(w, s, t, s');
    } else {
      var c :| Messages(w, s, t, c, s');
      MessagesKeepsInv(w, s, t, c, s');
    }
  }
}
