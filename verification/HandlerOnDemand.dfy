/** The timer handler that Get in Source/TimedEvent.cpp creates on demand, under the reader/writer lock
    with its non-atomic upgrade, and that Shutdown lets go. */
module HandlerOnDemand {
  import opened LockWords
  import RwLocks

  type Handler = nat   // the address of a CTimerHandler, 0 for none

  /** Where a thread is in Get or in Shutdown. */
  datatype Task =
    | NoTask
    | GetCheck                // tests lpTimerHandler with the shared lock
    | GetRecheck              // upgrades, and tests it again
    | GetCreate
    | GetInstall(made: Handler)
    | GetRef                  // takes a reference
    | GetLeave(got: Handler)  // releases the lock and returns what it has got
    | ShutDown
    | ShutLeave

  /** refs counts the references to a handler; given, those that callers of Get have got and not given up; installs,
      the handlers installed since the last Shutdown. */
  datatype State = State(lock: RwLocks.State, tasks: seq<Task>, handler: Handler, last: Handler,
                         refs: map<Handler, int>, given: map<Handler, int>, installs: nat)

  datatype Step =
    | LockStep(step: RwLocks.Step)
    | Check(thread: nat)
    | Recheck(thread: nat)
    | Create(thread: nat, ok: bool)
    | Install(thread: nat)
    | TakeRef(thread: nat)
    | Shut(thread: nat)
    | Return(thread: nat)
    | Release(handler: Handler)   // a caller gives up its reference

  function Of(m: map<Handler, int>, h: Handler): int {
    if h in m then m[h] else 0
  }

  /** The steps of the lock that the code of a task takes. */
  predicate Allowed(task: Task, step: RwLocks.Step) {
    match step
    case BeginShared(_) => task.NoTask?
    case BeginExclusive(_) => task.NoTask?
    case Drop(_, upgrade) => if upgrade then task.GetRecheck? else task.GetLeave?
    case ReleaseExclusive(_, downgrade) => !downgrade && (task.GetLeave? || task.ShutLeave?)
    case Fail(_) => false
    case _ => true
  }

  predicate Enabled(s: State, step: Step) {
    && |s.tasks| == |s.lock.guards|
    && match step
       case LockStep(l) => RwLocks.Enabled(s.lock, l) && Allowed(s.tasks[l.guard], l)
       case Check(t) => t < |s.tasks| && s.tasks[t] == GetCheck && s.lock.guards[t] == RwLocks.Shared
       case Recheck(t) => t < |s.tasks| && s.tasks[t] == GetRecheck && s.lock.guards[t] == RwLocks.Exclusive
       case Create(t, _) => t < |s.tasks| && s.tasks[t] == GetCreate
       case Install(t) => t < |s.tasks| && s.tasks[t].GetInstall?
       case TakeRef(t) => t < |s.tasks| && s.tasks[t] == GetRef
       case Shut(t) => t < |s.tasks| && s.tasks[t] == ShutDown && s.lock.guards[t] == RwLocks.Exclusive
       case Return(t) => t < |s.tasks| && (s.tasks[t].GetLeave? || s.tasks[t].ShutLeave?)
            && s.lock.guards[t] == RwLocks.Outside
       case Release(h) => Of(s.given, h) > 0
  }

  function AfterLock(task: Task, step: RwLocks.Step): Task {
    match step
    case BeginShared(_) => GetCheck
    case BeginExclusive(_) => ShutDown
    case _ => task
  }

  function Added(m: map<Handler, int>, h: Handler, n: int): map<Handler, int> {
    m[h := Of(m, h) + n]
  }

  function Do(s: State, step: Step): State
    requires Enabled(s, step)
  {
    match step
    case LockStep(l) => s.(lock := RwLocks.Do(s.lock, l), tasks := s.tasks[l.guard := AfterLock(s.tasks[l.guard], l)])
    case Check(t) => s.(tasks := s.tasks[t := if s.handler == 0 then GetRecheck else GetRef])
    case Recheck(t) => s.(tasks := s.tasks[t := if s.handler == 0 then GetCreate else GetRef])
    case Create(t, ok) =>
      if ok then s.(tasks := s.tasks[t := GetInstall(s.last + 1)], last := s.last + 1, refs := s.refs[s.last + 1 := 1])
      else s.(tasks := s.tasks[t := GetLeave(0)])
    case Install(t) =>
      s.(tasks := s.tasks[t := GetRef], handler := s.tasks[t].made, installs := s.installs + 1)
    case TakeRef(t) =>
      s.(tasks := s.tasks[t := GetLeave(s.handler)], refs := Added(s.refs, s.handler, 1))
    case Shut(t) =>
      var s1 := s.(tasks := s.tasks[t := ShutLeave], handler := 0, installs := 0);
      if s.handler == 0 then s1 else s1.(refs := Added(s.refs, s.handler, -1))
    case Return(t) =>
      var s1 := s.(tasks := s.tasks[t := NoTask]);
      if s.tasks[t].GetLeave? && s.tasks[t].got != 0 then s1.(given := Added(s.given, s.tasks[t].got, 1)) else s1
    case Release(h) => s.(refs := Added(s.refs, h, -1), given := Added(s.given, h, -1))
  }

  /** What lock a task has, or is on its way to. */
  predicate TaskFits(task: Task, g: RwLocks.Guard) {
    match task
    case NoTask => g.Outside?
    case GetCheck => g.WantShared? || g.TryShared? || g.Shared?
    case GetRecheck =>
      g.Shared? || (g.Dropping? && g.upgrade) || g.WantExclusive? || g.TryExclusive? || g.Draining? || g.Exclusive?
    case GetCreate => g.Exclusive?
    case GetInstall(_) => g.Exclusive?
    case GetRef => g.Shared? || g.Exclusive?
    case GetLeave(_) => g.Shared? || (g.Dropping? && !g.upgrade) || g.Exclusive? || g.Outside?
    case ShutDown => g.WantExclusive? || g.TryExclusive? || g.Draining? || g.Exclusive?
    case ShutLeave => g.Exclusive? || g.Outside?
  }

  /** The handler is there for who is to take a reference, and not for who is to install one. */
  predicate HandlerFits(s: State, task: Task) {
    match task
    case GetCreate => s.handler == 0
    case GetInstall(made) => s.handler == 0 && 0 < made <= s.last
    case GetRef => s.handler != 0
    case GetLeave(got) => got <= s.last
    case _ => true
  }

  /** The task has a reference to the handler. */
  function Refers(h: Handler): Task -> bool {
    (task: Task) => (task.GetLeave? && task.got == h) || (task.GetInstall? && task.made == h)
  }

  ghost predicate TaskOk(s: State, t: nat)
    requires t < |s.tasks| && t < |s.lock.guards|
  {
    TaskFits(s.tasks[t], s.lock.guards[t]) && HandlerFits(s, s.tasks[t])
  }

  /** Every reference is accounted for: one for the installed handler, one for each Get that is about to install it
      or to return it, and those that callers have. */
  ghost predicate RefsOk(s: State, h: Handler) {
    && Of(s.given, h) >= 0 && (h > s.last ==> Of(s.given, h) == 0)
    && (h != 0 ==> Of(s.refs, h) == Of(s.given, h) + Count(s.tasks, Refers(h)) + if s.handler == h then 1 else 0)
  }

  ghost predicate Inv(s: State) {
    && |s.tasks| == |s.lock.guards| < HIGH && RwLocks.Inv(s.lock) && s.handler <= s.last
    && (forall t {:trigger TaskOk(s, t)} :: 0 <= t < |s.tasks| ==> TaskOk(s, t))
    && (forall h {:trigger RefsOk(s, h)} :: RefsOk(s, h))
    && s.installs == (if s.handler == 0 then 0 else 1)
  }

  ghost predicate Initial(s: State) {
    && RwLocks.Initial(s.lock) && |s.tasks| == |s.lock.guards| < HIGH
    && (forall t :: 0 <= t < |s.tasks| ==> s.tasks[t] == NoTask)
    && s.handler == 0 && s.last == 0 && s.refs == map[] && s.given == map[] && s.installs == 0
  }

  lemma LockKeeps(s: State, step: Step)
    requires Inv(s) && Enabled(s, step) && step.LockStep?
    ensures Inv(Do(s, step))
  {
    var s', t := Do(s, step), step.step.guard;
    RwLocks.StepKeeps(s.lock, step.step);
    forall t | 0 <= t < |s'.tasks| ensures TaskOk(s', t) {
      assert TaskOk(s, t);
    }
    forall h ensures RefsOk(s', h) {
      assert RefsOk(s, h);
      CountUpdate(s.tasks, t, s'.tasks[t], Refers(h));
    }
  }

  /** A handler that has not been made has no references. */
  lemma NotMade(s: State, h: Handler)
    requires Inv(s) && h > s.last
    ensures Count(s.tasks, Refers(h)) == 0
  {
    forall t | 0 <= t < |s.tasks| ensures !Refers(h)(s.tasks[t]) {
      assert TaskOk(s, t);
    }
    CountNone(s.tasks, Refers(h));
  }

  /** What the task that the step is about has before and after it. */
  lemma CountsAfter(s: State, step: Step, h: Handler)
    requires Inv(s) && Enabled(s, step) && !step.LockStep? && !step.Release?
    ensures var s', t := Do(s, step), step.thread;
            Count(s'.tasks, Refers(h)) == Count(s.tasks, Refers(h))
              - (if Refers(h)(s.tasks[t]) then 1 else 0) + (if Refers(h)(s'.tasks[t]) then 1 else 0)
  {
    CountUpdate(s.tasks, step.thread, Do(s, step).tasks[step.thread], Refers(h));
  }

  lemma CreateKeepsRefs(s: State, step: Step, h: Handler)
    requires Inv(s) && Enabled(s, step) && (step.Create? || step.Install?)
    ensures RefsOk(Do(s, step), h)
  {
    assert RefsOk(s, h) && TaskOk(s, step.thread);
    CountsAfter(s, step, h);
    if h > s.last {
      NotMade(s, h);
    }
  }

  lemma CheckKeepsRefs(s: State, step: Step, h: Handler)
    requires Inv(s) && Enabled(s, step) && (step.Check? || step.Recheck? || step.Shut?)
    ensures RefsOk(Do(s, step), h)
  {
    assert RefsOk(s, h) && TaskOk(s, step.thread);
    CountsAfter(s, step, h);
  }

  lemma TakeKeepsRefs(s: State, step: Step, h: Handler)
    requires Inv(s) && Enabled(s, step) && (step.TakeRef? || step.Return?)
    ensures RefsOk(Do(s, step), h)
  {
    assert RefsOk(s, h) && TaskOk(s, step.thread);
    CountsAfter(s, step, h);
  }

  lemma TaskKeepsRefs(s: State, step: Step, h: Handler)
    requires Inv(s) && Enabled(s, step) && !step.LockStep?
    ensures RefsOk(Do(s, step), h)
  {
    match step
    case Create(_, _) => CreateKeepsRefs(s, step, h);
    case Install(_) => CreateKeepsRefs(s, step, h);
    case TakeRef(_) => TakeKeepsRefs(s, step, h);
    case Return(_) => TakeKeepsRefs(s, step, h);
    case Release(_) => assert RefsOk(s, h);
    case _ => CheckKeepsRefs(s, step, h);
  }

  lemma TaskKeeps(s: State, step: Step)
    requires Inv(s) && Enabled(s, step) && !step.LockStep?
    ensures Inv(Do(s, step))
  {
    var s' := Do(s, step);
    if !step.Release? {
      assert TaskOk(s, step.thread);
    }
    forall t | 0 <= t < |s'.tasks| ensures TaskOk(s', t) {
      assert TaskOk(s, t);
      if !step.Release? && s.lock.guards[step.thread] == RwLocks.Exclusive && t != step.thread {
        RwLocks.ExclusiveAlone(s.lock, step.thread, t);
      }
    }
    forall h ensures RefsOk(s', h) {
      TaskKeepsRefs(s, step, h);
    }
  }

  ghost predicate Run(states: seq<State>, steps: seq<Step>) {
    && |states| == |steps| + 1 && Initial(states[0])
    && forall i :: 0 <= i < |steps| ==> Enabled(states[i], steps[i]) && states[i + 1] == Do(states[i], steps[i])
  }

  lemma {:induction false} RunKeeps(states: seq<State>, steps: seq<Step>, i: nat)
    requires Run(states, steps) && i < |states|
    ensures Inv(states[i])
    decreases i
  {
    if i == 0 {
      CountNone(states[0].lock.guards, RwLocks.Reads);
      CountNone(states[0].lock.guards, RwLocks.Writes);
      forall h ensures RefsOk(states[0], h) {
        CountNone(states[0].tasks, Refers(h));
      }
    } else {
      RunKeeps(states, steps, i - 1);
      if steps[i - 1].LockStep? {
        LockKeeps(states[i - 1], steps[i - 1]);
      } else {
        TaskKeeps(states[i - 1], steps[i - 1]);
      }
    }
  }

  /** A handler is installed only where there is none. */
  lemma InstallsFirst(s: State, step: Step)
    requires Inv(s) && Enabled(s, step) && step.Install?
    ensures s.handler == 0
  {
    assert TaskOk(s, step.thread);
  }

  lemma HandlerStays(s: State, step: Step)
    requires Inv(s) && Enabled(s, step) && s.handler != 0 && !step.Shut?
    ensures Do(s, step).handler == s.handler
  {
    if step.Install? {
      InstallsFirst(s, step);
    }
  }

  /** A handler that is installed stays until Shutdown. */
  lemma {:induction false} StaysInstalled(states: seq<State>, steps: seq<Step>, i: nat, j: nat)
    requires Run(states, steps) && i <= j < |states| && states[i].handler != 0
    requires forall k :: i <= k < j ==> !steps[k].Shut?
    ensures states[j].handler == states[i].handler
    decreases j - i
  {
    if i < j {
      StaysInstalled(states, steps, i, j - 1);
      RunKeeps(states, steps, j - 1);
      HandlerStays(states[j - 1], steps[j - 1]);
    }
  }

  /** Between two installations there is a Shutdown, however the calls of Get overlap. */
  lemma InstalledOnce(states: seq<State>, steps: seq<Step>, i: nat, j: nat)
    requires Run(states, steps) && i < j < |steps| && steps[i].Install? && steps[j].Install?
    ensures exists k :: i < k < j && steps[k].Shut?
  {
    RunKeeps(states, steps, i);
    RunKeeps(states, steps, j);
    assert TaskOk(states[i], steps[i].thread);
    InstallsFirst(states[j], steps[j]);
    if forall k :: i < k < j ==> !steps[k].Shut? {
      StaysInstalled(states, steps, i + 1, j);
    }
  }

  /** In every reachable state the references to a handler are exactly those of the callers that have got it and not
      given it up, of the calls of Get that are about to install or to return it, and that of the installed handler:
      it is destroyed when none of them is left, and not before. */
  lemma ReferencesCount(states: seq<State>, steps: seq<Step>, i: nat, h: Handler)
    requires Run(states, steps) && i < |states| && h != 0
    ensures var s := states[i];
            && Of(s.refs, h) == Of(s.given, h) + Count(s.tasks, Refers(h)) + (if s.handler == h then 1 else 0)
            && Of(s.given, h) >= 0
  {
    RunKeeps(states, steps, i);
    assert RefsOk(states[i], h);
  }

  /** No call that Get makes, but the last, lets go of what it has got. */
  lemma LeavesWithIt(s: State, step: Step, t: nat)
    requires Inv(s) && Enabled(s, step) && t < |s.tasks| && s.tasks[t].GetLeave? && step != Return(t)
    ensures Do(s, step).tasks[t] == s.tasks[t]
  {
    assert TaskOk(s, t);
  }

  lemma {:induction false} KeepsIt(states: seq<State>, steps: seq<Step>, i: nat, j: nat, t: nat)
    requires Run(states, steps) && i <= j < |states| && t < |states[i].tasks| && states[i].tasks[t].GetLeave?
    requires forall k :: i <= k < j ==> steps[k] != Return(t)
    ensures t < |states[j].tasks| && states[j].tasks[t] == states[i].tasks[t]
    decreases j - i
  {
    if i < j {
      KeepsIt(states, steps, i, j - 1, t);
      RunKeeps(states, steps, j - 1);
      LeavesWithIt(states[j - 1], steps[j - 1], t);
    }
  }

  /** What Get returns is the handler that was installed when it took its reference, and until then that reference
      is kept. */
  lemma ReturnsInstalled(states: seq<State>, steps: seq<Step>, i: nat, j: nat, t: nat)
    requires Run(states, steps) && i < j < |states| && steps[i] == TakeRef(t)
    requires forall k :: i < k < j ==> steps[k] != Return(t)
    ensures t < |states[j].tasks| && states[j].tasks[t] == GetLeave(states[i].handler)
    ensures states[i].handler != 0 && Of(states[j].refs, states[i].handler) > 0
  {
    RunKeeps(states, steps, i);
    assert TaskOk(states[i], t);
    KeepsIt(states, steps, i + 1, j, t);
    var h := states[i].handler;
    ReferencesCount(states, steps, j, h);
    CountBound(states[j].tasks, t, Refers(h));
  }

  /** In step i this call of Get has come to what it is going to return in state j. */
  ghost predicate Decides(states: seq<State>, steps: seq<Step>, i: nat, j: nat, t: nat, got: Handler) {
    && i < j <= |steps| < |states| && t < |states[i].tasks|
    && (if got == 0 then steps[i] == Create(t, false) else steps[i] == TakeRef(t) && states[i].handler == got)
    && (forall k :: i < k < j ==> steps[k] != Return(t))
  }

  lemma DecidedBy(s: State, step: Step, t: nat)
    requires Inv(s) && Enabled(s, step) && t < |s.tasks| && Do(s, step).tasks[t].GetLeave?
    ensures var got := Do(s, step).tasks[t].got;
            || (s.tasks[t] == GetLeave(got) && step != Return(t))
            || (if got == 0 then step == Create(t, false) else step == TakeRef(t) && s.handler == got)
  {
    assert TaskOk(s, t);
  }

  /** Whatever Get returns, it has come to in a step of its own: it is the handler that was installed when it took a
      reference, or null, and that only if it has failed to create a handler itself. */
  lemma {:induction false} ReturnsWhatItGot(states: seq<State>, steps: seq<Step>, j: nat, t: nat) returns (i: nat)
    requires Run(states, steps) && j < |states| && t < |states[j].tasks| && states[j].tasks[t].GetLeave?
    ensures Decides(states, steps, i, j, t, states[j].tasks[t].got)
    decreases j
  {
    assert j > 0;
    i := j - 1;
    RunKeeps(states, steps, i);
    DecidedBy(states[i], steps[i], t);
    if states[i].tasks[t] == states[j].tasks[t] && steps[i] != Return(t) {
      i := ReturnsWhatItGot(states, steps, i, t);
    }
  }

  /** Two calls of Get return the same handler unless there is a Shutdown between them. */
  lemma ReturnSame(states: seq<State>, steps: seq<Step>, i: nat, j: nat, t: nat, u: nat, k: nat, l: nat)
    requires Run(states, steps) && i <= j < |steps| && steps[i] == TakeRef(t) && steps[j] == TakeRef(u)
    requires forall m :: i <= m < j ==> !steps[m].Shut?
    requires i < k < |states| && (forall m :: i < m < k ==> steps[m] != Return(t))
    requires j < l < |states| && (forall m :: j < m < l ==> steps[m] != Return(u))
    ensures t < |states[k].tasks| && u < |states[l].tasks|
    ensures states[k].tasks[t].GetLeave? && states[k].tasks[t] == states[l].tasks[u]
  {
    ReturnsInstalled(states, steps, i, k, t);
    ReturnsInstalled(states, steps, j, l, u);
    StaysInstalled(states, steps, i, j);
  }
}
