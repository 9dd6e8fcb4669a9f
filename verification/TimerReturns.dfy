/** RemoveTimer of Source/TimedEvent.cpp comes back, if the thread goes on and the timer thread does. */
module TimerReturns {
  import opened Paths
  import opened Sequences
  import opened TimerEngine
  import opened TimerProofs
  import opened TimerSafety
  import opened TimerProgress

  /** How far the timer thread is from the end of the callback that it is at. */
  function Toil(s: State): nat {
    match s.loop
    case Claimed(_, _) => 10
    case Running(_, _) =>
      if TIMER_THREAD !in s.calls then 4
      else (match s.calls[TIMER_THREAD]
            case Allocated(_, _) => 9
            case Numbered(_, _) => 8
            case Dated(_, _) => 7
            case Took(_) => 6
            case Stopped(_, _, _) => 5)
    case Returned(_, _, _) => 3
    case _ => 0
  }

  /** The call of the thread t is where it was. */
  predicate Stands(s: State, s': State, t: Thread) {
    t in s.calls && t in s'.calls && s'.calls[t] == s.calls[t]
  }

  lemma CallToils(s: State, t: Thread) returns (step: Step)
    requires Inv(s) && t in s.calls && t != TIMER_THREAD && TIMER_THREAD in s.calls
    ensures Enabled(s, step) && Stands(s, Do(s, step), t) && Toil(Do(s, step)) < Toil(s)
  {
    assert CallOk(s, TIMER_THREAD);
    match s.calls[TIMER_THREAD]
    case Allocated(b, _) => step := AddNumber(TIMER_THREAD);
    case Numbered(b, _) => step := AddDate(TIMER_THREAD);
    case Dated(b, _) => step := AddInsert(TIMER_THREAD);
    case Took(_) => step := RemoveCancel(TIMER_THREAD); CancelToils(s, t);
    case Stopped(b, _, _) => step := RemoveFree(TIMER_THREAD); assert BlockOk(s, b);
  }

  lemma FoundToils(s: State, t: Thread, b: Block)
    requires Inv(s) && Enabled(s, RemoveCancel(TIMER_THREAD)) && t in s.calls && t != TIMER_THREAD && b in s.timers
    ensures var s' := DoCancelFound(s, TIMER_THREAD, b); Stands(s, s', t) && Toil(s') < Toil(s)
  {
  }

  lemma CancelToils(s: State, t: Thread)
    requires Inv(s) && Enabled(s, RemoveCancel(TIMER_THREAD)) && t in s.calls && t != TIMER_THREAD
    ensures Stands(s, DoCancel(s, TIMER_THREAD), t) && Toil(DoCancel(s, TIMER_THREAD)) < Toil(s)
  {
    var taken := s.calls[TIMER_THREAD].taken;
    if b :| Finds(s, taken, b) && DoCancel(s, TIMER_THREAD) == DoCancelFound(s, TIMER_THREAD, b) {
      FoundToils(s, t, b);
    } else {
      var s' := Leave(s, TIMER_THREAD, taken).(tokens := s.tokens - {taken});
      assert DoCancel(s, TIMER_THREAD) == s' && Stands(s, s', t) && Toil(s') < Toil(s);
    }
  }

  lemma SettleToils(s: State, t: Thread)
    requires Inv(s) && Enabled(s, LoopSettle) && t in s.calls
    ensures Stands(s, DoSettle(s), t) && Toil(DoSettle(s)) < Toil(s)
  {
    SettleFrame(s);
  }

  /** While the callback runs that RemoveTimer waits for, the timer thread can go on. */
  lemma Toils(s: State, t: Thread) returns (step: Step)
    requires Inv(s) && t in s.calls && t != TIMER_THREAD && Toil(s) > 0
    ensures Enabled(s, step) && Stands(s, Do(s, step), t) && Toil(Do(s, step)) < Toil(s)
  {
    if TIMER_THREAD in s.calls {
      step := CallToils(s, t);
    } else {
      match s.loop
      case Claimed(_, _) => step := CallbackStart;
      case Running(_, _) => step := CallbackEnd(false);
      case Returned(_, _, _) => step := LoopSettle; SettleToils(s, t);
    }
  }

  /** How far RemoveTimer is. */
  function ToDo(s: State, t: Thread): nat {
    if t !in s.calls then 0
    else match s.calls[t]
      case Took(_) => 3
      case Stopped(_, _, awaited) => if awaited then 2 else 1
      case _ => 0
  }

  lemma OwnStep(s: State, t: Thread) returns (step: Step)
    requires Inv(s) && t in s.calls && (s.calls[t].Took? || s.calls[t].Stopped?)
    requires s.calls[t].Stopped? && s.calls[t].awaited ==> Toil(s) == 0
    ensures Enabled(s, step) && ToDo(Do(s, step), t) < ToDo(s, t)
    ensures t in Do(s, step).calls ==> Do(s, step).calls[t].Stopped?
  {
    assert CallOk(s, t);
    match s.calls[t]
    case Took(_) => step := RemoveCancel(t); CancelGoesOn(s, t);
    case Stopped(b, _, awaited) =>
      assert BlockOk(s, b);
      step := if awaited then RemoveAwait(t) else RemoveFree(t);
  }

  lemma FoundGoesOn(s: State, t: Thread, b: Block)
    requires Inv(s) && Enabled(s, RemoveCancel(t)) && b in s.timers
    ensures var s' := DoCancelFound(s, t, b); ToDo(s', t) < 3 && (t in s'.calls ==> s'.calls[t].Stopped?)
  {
  }

  lemma CancelGoesOn(s: State, t: Thread)
    requires Inv(s) && Enabled(s, RemoveCancel(t))
    ensures ToDo(DoCancel(s, t), t) < 3 && (t in DoCancel(s, t).calls ==> DoCancel(s, t).calls[t].Stopped?)
  {
    var taken := s.calls[t].taken;
    if b :| Finds(s, taken, b) && DoCancel(s, t) == DoCancelFound(s, t, b) {
      FoundGoesOn(s, t, b);
    } else {
      assert DoCancel(s, t) == Leave(s, t, taken).(tokens := s.tokens - {taken});
    }
  }

  lemma {:induction false} ComesBack(s: State, t: Thread) returns (path: seq<Step>)
    requires Inv(s) && (t in s.calls ==> s.calls[t].Took? || s.calls[t].Stopped?)
    ensures Goes(Do, s, path) && t !in After(Do, s, path).calls
    decreases ToDo(s, t), Toil(s)
  {
    path := [];
    if t in s.calls {
      var waits := s.calls[t].Stopped? && s.calls[t].awaited && Toil(s) > 0;
      var step;
      if waits {
        assert CallOk(s, t) && BlockOk(s, s.calls[t].block);
        step := Toils(s, t);
      } else {
        step := OwnStep(s, t);
      }
      StepKeeps(s, step);
      var rest := ComesBack(Do(s, step), t);
      path := [step] + rest;
      assert path[1..] == rest;
    }
  }

  /** From every reachable state in which a thread is in RemoveTimer, some steps lead to its return: it waits for the
      callback that runs, and for nothing else. */
  lemma RemoveComesBack(states: seq<State>, steps: seq<Step>, i: nat, t: Thread) returns (path: seq<Step>)
    requires Run(states, steps) && i < |states|
    requires t in states[i].calls && (states[i].calls[t].Took? || states[i].calls[t].Stopped?)
    ensures Goes(Do, states[i], path) && t !in After(Do, states[i], path).calls
  {
    RunKeeps(states, steps, i);
    path := ComesBack(states[i], t);
  }
}
