/** A timer that may be chosen is chosen at last, if the timer thread goes on and the other threads do not. */
module TimerProgress {
  import opened Paths
  import opened Sequences
  import opened TimerEngine
  import opened TimerProofs
  import opened TimerSafety
  import opened TimerRemoval

  /** How far the adding of block b is from its end. */
  ghost function Unqueued(s: State, b: Block): nat {
    if b in s.roles && s.roles[b].Adding? then
      var t := s.roles[b].adder;
      if t in s.calls && s.calls[t].Dated? then 1 else 2
    else 0
  }

  ghost predicate Leaves(s: State, b: Block) {
    && !s.loop.Resting? && !s.loop.Sampled? && s.loop.block != b && s.loop.block in s.queue && s.loop.block in s.timers
    && (s.loop.Returned? ==> s.loop.cancel || s.timers[s.loop.block].flags.oneShot)
  }

  ghost predicate Brings(s: State) {
    TIMER_THREAD in s.calls
      && (s.calls[TIMER_THREAD].Allocated? || s.calls[TIMER_THREAD].Numbered? || s.calls[TIMER_THREAD].Dated?)
  }

  /** How many timers there will be in the queue when the timer thread is done with what it is at. */
  ghost function Ahead(s: State, b: Block): nat {
    assert Leaves(s, b) ==> s.queue != [];
    |s.queue| - (if Leaves(s, b) then 1 else 0) + (if Brings(s) then 1 else 0)
  }

  /** How far the timer thread is from a choice at a time at which b is due. */
  ghost function Away(s: State, b: Block): nat {
    var due := DueOf(s.timers, b);
    match s.loop
    case Claimed(_, _) => 10
    case Running(_, _) =>
      if TIMER_THREAD !in s.calls then 4
      else (match s.calls[TIMER_THREAD]
            case Allocated(_, _) => 9
            case Numbered(_, _) => 8
            case Dated(_, _) => 7
            case Took(_) => 6
            case Stopped(_, _, _) => 5)
    case Returned(_, _, _) => 3
    case Sampled(now) => if due > Millis(now) then 3 else 0
    case Resting => if due > Millis(s.clock) then 2 else 1
  }

  ghost predicate Nearer(s: State, s': State, b: Block) {
    || Unqueued(s', b) < Unqueued(s, b)
    || (Unqueued(s', b) == Unqueued(s, b)
        && (Ahead(s', b) < Ahead(s, b) || (Ahead(s', b) == Ahead(s, b) && Away(s', b) < Away(s, b))))
  }

  /** The timer is still there, in the same block, and nearer to being chosen. */
  ghost predicate Nears(s: State, s': State, id: Id) {
    id in s.ledger && id in s'.ledger && s'.ledger[id] == s.ledger[id] && CanFire(s', id) && Nearer(s, s', s.ledger[id])
  }

  lemma AddNears(s: State, id: Id) returns (step: Step)
    requires Inv(s) && CanFire(s, id) && s.roles[s.ledger[id]].Adding?
    ensures Enabled(s, step) && Nears(s, Do(s, step), id)
  {
    var b := s.ledger[id];
    assert IdOk(s, id) && BlockOk(s, b);
    var t := s.roles[b].adder;
    assert TIMER_THREAD in s.calls ==> CallOk(s, TIMER_THREAD);
    step := if s.calls[t].Numbered? then AddDate(t) else AddInsert(t);
  }

  lemma InnerAddNears(s: State, id: Id) returns (step: Step)
    requires Inv(s) && CanFire(s, id) && s.roles[s.ledger[id]].Queued? && Brings(s)
    ensures Enabled(s, step) && Nears(s, Do(s, step), id)
  {
    var b := s.ledger[id];
    var own := AddingFocus(s, TIMER_THREAD);
    assert IdOk(s, id) && BlockOk(s, b);
    step := if s.calls[TIMER_THREAD].Allocated? then AddNumber(TIMER_THREAD)
            else if s.calls[TIMER_THREAD].Numbered? then AddDate(TIMER_THREAD) else AddInsert(TIMER_THREAD);
  }

  lemma StartNears(s: State, id: Id)
    requires Inv(s) && CanFire(s, id) && s.roles[s.ledger[id]].Queued? && s.loop.Claimed?
    ensures Nears(s, Do(s, CallbackStart), id)
  {
  }

  lemma EndNears(s: State, id: Id) returns (step: Step)
    requires Inv(s) && CanFire(s, id) && s.roles[s.ledger[id]].Queued? && s.loop.Running? && TIMER_THREAD !in s.calls
    ensures Enabled(s, step) && Nears(s, Do(s, step), id)
  {
    var h := s.loop.block;
    step := CallbackEnd(h != s.ledger[id] && !s.timers[h].flags.oneShot);
  }

  lemma RestNears(s: State, id: Id) returns (step: Step)
    requires Inv(s) && CanFire(s, id) && s.roles[s.ledger[id]].Queued? && s.loop.Resting?
    ensures Enabled(s, step) && Nears(s, Do(s, step), id)
  {
    var due := s.timers[s.ledger[id]].due;
    step := if due > Millis(s.clock) then Tick(due * UNITS_PER_MS) else LoopSample;
  }

  lemma FoundNears(s: State, id: Id, x: Block)
    requires Inv(s) && CanFire(s, id) && s.roles[s.ledger[id]].Queued?
    requires Enabled(s, RemoveCancel(TIMER_THREAD)) && Finds(s, s.calls[TIMER_THREAD].taken, x)
    ensures Nears(s, DoCancelFound(s, TIMER_THREAD, x), id)
  {
    var b := s.ledger[id];
    assert IdOk(s, id) && BlockOk(s, b) && BlockOk(s, x);
    WithoutIs(s.queue, x);
    assert IndexOf(s.queue, x) < |s.queue|;
  }

  lemma MissedNears(s: State, id: Id)
    requires Inv(s) && CanFire(s, id) && s.roles[s.ledger[id]].Queued? && Enabled(s, RemoveCancel(TIMER_THREAD))
    ensures var taken := s.calls[TIMER_THREAD].taken;
            Nears(s, Leave(s, TIMER_THREAD, taken).(tokens := s.tokens - {taken}), id)
  {
  }

  lemma CancelNears(s: State, id: Id)
    requires Inv(s) && CanFire(s, id) && s.roles[s.ledger[id]].Queued? && Enabled(s, RemoveCancel(TIMER_THREAD))
    ensures Nears(s, DoCancel(s, TIMER_THREAD), id)
  {
    var taken := s.calls[TIMER_THREAD].taken;
    if x :| Finds(s, taken, x) && DoCancel(s, TIMER_THREAD) == DoCancelFound(s, TIMER_THREAD, x) {
      FoundNears(s, id, x);
    } else {
      MissedNears(s, id);
    }
  }

  lemma FreeNears(s: State, id: Id)
    requires Inv(s) && CanFire(s, id) && s.roles[s.ledger[id]].Queued?
    requires TIMER_THREAD in s.calls && s.calls[TIMER_THREAD].Stopped?
    ensures Enabled(s, RemoveFree(TIMER_THREAD)) && Nears(s, DoFree(s, TIMER_THREAD), id)
  {
    var b, x := s.ledger[id], s.calls[TIMER_THREAD].block;
    assert CallOk(s, TIMER_THREAD) && BlockOk(s, x) && IdOk(s, id) && BlockOk(s, b);
  }

  /** The timer that comes first is chosen, and leaves the queue; or nothing is due yet. */
  lemma PickNears(s: State, id: Id)
    requires Inv(s) && CanFire(s, id) && s.roles[s.ledger[id]].Queued? && s.loop.Sampled?
    ensures Chosen(DoPick(s), id) || Nears(s, DoPick(s), id)
  {
    var b := s.ledger[id];
    PickIsFirst(s);
    assert IdOk(s, id) && b in s.queue;
    var k :| 0 <= k < |s.queue| && s.queue[k] == b;
    assert k > 0 ==> Earlier(s.timers, s.queue[0], s.queue[k]);
    assert s.queue[0] in s.queue && BlockOk(s, s.queue[0]);
  }

  lemma CanceledNears(s: State, id: Id)
    requires Inv(s) && CanFire(s, id) && s.roles[s.ledger[id]].Queued? && s.loop.Returned?
    requires s.timers[s.loop.block].flags.canceled
    ensures Nears(s, DoSettle(s), id)
  {
    var b, h := s.ledger[id], s.loop.block;
    assert IdOk(s, id) && BlockOk(s, b) && BlockOk(s, h);
  }

  lemma ReleasedNears(s: State, id: Id)
    requires Inv(s) && CanFire(s, id) && s.roles[s.ledger[id]].Queued? && s.loop.Returned?
    requires !s.timers[s.loop.block].flags.canceled && (s.loop.cancel || s.timers[s.loop.block].flags.oneShot)
    ensures Nears(s, DoSettle(s), id)
  {
    var b, h := s.ledger[id], s.loop.block;
    assert IdOk(s, id) && BlockOk(s, b) && BlockOk(s, h) && h in s.queue;
    assert IndexOf(s.queue, h) < |s.queue|;
  }

  lemma AgainNears(s: State, id: Id)
    requires Inv(s) && CanFire(s, id) && s.roles[s.ledger[id]].Queued? && s.loop.Returned?
    requires !s.timers[s.loop.block].flags.canceled && !s.loop.cancel && !s.timers[s.loop.block].flags.oneShot
    ensures Nears(s, DoSettle(s), id)
  {
    var b, h := s.ledger[id], s.loop.block;
    assert IdOk(s, id) && BlockOk(s, b) && BlockOk(s, h) && h in s.queue;
    assert IndexOf(s.queue, h) < |s.queue|;
  }

  lemma SettleNears(s: State, id: Id)
    requires Inv(s) && CanFire(s, id) && s.roles[s.ledger[id]].Queued? && s.loop.Returned?
    ensures Nears(s, DoSettle(s), id)
  {
    var f := s.timers[s.loop.block].flags;
    if f.canceled {
      CanceledNears(s, id);
    } else if s.loop.cancel || f.oneShot {
      ReleasedNears(s, id);
    } else {
      AgainNears(s, id);
    }
  }

  /** There is always a step that brings the timer nearer to being chosen. */
  lemma StepNears(s: State, id: Id) returns (step: Step)
    requires Inv(s) && CanFire(s, id) && !Chosen(s, id)
    ensures Enabled(s, step) && (Chosen(Do(s, step), id) || Nears(s, Do(s, step), id))
  {
    if s.roles[s.ledger[id]].Adding? {
      step := AddNears(s, id);
    } else if TIMER_THREAD in s.calls {
      step := CallNears(s, id);
    } else {
      match s.loop
      case Resting => step := RestNears(s, id);
      case Sampled(_) => step := LoopPick; PickNears(s, id);
      case Claimed(_, _) => step := CallbackStart; StartNears(s, id);
      case Running(_, _) => step := EndNears(s, id);
      case Returned(_, _, _) => step := LoopSettle; SettleNears(s, id);
    }
  }

  lemma CallNears(s: State, id: Id) returns (step: Step)
    requires Inv(s) && CanFire(s, id) && s.roles[s.ledger[id]].Queued? && TIMER_THREAD in s.calls
    ensures Enabled(s, step) && Nears(s, Do(s, step), id)
  {
    match s.calls[TIMER_THREAD]
    case Took(_) => step := RemoveCancel(TIMER_THREAD); CancelNears(s, id);
    case Stopped(_, _, _) => step := RemoveFree(TIMER_THREAD); FreeNears(s, id);
    case _ => step := InnerAddNears(s, id);
  }

  /** Some steps lead to a start of the callback. */
  ghost predicate MayStart(s: State, id: Id) {
    exists path :: Goes(Do, s, path) && Chosen(After(Do, s, path), id)
  }

  lemma {:induction false} ComesToStart(s: State, id: Id) returns (path: seq<Step>)
    requires Inv(s) && CanStart(s, id)
    ensures Goes(Do, s, path) && Chosen(After(Do, s, path), id)
    decreases if Chosen(s, id) then 0 else 1,
              if id in s.ledger then Unqueued(s, s.ledger[id]) else 0,
              if id in s.ledger then Ahead(s, s.ledger[id]) else 0,
              if id in s.ledger then Away(s, s.ledger[id]) else 0
  {
    path := [];
    if !Chosen(s, id) {
      var step := StepNears(s, id);
      StepKeeps(s, step);
      var rest := ComesToStart(Do(s, step), id);
      path := [step] + rest;
      assert path[1..] == rest;
    }
  }

  lemma {:induction false} StaysDead(s: State, path: seq<Step>, id: Id)
    requires Inv(s) && Dead(s, id) && Goes(Do, s, path)
    ensures Dead(After(Do, s, path), id)
    decreases |path|
  {
    if path != [] {
      StepKeeps(s, path[0]);
      StepKeepsDead(s, path[0], id);
      StaysDead(Do(s, path[0]), path[1..], id);
    }
  }

  /** In every reachable state, of every timer that has been given an id: its callback may start, now or
      later, exactly if the timer is being added, or it is queued, and is not just removed by the callback that
      runs, and not called for the last time, or it is about to start. */
  lemma MayStartIff(states: seq<State>, steps: seq<Step>, i: nat, id: Id)
    requires Run(states, steps) && i < |states| && 0 < id <= states[i].lastId
    ensures MayStart(states[i], id) <==> CanStart(states[i], id)
  {
    var s := states[i];
    RunKeeps(states, steps, i);
    if CanStart(s, id) {
      var path := ComesToStart(s, id);
    } else {
      forall path | Goes(Do, s, path) ensures !Chosen(After(Do, s, path), id) {
        StaysDead(s, path, id);
      }
    }
  }

  /** Of a timer that is neither being added nor called nor just removed by a callback, the callback may start
      exactly if the timer is queued. */
  lemma QueuedMayStart(states: seq<State>, steps: seq<Step>, i: nat, id: Id)
    requires Run(states, steps) && i < |states| && 0 < id <= states[i].lastId
    requires !InCallback(states[i], id)
             && !(TIMER_THREAD in states[i].calls && states[i].calls[TIMER_THREAD] == Took(id))
    requires id in states[i].ledger && states[i].ledger[id] in states[i].roles ==>
             !states[i].roles[states[i].ledger[id]].Adding?
    ensures MayStart(states[i], id) <==> id in states[i].ledger && states[i].ledger[id] in states[i].queue
  {
    var s := states[i];
    MayStartIff(states, steps, i, id);
    RunKeeps(states, steps, i);
    assert IdOk(s, id);
    if id in s.ledger {
      var b := s.ledger[id];
      assert BlockOk(s, b) && (s.Holds(b) ==> InCallback(s, id));
    }
    assert Chosen(s, id) ==> s.Holds(s.loop.block);
  }

  lemma FoundTurnsOff(s: State, t: Thread, b: Block)
    requires Inv(s) && Enabled(s, RemoveCancel(t)) && Finds(s, s.calls[t].taken, b)
    ensures Off(DoCancelFound(s, t, b), s.calls[t].taken)
  {
    assert CallOk(s, t) && IdOk(s, s.calls[t].taken) && BlockOk(s, b);
  }

  lemma MissedTurnsOff(s: State, t: Thread)
    requires Inv(s) && Enabled(s, RemoveCancel(t)) && forall b :: !Finds(s, s.calls[t].taken, b)
    ensures Off(s, s.calls[t].taken)
  {
    var id := s.calls[t].taken;
    if id in s.ledger {
      LedgerFound(s, t);
    }
    assert CallOk(s, t) && IdOk(s, id);
  }

  lemma CancelTurnsOff(s: State, t: Thread)
    requires Inv(s) && Enabled(s, RemoveCancel(t))
    ensures Off(DoCancel(s, t), s.calls[t].taken)
  {
    var id := s.calls[t].taken;
    if b :| Finds(s, id, b) && DoCancel(s, t) == DoCancelFound(s, t, b) {
      FoundTurnsOff(s, t, b);
    } else {
      MissedTurnsOff(s, t);
    }
  }

  lemma {:induction false} StaysOff(states: seq<State>, steps: seq<Step>, i: nat, j: nat, id: Id)
    requires Run(states, steps) && i <= j < |states| && Off(states[i], id)
    ensures Off(states[j], id)
    decreases j - i
  {
    if i < j {
      StaysOff(states, steps, i, j - 1, id);
      RunKeeps(states, steps, j - 1);
      StepKeepsOff(states[j - 1], steps[j - 1], id);
    }
  }

  /** Once the critical section of RemoveTimer is over, on any thread, the timer is never chosen again. */
  lemma NeverChosenAgain(states: seq<State>, steps: seq<Step>, i: nat, j: nat, t: Thread)
    requires Run(states, steps) && i < j < |steps| && steps[i] == RemoveCancel(t) && steps[j] == LoopPick
    ensures !Chosen(states[j + 1], states[i].calls[t].taken)
  {
    var id := states[i].calls[t].taken;
    RunKeeps(states, steps, i);
    CancelTurnsOff(states[i], t);
    StaysOff(states, steps, i + 1, j, id);
    RunKeeps(states, steps, j);
    PickKeepsOff(states[j], id);
  }

  /** When RemoveTimer returns, on any thread, for an id that it has taken, the callback can never start again:
      not even if it is the callback itself that has removed its timer. */
  lemma ReturnEndsIt(states: seq<State>, steps: seq<Step>, i: nat, t: Thread, id: Id)
    requires Run(states, steps) && i < |steps| && RemoveReturns(states[i], steps[i], t, id)
    ensures 0 < id <= states[i + 1].lastId && !MayStart(states[i + 1], id)
  {
    var s, s' := states[i], states[i + 1];
    RunKeeps(states, steps, i);
    RunKeeps(states, steps, i + 1);
    ReturnTurnsOff(s, steps[i], t);
    if t == TIMER_THREAD {
      ReturnInCallback(s, steps[i]);
    } else {
      ReturnSettles(s, steps[i], t, id);
      assert IdOk(s', id) && (Chosen(s', id) ==> BlockOk(s', s'.loop.block));
    }
    OffIsDead(s', id);
    MayStartIff(states, steps, i + 1, id);
  }

  lemma ReturnTurnsOff(s: State, step: Step, t: Thread)
    requires Inv(s) && Enabled(s, step) && step in {RemoveCancel(t), RemoveFree(t)}
    ensures Off(Do(s, step), s.calls[t].taken)
  {
    if step == RemoveCancel(t) {
      CancelTurnsOff(s, t);
    } else {
      var id := s.calls[t].taken;
      assert CallOk(s, t) && BlockOk(s, s.calls[t].block) && IdOk(s, id);
    }
  }

  lemma ReturnInCallback(s: State, step: Step)
    requires Inv(s) && Enabled(s, step) && step in {RemoveCancel(TIMER_THREAD), RemoveFree(TIMER_THREAD)}
    ensures !Do(s, step).loop.Claimed?
  {
    if step == RemoveCancel(TIMER_THREAD) {
      CancelFrame(s, TIMER_THREAD);
    } else {
      FreeFrame(s, TIMER_THREAD);
    }
  }

  lemma TakenTwice()
    ensures Enabled(OneTimer(0, 0), RemoveTake(2, 0))
    ensures var s := Do(OneTimer(0, 0), RemoveTake(2, 0));
            Enabled(s, RemoveTake(3, 0)) && Do(s, RemoveTake(3, 0)) == s
            && 3 !in s.calls
    ensures var s := Do(OneTimer(0, 0), RemoveTake(2, 0));
            s.loop == Resting && s.queue == [0]
            && s.timers == OneTimer(0, 0).timers
  {
  }

  lemma TakeTwice() returns (states: seq<State>, steps: seq<Step>)
    ensures Run(states, steps) && |steps| == 6 && steps[4] == RemoveTake(2, 0) && steps[5] == RemoveTake(3, 0)
    ensures states[4] == OneTimer(0, 0) && 3 !in states[6].calls
    ensures states[6].loop == Resting && states[6].queue == [0] && states[6].timers == OneTimer(0, 0).timers
  {
    states, steps := AddOne(0, 0);
    TakenTwice();
    states, steps := Extend(states, steps, RemoveTake(2, 0));
    states, steps := Extend(states, steps, RemoveTake(3, 0));
  }

  /** A second RemoveTimer that finds the variable cleared returns while the first is still on its way to the
      timer: the callback starts after that. */
  lemma SecondReturnsEarly() returns (states: seq<State>, steps: seq<Step>)
    ensures Run(states, steps) && |steps| == 8 && steps[4] == RemoveTake(2, 0) && steps[5] == RemoveTake(3, 0)
    ensures states[4] == OneTimer(0, 0) && 3 !in states[6].calls && Chosen(states[8], 1)
  {
    states, steps := TakeTwice();
    states, steps := Extend(states, steps, LoopSample);
    states, steps := Extend(states, steps, LoopPick);
  }
}
