/** What holds in every run of the timer handler, however the callers and the timer thread interleave. */
module TimerSafety {
  import opened TimerEngine
  import opened TimerProofs

  /** A run takes one enabled step after another from the initial state. */
  ghost predicate Run(states: seq<State>, steps: seq<Step>) {
    && |states| == |steps| + 1 && Initial(states[0])
    && forall i :: 0 <= i < |steps| ==> Enabled(states[i], steps[i]) && states[i + 1] == Do(states[i], steps[i])
  }

  lemma {:induction false} RunKeeps(states: seq<State>, steps: seq<Step>, i: nat)
    requires Run(states, steps) && i < |states|
    ensures Inv(states[i])
    decreases i
  {
    if i == 0 {
      InitKeeps(states[0]);
    } else {
      RunKeeps(states, steps, i - 1);
      StepKeeps(states[i - 1], steps[i - 1]);
    }
  }

  /** A run goes on with any step that is enabled. */
  lemma Extend(states: seq<State>, steps: seq<Step>, step: Step) returns (states': seq<State>, steps': seq<Step>)
    requires Run(states, steps) && Enabled(states[|steps|], step)
    ensures states' == states + [Do(states[|steps|], step)] && steps' == steps + [step] && Run(states', steps')
  {
    states', steps' := states + [Do(states[|steps|], step)], steps + [step];
  }

  /** Thread 1 has added timer 1, in block 0 and with its id in variable 0, to an empty handler. */
  ghost function OneTimer(clock: nat, timeout: nat): State {
    State(map[0 := Timer(1, timeout, Millis(clock) + timeout, Flags(false, false, true, false), 1, 0)], [0], [0], [], 1,
          1, map[0 := 1], map[], Resting, clock, map[0 := Queued], map[1 := 0], map[1 := InVariable(0)], multiset{}, {})
  }

  /** The handler on the way there, before the number of steps that AddTimer has taken is 4. */
  ghost function OnTheWay(clock: nat, timeout: nat, taken: nat): State
    requires taken < 4
  {
    var timer := Timer(if taken < 2 then 0 else 1, timeout, if taken < 3 then 0 else Millis(clock) + timeout,
                       Flags(false, false, true, false), 0, 0);
    var empty := State(map[], [], [], [], 0, 0, map[], map[], Resting, clock, map[], map[], map[], multiset{}, {});
    if taken == 0 then empty
    else empty.(timers := map[0 := timer], roles := map[0 := Adding(1)], lastId := timer.id,
                calls := map[1 := if taken == 1 then Allocated(0, 0) else if taken == 2 then Numbered(0, 0)
                  else Dated(0, 0)],
                ledger := if taken == 1 then map[] else map[1 := 0])
  }

  lemma AddSteps(clock: nat, timeout: nat)
    ensures Enabled(OnTheWay(clock, timeout, 0), AddAllocate(1, 0, timeout, true, 0, 0))
    ensures Do(OnTheWay(clock, timeout, 0), AddAllocate(1, 0, timeout, true, 0, 0)) == OnTheWay(clock, timeout, 1)
    ensures Enabled(OnTheWay(clock, timeout, 1), AddNumber(1))
    ensures Do(OnTheWay(clock, timeout, 1), AddNumber(1)) == OnTheWay(clock, timeout, 2)
    ensures Enabled(OnTheWay(clock, timeout, 2), AddDate(1))
    ensures Do(OnTheWay(clock, timeout, 2), AddDate(1)) == OnTheWay(clock, timeout, 3)
    ensures Enabled(OnTheWay(clock, timeout, 3), AddInsert(1))
  {
  }

  lemma LastStep(clock: nat, timeout: nat)
    requires Enabled(OnTheWay(clock, timeout, 3), AddInsert(1))
    ensures Do(OnTheWay(clock, timeout, 3), AddInsert(1)) == OneTimer(clock, timeout)
  {
    InsertOne(OnTheWay(clock, timeout, 3));
  }

  lemma AddTwo(clock: nat, timeout: nat) returns (states: seq<State>, steps: seq<Step>)
    ensures Run(states, steps) && |steps| == 2 && states[2] == OnTheWay(clock, timeout, 2)
  {
    AddSteps(clock, timeout);
    states, steps := Extend([OnTheWay(clock, timeout, 0)], [], AddAllocate(1, 0, timeout, true, 0, 0));
    states, steps := Extend(states, steps, AddNumber(1));
  }

  lemma AddThree(clock: nat, timeout: nat) returns (states: seq<State>, steps: seq<Step>)
    ensures Run(states, steps) && |steps| == 3 && steps[2] == AddDate(1)
    ensures states[2] == OnTheWay(clock, timeout, 2) && states[3] == OnTheWay(clock, timeout, 3)
  {
    states, steps := AddTwo(clock, timeout);
    AddSteps(clock, timeout);
    states, steps := Extend(states, steps, AddDate(1));
  }

  /** The steps by which it has done so. */
  lemma AddOne(clock: nat, timeout: nat) returns (states: seq<State>, steps: seq<Step>)
    ensures Run(states, steps) && |steps| == 4 && steps[2] == AddDate(1)
    ensures states[2] == OnTheWay(clock, timeout, 2) && states[4] == OneTimer(clock, timeout)
  {
    states, steps := AddThree(clock, timeout);
    AddSteps(clock, timeout);
    LastStep(clock, timeout);
    states, steps := Extend(states, steps, AddInsert(1));
  }

  lemma InsertOne(s: State)
    requires s.calls.Keys == {1} && s.calls[1] == Dated(0, 0) && s.timers.Keys == {0} == s.roles.Keys
    requires s.byId == s.queue == [] && s.variables == map[] && s.tokens == map[]
    ensures Enabled(s, AddInsert(1))
    ensures Do(s, AddInsert(1)) == s.(
              timers := map[0 := s.timers[0].(stamp := s.lastStamp + 1)], lastStamp := s.lastStamp + 1, byId := [0],
                queue := [0],
              roles := map[0 := Queued], calls := map[], variables := map[0 := s.timers[0].id],
              tokens := map[s.timers[0].id := InVariable(0)])
  {
    assert s.calls - {1} == map[];
  }

  /** The callback of the timer with this id has been chosen to run, runs, or has just returned. */
  ghost predicate InCallback(s: State, id: Id) {
    exists b :: s.Holds(b) && b in s.timers && s.timers[b].id == id
  }

  /** In every reachable state a timer has been released at most once, never while its
      callback runs, and exactly once if nobody has it any more. */
  lemma FreedOnce(states: seq<State>, steps: seq<Step>, i: nat, id: Id)
    requires Run(states, steps) && i < |states|
    ensures states[i].freed[id] <= 1
    ensures InCallback(states[i], id) ==> states[i].freed[id] == 0
    ensures 0 < id <= states[i].lastId ==> (states[i].freed[id] == 1 <==> id !in states[i].ledger)
    ensures forall b :: states[i].Holds(b) ==> b in states[i].timers && b !in states[i].pool
  {
    var s := states[i];
    RunKeeps(states, steps, i);
    assert IdOk(s, id);
    forall b | s.Holds(b) ensures b in s.timers && b !in s.pool && s.freed[s.timers[b].id] == 0 {
      assert BlockOk(s, b) && IdOk(s, s.timers[b].id);
    }
  }

  /** In every reachable state the array by id and the queue hold the same timers, each in strict
      order, and no timer of the free list is in either. */
  lemma ListsAgree(states: seq<State>, steps: seq<Step>, i: nat)
    requires Run(states, steps) && i < |states|
    ensures forall b :: b in states[i].byId <==> b in states[i].queue
    ensures forall b :: b in states[i].pool ==> b !in states[i].queue
    ensures SortedById(states[i].timers, states[i].byId) && SortedByDue(states[i].timers, states[i].queue)
    ensures |states[i].pool| <= MAX_TIMERS_IN_FREE_LIST
  {
    RunKeeps(states, steps, i);
  }

  /** The timer thread chooses a timer that is due, and before all others in due time and order of insertion. */
  lemma FiresFirst(states: seq<State>, steps: seq<Step>, i: nat)
    requires Run(states, steps) && i < |steps| && steps[i] == LoopPick && states[i + 1].loop.Claimed?
    ensures var s, b := states[i], states[i + 1].loop.block;
            && b in s.queue && b in s.timers && s.timers[b].due <= Millis(s.clock) && !s.timers[b].flags.canceled
            && forall other :: other in s.queue && other != b ==> Earlier(s.timers, b, other)
  {
    var s := states[i];
    RunKeeps(states, steps, i);
    PickIsFirst(s);
    assert s.queue[0] in s.queue && BlockOk(s, s.queue[0]);
    forall other | other in s.queue && other != s.queue[0] ensures Earlier(s.timers, s.queue[0], other) {
      var k :| 0 <= k < |s.queue| && s.queue[k] == other;
    }
  }

  /** With this step RemoveTimer, called on t for the timer id, returns. */
  ghost predicate RemoveReturns(s: State, step: Step, t: Thread, id: Id) {
    && step in {RemoveCancel(t), RemoveFree(t)} && Enabled(s, step) && s.calls[t].taken == id
    && t !in Do(s, step).calls
  }

  lemma SettledGrows(s: State, step: Step)
    requires Enabled(s, step)
    ensures s.settled <= Do(s, step).settled
  {
    match step
    case AddInsert(t) => InsertFrame(s, t);
    case RemoveCancel(t) => CancelFrame(s, t);
    case RemoveFree(t) => FreeFrame(s, t);
    case LoopPick => PickFrame(s);
    case LoopSettle => SettleFrame(s);
    case _ =>
  }

  lemma ReturnSettles(s: State, step: Step, t: Thread, id: Id)
    requires RemoveReturns(s, step, t, id) && t != TIMER_THREAD
    ensures id in Do(s, step).settled
  {
  }

  lemma {:induction false} Grows(states: seq<State>, i: nat, j: nat)
    requires i <= j < |states| && forall k :: i <= k < j ==> states[k].settled <= states[k + 1].settled
    ensures states[i].settled <= states[j].settled
    decreases j - i
  {
    if i < j {
      Grows(states, i, j - 1);
    }
  }

  /** Once RemoveTimer has returned on another thread than the timer thread, the callback is over and
      never starts again, the timer has been released exactly once, and nobody knows its id. */
  lemma NeverAfterRemoval(states: seq<State>, steps: seq<Step>, i: nat, j: nat, t: Thread, id: Id)
    requires Run(states, steps) && i < j < |states|
    requires RemoveReturns(states[i], steps[i], t, id) && t != TIMER_THREAD
    ensures !InCallback(states[j], id) && states[j].freed[id] == 1
    ensures id !in states[j].tokens
    ensures forall b :: b in states[j].queue ==> b in states[j].timers && states[j].timers[b].id != id
  {
    var s := states[j];
    ReturnSettles(states[i], steps[i], t, id);
    forall k | i < k < j ensures states[k].settled <= states[k + 1].settled {
      SettledGrows(states[k], steps[k]);
    }
    Grows(states, i + 1, j);
    RunKeeps(states, steps, j);
    assert IdOk(s, id);
    forall b | s.Holds(b) || b in s.queue ensures b in s.timers && s.timers[b].id != id {
      assert BlockOk(s, b);
    }
  }
}
