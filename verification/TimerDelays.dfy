/** How long a timer waits: the callback is not called before its timeout is over, but for the rounding of times. */
module TimerDelays {
  import opened TimerEngine
  import opened TimerProofs
  import opened TimerSafety

  /** The timer with this id, if it is still in use, has been dated, and is due at time due or later or
      being removed after its last callback. */
  ghost predicate DueFrom(s: State, id: Id, due: nat) {
    id in s.ledger ==>
      var b := s.ledger[id];
      && b in s.timers && b in s.roles
        && (s.timers[b].due >= due || (s.roles[b].Removing? && !s.timers[b].flags.running))
      && (s.roles[b].Adding? ==> s.roles[b].adder in s.calls && s.calls[s.roles[b].adder].Dated?)
  }

  lemma CallKeepsDue(s: State, step: Step, id: Id, due: nat)
    requires Inv(s) && Enabled(s, step) && 0 < id <= s.lastId && DueFrom(s, id, due)
    requires step.AddRefused? || step.AddAllocate? || step.AddNumber? || step.AddDate? || step.RemoveTake? ||
    step.RemoveAwait?
    ensures DueFrom(Do(s, step), id, due)
  {
    var t := step.thread;
    assert IdOk(s, id);
    if id in s.ledger {
      assert BlockOk(s, s.ledger[id]);
    }
    if t in s.calls {
      assert CallOk(s, t);
    }
  }

  lemma InsertKeepsDue(s: State, step: Step, id: Id, due: nat)
    requires Inv(s) && Enabled(s, step) && 0 < id <= s.lastId && DueFrom(s, id, due)
    requires step.AddInsert? || step.AddInsertFails?
    ensures DueFrom(Do(s, step), id, due)
  {
    var b := AddingFocus(s, step.thread);
    assert IdOk(s, id);
    if id in s.ledger {
      assert BlockOk(s, s.ledger[id]);
    }
  }

  lemma CancelKeepsDue(s: State, t: Thread, id: Id, due: nat)
    requires Inv(s) && Enabled(s, RemoveCancel(t)) && 0 < id <= s.lastId && DueFrom(s, id, due)
    ensures DueFrom(DoCancel(s, t), id, due)
  {
    assert IdOk(s, id) && CallOk(s, t);
    if id in s.ledger {
      assert BlockOk(s, s.ledger[id]);
    }
  }

  lemma FreeKeepsDue(s: State, t: Thread, id: Id, due: nat)
    requires Inv(s) && Enabled(s, RemoveFree(t)) && 0 < id <= s.lastId && DueFrom(s, id, due)
    ensures DueFrom(DoFree(s, t), id, due)
  {
    assert IdOk(s, id) && CallOk(s, t);
    if id in s.ledger {
      assert BlockOk(s, s.ledger[id]);
    }
  }

  lemma PickKeepsDue(s: State, id: Id, due: nat)
    requires Inv(s) && Enabled(s, LoopPick) && 0 < id <= s.lastId && DueFrom(s, id, due)
    ensures DueFrom(DoPick(s), id, due)
  {
    PickIsFirst(s);
  }

  lemma CanceledKeepsDue(s: State, id: Id, due: nat)
    requires Inv(s) && Enabled(s, LoopSettle) && 0 < id <= s.lastId && DueFrom(s, id, due)
    requires s.timers[s.loop.block].flags.canceled
    ensures DueFrom(DoSettle(s), id, due)
  {
    assert IdOk(s, id) && BlockOk(s, s.loop.block);
    if id in s.ledger {
      assert BlockOk(s, s.ledger[id]);
    }
  }

  lemma FreedKeepsDue(s: State, id: Id, due: nat)
    requires Inv(s) && Enabled(s, LoopSettle) && 0 < id <= s.lastId && DueFrom(s, id, due)
    requires !s.timers[s.loop.block].flags.canceled && (s.loop.cancel || s.timers[s.loop.block].flags.oneShot)
    ensures DueFrom(DoSettle(s), id, due)
  {
    assert IdOk(s, id) && BlockOk(s, s.loop.block);
    if id in s.ledger {
      assert BlockOk(s, s.ledger[id]);
    }
  }

  /** A timer that is to fire again is due no earlier than before, since it was due when it was chosen. */
  lemma AgainKeepsDue(s: State, id: Id, due: nat)
    requires Inv(s) && Enabled(s, LoopSettle) && 0 < id <= s.lastId && DueFrom(s, id, due)
    requires !s.timers[s.loop.block].flags.canceled && !s.loop.cancel && !s.timers[s.loop.block].flags.oneShot
    ensures DueFrom(DoSettle(s), id, due)
  {
    assert IdOk(s, id) && BlockOk(s, s.loop.block);
  }

  lemma SettleKeepsDue(s: State, id: Id, due: nat)
    requires Inv(s) && Enabled(s, LoopSettle) && 0 < id <= s.lastId && DueFrom(s, id, due)
    ensures DueFrom(DoSettle(s), id, due)
  {
    var f := s.timers[s.loop.block].flags;
    if f.canceled {
      CanceledKeepsDue(s, id, due);
    } else if s.loop.cancel || f.oneShot {
      FreedKeepsDue(s, id, due);
    } else {
      AgainKeepsDue(s, id, due);
    }
  }

  lemma StepKeepsDue(s: State, step: Step, id: Id, due: nat)
    requires Inv(s) && Enabled(s, step) && 0 < id <= s.lastId && DueFrom(s, id, due)
    ensures DueFrom(Do(s, step), id, due)
  {
    match step
    case AddInsert(_) => InsertKeepsDue(s, step, id, due);
    case AddInsertFails(_) => InsertKeepsDue(s, step, id, due);
    case RemoveCancel(t) => CancelKeepsDue(s, t, id, due);
    case RemoveFree(t) => FreeKeepsDue(s, t, id, due);
    case LoopPick => PickKeepsDue(s, id, due);
    case LoopSettle => SettleKeepsDue(s, id, due);
    case Tick(_) =>
    case LoopSample =>
    case CallbackStart =>
    case CallbackEnd(_) =>
    case _ => CallKeepsDue(s, step, id, due);
  }

  /** Ids and time only go on. */
  lemma TimeGrows(s: State, step: Step)
    requires Inv(s) && Enabled(s, step)
    ensures s.lastId <= Do(s, step).lastId && s.clock <= Do(s, step).clock
  {
    match step
    case AddInsert(t) => InsertFrame(s, t);
    case RemoveCancel(t) => CancelFrame(s, t);
    case RemoveFree(t) => FreeFrame(s, t);
    case LoopPick => PickFrame(s);
    case LoopSettle => SettleFrame(s);
    case _ =>
  }

  lemma {:induction false} RunKeepsDue(states: seq<State>, steps: seq<Step>, i: nat, j: nat, id: Id, due: nat)
    requires Run(states, steps) && i <= j < |states|
    requires 0 < id <= states[i].lastId && DueFrom(states[i], id, due)
    ensures id <= states[j].lastId && DueFrom(states[j], id, due) && states[i].clock <= states[j].clock
    decreases j - i
  {
    if i < j {
      RunKeepsDue(states, steps, i, j - 1, id, due);
      RunKeeps(states, steps, j - 1);
      StepKeepsDue(states[j - 1], steps[j - 1], id, due);
      TimeGrows(states[j - 1], steps[j - 1]);
    }
  }

  lemma DueInCallback(s: State, id: Id, due: nat)
    requires Inv(s) && DueFrom(s, id, due) && InCallback(s, id)
    ensures Millis(s.clock) >= due
  {
    var b :| s.Holds(b) && b in s.timers && s.timers[b].id == id;
    assert BlockOk(s, b);
  }

  /** Due times are rounded down to milliseconds, and so is the time they are compared with. */
  lemma Rounding(clock: nat, clock': nat, timeout: nat)
    requires clock <= clock' && Millis(clock) + timeout <= Millis(clock')
    ensures clock' + UNITS_PER_MS > clock + timeout * UNITS_PER_MS
    ensures clock % UNITS_PER_MS == 0 || timeout == 0 ==> clock' >= clock + timeout * UNITS_PER_MS
  {
  }

  /** A callback is called less than a millisecond before its timeout is over, and no earlier than that if
      AddTimer took the time at a full millisecond. */
  lemma NeverEarly(states: seq<State>, steps: seq<Step>, i: nat, j: nat, t: Thread, b: Block)
    requires Run(states, steps) && i < j < |states| && steps[i] == AddDate(t) && states[i].calls[t].block == b
    requires b in states[i].timers && InCallback(states[j], states[i].timers[b].id)
    ensures var clock, clock', timeout := states[i].clock, states[j].clock, states[i].timers[b].timeout;
            && clock' + UNITS_PER_MS > clock + timeout * UNITS_PER_MS
            && (clock % UNITS_PER_MS == 0 || timeout == 0 ==> clock' >= clock + timeout * UNITS_PER_MS)
  {
    var s, s', id := states[i], states[i + 1], states[i].timers[b].id;
    var due := Millis(s.clock) + s.timers[b].timeout;
    RunKeeps(states, steps, i);
    var _ := AddingFocus(s, t);
    assert s' == DoDate(s, t) && IdOk(s, id);
    RunKeepsDue(states, steps, i + 1, j, id, due);
    RunKeeps(states, steps, j);
    DueInCallback(states[j], id, due);
    Rounding(s.clock, states[j].clock, s.timers[b].timeout);
  }

  /** In this run AddTimer takes the time in step i, and in state j the callback is called too early. */
  ghost predicate EarlyIn(states: seq<State>, steps: seq<Step>, i: nat, j: nat, clock: nat, timeout: nat) {
    && Run(states, steps) && i < j < |states| && steps[i].AddDate? && states[i].clock == clock
    && var b := states[i].calls[steps[i].thread].block;
       && b in states[i].timers && states[i].timers[b].timeout == timeout
         && InCallback(states[j], states[i].timers[b].id)
       && states[j].clock < clock + timeout * UNITS_PER_MS
  }

  /** The steps of a thread that adds a timer, and of the timer thread that calls it as soon as it is due. */
  lemma EarlyRun(clock: nat, timeout: nat) returns (states: seq<State>, steps: seq<Step>)
    requires clock % UNITS_PER_MS != 0 && timeout > 0
    ensures EarlyIn(states, steps, 2, 7, clock, timeout)
  {
    states, steps := AddOne(clock, timeout);
    states, steps := Extend(states, steps, Tick(timeout * UNITS_PER_MS - clock % UNITS_PER_MS));
    states, steps := Extend(states, steps, LoopSample);
    states, steps := Extend(states, steps, LoopPick);
    assert states[7].Holds(0);
  }

  /** The callback can come before its timeout is over, by less than a millisecond, exactly if there is a
      timeout and AddTimer does not take the time at a full millisecond. */
  lemma EarlyIff(clock: nat, timeout: nat)
    ensures (exists states: seq<State>, steps: seq<Step>, i: nat,
              j: nat :: EarlyIn(states, steps, i, j, clock, timeout))
            <==> timeout > 0 && clock % UNITS_PER_MS != 0
  {
    if timeout > 0 && clock % UNITS_PER_MS != 0 {
      var states, steps := EarlyRun(clock, timeout);
    }
    forall states: seq<State>, steps: seq<Step>, i: nat, j: nat | EarlyIn(states, steps, i, j, clock, timeout)
      ensures timeout > 0 && clock % UNITS_PER_MS != 0
    {
      NeverEarly(states, steps, i, j, steps[i].thread, states[i].calls[steps[i].thread].block);
    }
  }

  lemma AgainIsLater(s: State, id: Id)
    requires Inv(s) && Enabled(s, LoopSettle) && InCallback(s, id)
    ensures 0 < id <= s.lastId && s.loop.block in s.timers && s.loop.now <= s.clock
    ensures DueFrom(DoSettle(s), id, Millis(s.loop.now) + s.timers[s.loop.block].timeout)
  {
    assert BlockOk(s, s.loop.block) && IdOk(s, id);
  }

  /** Nor is it called again before another timeout is over, with the same rounding, counted from the time at
      which the timer was chosen. */
  lemma NeverTooOften(states: seq<State>, steps: seq<Step>, i: nat, j: nat, id: Id)
    requires Run(states, steps) && i < j < |states| && steps[i] == LoopSettle
    requires InCallback(states[i], id) && InCallback(states[j], id)
    ensures states[i].loop.block in states[i].timers
    ensures var now, clock', timeout := states[i].loop.now, states[j].clock,
            states[i].timers[states[i].loop.block].timeout;
            && clock' + UNITS_PER_MS > now + timeout * UNITS_PER_MS
            && (now % UNITS_PER_MS == 0 || timeout == 0 ==> clock' >= now + timeout * UNITS_PER_MS)
  {
    var s := states[i];
    RunKeeps(states, steps, i);
    AgainIsLater(s, id);
    TimeGrows(s, LoopSettle);
    var timeout := s.timers[s.loop.block].timeout;
    RunKeepsDue(states, steps, i + 1, j, id, Millis(s.loop.now) + timeout);
    RunKeeps(states, steps, j);
    DueInCallback(states[j], id, Millis(s.loop.now) + timeout);
    Rounding(s.loop.now, states[j].clock, timeout);
  }
}
