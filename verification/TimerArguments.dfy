/** What AddTimer of Source/TimedEvent.cpp is given is what its timer does: which callback is called, how often,
    and when. */
module TimerArguments {
  import opened Sequences
  import opened TimerEngine
  import opened TimerProofs
  import opened TimerSafety
  import opened TimerDelays
  import opened TimerRemoval

  /** The arguments of AddTimer. */
  datatype Request = Request(timeout: nat, oneShot: bool, callback: Callback)

  predicate Carries(timer: Timer, r: Request) {
    timer.timeout == r.timeout && timer.flags.oneShot == r.oneShot && timer.callback == r.callback
  }

  /** The thread t is adding a timer with these arguments, and has not taken the time yet. */
  predicate AddingWith(s: State, t: Thread, r: Request) {
    && t in s.calls && (s.calls[t].Allocated? || s.calls[t].Numbered?)
    && s.calls[t].block in s.timers && Carries(s.timers[s.calls[t].block], r)
  }

  /** The timer with this id, while it is in use, has these arguments. */
  predicate Keeps(s: State, id: Id, r: Request) {
    id in s.ledger ==> s.ledger[id] in s.timers && Carries(s.timers[s.ledger[id]], r)
  }

  lemma AllocateAdds(s: State, step: Step)
    requires Inv(s) && Enabled(s, step) && step.AddAllocate?
    ensures AddingWith(Do(s, step), step.thread, Request(step.timeout, step.oneShot, step.callback))
  {
  }

  lemma CallKeepsAdding(s: State, step: Step, t: Thread, r: Request)
    requires Inv(s) && Enabled(s, step) && AddingWith(s, t, r) && step != AddDate(t)
    requires step.AddRefused? || step.AddAllocate? || step.AddNumber? || step.AddDate? || step.RemoveTake?
             || step.RemoveAwait?
    ensures AddingWith(Do(s, step), t, r)
  {
    var b := AddingFocus(s, t);
    if step.thread in s.calls {
      assert CallOk(s, step.thread);
    }
  }

  lemma InsertKeepsAdding(s: State, step: Step, t: Thread, r: Request)
    requires Inv(s) && Enabled(s, step) && AddingWith(s, t, r) && (step.AddInsert? || step.AddInsertFails?)
    ensures AddingWith(Do(s, step), t, r)
  {
    var b := AddingFocus(s, t);
    var c := AddingFocus(s, step.thread);
  }

  lemma CancelKeepsAdding(s: State, u: Thread, t: Thread, r: Request)
    requires Inv(s) && Enabled(s, RemoveCancel(u)) && AddingWith(s, t, r)
    ensures AddingWith(DoCancel(s, u), t, r)
  {
    var b := AddingFocus(s, t);
  }

  lemma FreeKeepsAdding(s: State, u: Thread, t: Thread, r: Request)
    requires Inv(s) && Enabled(s, RemoveFree(u)) && AddingWith(s, t, r)
    ensures AddingWith(DoFree(s, u), t, r)
  {
    var b := AddingFocus(s, t);
    assert CallOk(s, u);
  }

  lemma PickKeepsAdding(s: State, t: Thread, r: Request)
    requires Inv(s) && Enabled(s, LoopPick) && AddingWith(s, t, r)
    ensures AddingWith(DoPick(s), t, r)
  {
    var b := AddingFocus(s, t);
    PickIsFirst(s);
    assert s.queue != [] ==> s.queue[0] in s.queue;
  }

  lemma SettleKeepsAdding(s: State, t: Thread, r: Request)
    requires Inv(s) && Enabled(s, LoopSettle) && AddingWith(s, t, r)
    ensures AddingWith(DoSettle(s), t, r)
  {
    var b := AddingFocus(s, t);
    assert !s.Holds(b) && b != s.loop.block;
  }

  lemma StepKeepsAdding(s: State, step: Step, t: Thread, r: Request)
    requires Inv(s) && Enabled(s, step) && AddingWith(s, t, r) && step != AddDate(t)
    ensures AddingWith(Do(s, step), t, r)
  {
    match step
    case AddInsert(_) => InsertKeepsAdding(s, step, t, r);
    case AddInsertFails(_) => InsertKeepsAdding(s, step, t, r);
    case RemoveCancel(u) => CancelKeepsAdding(s, u, t, r);
    case RemoveFree(u) => FreeKeepsAdding(s, u, t, r);
    case LoopPick => PickKeepsAdding(s, t, r);
    case LoopSettle => SettleKeepsAdding(s, t, r);
    case Tick(_) =>
    case LoopSample =>
    case CallbackStart =>
    case CallbackEnd(_) =>
    case _ => CallKeepsAdding(s, step, t, r);
  }

  lemma CallKeepsRequest(s: State, step: Step, id: Id, r: Request)
    requires Inv(s) && Enabled(s, step) && 0 < id <= s.lastId && Keeps(s, id, r)
    requires step.AddRefused? || step.AddAllocate? || step.AddNumber? || step.AddDate? || step.RemoveTake?
             || step.RemoveAwait?
    ensures Keeps(Do(s, step), id, r)
  {
    assert IdOk(s, id);
    if id in s.ledger {
      assert BlockOk(s, s.ledger[id]);
    }
  }

  lemma InsertKeepsRequest(s: State, step: Step, id: Id, r: Request)
    requires Inv(s) && Enabled(s, step) && 0 < id <= s.lastId && Keeps(s, id, r)
    requires step.AddInsert? || step.AddInsertFails?
    ensures Keeps(Do(s, step), id, r)
  {
    var b := AddingFocus(s, step.thread);
    assert IdOk(s, id);
  }

  lemma CancelKeepsRequest(s: State, t: Thread, id: Id, r: Request)
    requires Inv(s) && Enabled(s, RemoveCancel(t)) && 0 < id <= s.lastId && Keeps(s, id, r)
    ensures Keeps(DoCancel(s, t), id, r)
  {
    assert IdOk(s, id) && CallOk(s, t);
  }

  lemma FreeKeepsRequest(s: State, t: Thread, id: Id, r: Request)
    requires Inv(s) && Enabled(s, RemoveFree(t)) && 0 < id <= s.lastId && Keeps(s, id, r)
    ensures Keeps(DoFree(s, t), id, r)
  {
    assert IdOk(s, id) && CallOk(s, t) && BlockOk(s, s.calls[t].block);
  }

  lemma PickKeepsRequest(s: State, id: Id, r: Request)
    requires Inv(s) && Enabled(s, LoopPick) && 0 < id <= s.lastId && Keeps(s, id, r)
    ensures Keeps(DoPick(s), id, r)
  {
    PickIsFirst(s);
  }

  lemma EndKeepsRequest(s: State, id: Id, r: Request)
    requires Inv(s) && Enabled(s, LoopSettle) && 0 < id <= s.lastId && Keeps(s, id, r)
    requires s.timers[s.loop.block].flags.canceled || s.loop.cancel || s.timers[s.loop.block].flags.oneShot
    ensures Keeps(DoSettle(s), id, r)
  {
    assert IdOk(s, id) && BlockOk(s, s.loop.block);
  }

  lemma AgainKeepsRequest(s: State, id: Id, r: Request)
    requires Inv(s) && Enabled(s, LoopSettle) && 0 < id <= s.lastId && Keeps(s, id, r)
    requires !s.timers[s.loop.block].flags.canceled && !s.loop.cancel && !s.timers[s.loop.block].flags.oneShot
    ensures Keeps(DoSettle(s), id, r)
  {
    assert IdOk(s, id) && BlockOk(s, s.loop.block);
  }

  lemma SettleKeepsRequest(s: State, id: Id, r: Request)
    requires Inv(s) && Enabled(s, LoopSettle) && 0 < id <= s.lastId && Keeps(s, id, r)
    ensures Keeps(DoSettle(s), id, r)
  {
    var f := s.timers[s.loop.block].flags;
    if f.canceled || s.loop.cancel || f.oneShot {
      EndKeepsRequest(s, id, r);
    } else {
      AgainKeepsRequest(s, id, r);
    }
  }

  lemma StepKeepsRequest(s: State, step: Step, id: Id, r: Request)
    requires Inv(s) && Enabled(s, step) && 0 < id <= s.lastId && Keeps(s, id, r)
    ensures Keeps(Do(s, step), id, r)
  {
    match step
    case AddInsert(_) => InsertKeepsRequest(s, step, id, r);
    case AddInsertFails(_) => InsertKeepsRequest(s, step, id, r);
    case RemoveCancel(t) => CancelKeepsRequest(s, t, id, r);
    case RemoveFree(t) => FreeKeepsRequest(s, t, id, r);
    case LoopPick => PickKeepsRequest(s, id, r);
    case LoopSettle => SettleKeepsRequest(s, id, r);
    case Tick(_) =>
    case LoopSample =>
    case CallbackStart =>
    case CallbackEnd(_) =>
    case _ => CallKeepsRequest(s, step, id, r);
  }

  /** In step i the thread t begins to add a timer with these arguments, and in step k it takes the time; the timer
      has got this id by then. */
  ghost predicate Adds(states: seq<State>, steps: seq<Step>, i: nat, k: nat, t: Thread, id: Id, r: Request) {
    && Run(states, steps) && i < k < |steps| && steps[i].AddAllocate? && steps[i].thread == t
    && r == Request(steps[i].timeout, steps[i].oneShot, steps[i].callback)
    && steps[k] == AddDate(t) && (forall m :: i < m < k ==> steps[m] != AddDate(t))
    && t in states[k].calls && states[k].calls[t].Numbered? && IdOf(states[k].timers, states[k].calls[t].block) == id
  }

  lemma {:induction false} RunKeepsAdding(states: seq<State>, steps: seq<Step>, i: nat, k: nat, t: Thread, r: Request)
    requires Run(states, steps) && i <= k < |states| && AddingWith(states[i], t, r)
    requires forall m :: i <= m < k ==> steps[m] != AddDate(t)
    ensures AddingWith(states[k], t, r)
    decreases k - i
  {
    if i < k {
      RunKeepsAdding(states, steps, i, k - 1, t, r);
      RunKeeps(states, steps, k - 1);
      StepKeepsAdding(states[k - 1], steps[k - 1], t, r);
    }
  }

  lemma {:induction false} RunKeepsRequest(states: seq<State>, steps: seq<Step>, k: nat, j: nat, id: Id, r: Request)
    requires Run(states, steps) && k <= j < |states| && 0 < id <= states[k].lastId && Keeps(states[k], id, r)
    ensures id <= states[j].lastId && Keeps(states[j], id, r)
    decreases j - k
  {
    if k < j {
      RunKeepsRequest(states, steps, k, j - 1, id, r);
      RunKeeps(states, steps, j - 1);
      StepKeepsRequest(states[j - 1], steps[j - 1], id, r);
      TimeGrows(states[j - 1], steps[j - 1]);
    }
  }

  /** While the timer is in use it has the arguments that AddTimer was given. */
  lemma StaysAsAsked(states: seq<State>, steps: seq<Step>, i: nat, k: nat, t: Thread, id: Id, r: Request, j: nat)
    requires Adds(states, steps, i, k, t, id, r) && k <= j < |states|
    ensures 0 < id <= states[k].lastId && id in states[k].ledger
    ensures states[k].ledger[id] == states[k].calls[t].block && states[k].ledger[id] in states[k].timers
    ensures id <= states[j].lastId && Keeps(states[j], id, r)
  {
    RunKeeps(states, steps, i);
    AllocateAdds(states[i], steps[i]);
    RunKeepsAdding(states, steps, i + 1, k, t, r);
    RunKeeps(states, steps, k);
    var b := AddingFocus(states[k], t);
    RunKeepsRequest(states, steps, k, j, id, r);
  }

  /** The callback that is called is the one that AddTimer was given; so are its timeout, and whether it is called
      once or again and again. */
  lemma CallsAsAsked(states: seq<State>, steps: seq<Step>, i: nat, k: nat, t: Thread, id: Id, r: Request, j: nat,
                     b: Block)
    requires Adds(states, steps, i, k, t, id, r) && k < j < |states|
    requires states[j].Holds(b) && b in states[j].timers && states[j].timers[b].id == id
    ensures states[j].timers[b].callback == r.callback && states[j].timers[b].timeout == r.timeout
    ensures states[j].timers[b].flags.oneShot == r.oneShot
  {
    StaysAsAsked(states, steps, i, k, t, id, r, j);
    RunKeeps(states, steps, j);
    assert BlockOk(states[j], b);
  }

  /** The callback is not called before the timeout that AddTimer was given is over, but for the rounding of times. */
  lemma NeverEarlyAsAsked(states: seq<State>, steps: seq<Step>, i: nat, k: nat, t: Thread, id: Id, r: Request, j: nat)
    requires Adds(states, steps, i, k, t, id, r) && k < j < |states| && InCallback(states[j], id)
    ensures states[j].clock + 10000 > states[k].clock + r.timeout * 10000
    ensures states[k].clock % 10000 == 0 || r.timeout == 0 ==> states[j].clock >= states[k].clock + r.timeout * 10000
  {
    StaysAsAsked(states, steps, i, k, t, id, r, k);
    NeverEarly(states, steps, k, j, t, states[k].calls[t].block);
  }

  lemma SettleEnds(s: State, id: Id)
    requires Inv(s) && Enabled(s, LoopSettle) && InCallback(s, id)
    requires s.timers[s.loop.block].flags.canceled || s.loop.cancel || s.timers[s.loop.block].flags.oneShot
    ensures id !in DoSettle(s).ledger || DoSettle(s).ledger[id] !in DoSettle(s).queue
    ensures s.loop.block in s.queue ==> DoSettle(s).freed[id] == s.freed[id] + 1
  {
    var b := s.loop.block;
    assert BlockOk(s, b) && IdOk(s, id);
    WithoutIs(s.queue, b);
  }

  lemma SettleQueues(s: State, id: Id)
    requires Inv(s) && Enabled(s, LoopSettle) && InCallback(s, id)
    requires !s.timers[s.loop.block].flags.canceled && !s.loop.cancel && !s.timers[s.loop.block].flags.oneShot
    ensures var s', b := DoSettle(s), s.loop.block;
            && b in s.queue && id in s'.ledger && s'.ledger[id] == b && b in s'.queue && b in s'.timers
            && s'.timers[b].due == Millis(s.loop.now) + s.timers[b].timeout
  {
    var b := s.loop.block;
    assert BlockOk(s, b) && IdOk(s, id);
    var s' := DoSettle(s);
    assert s'.queue == InsertAt(Without(s.queue, b), AgainAt(s), b);
    assert s'.queue[AgainAt(s)] == b;
  }

  /** What becomes of a timer when its callback has returned: it is queued again exactly if nobody has removed it, the
      callback has not cancelled it, and it was not added to be called once; then it is due one timeout after the
      time at which it was chosen. If the callback has cancelled it, or it was to be called once, it is released. */
  lemma AgainIff(states: seq<State>, steps: seq<Step>, i: nat, k: nat, t: Thread, id: Id, r: Request, m: nat)
    requires Adds(states, steps, i, k, t, id, r) && k < m < |steps|
    requires steps[m] == LoopSettle && InCallback(states[m], id)
    ensures var s, s' := states[m], states[m + 1];
            && (id in s'.ledger && s'.ledger[id] in s'.queue
                <==> s.loop.block in s.queue && !s.loop.cancel && !r.oneShot)
            && (id in s'.ledger && s'.ledger[id] in s'.queue ==>
                  s'.ledger[id] in s'.timers && s'.timers[s'.ledger[id]].due == Millis(s.loop.now) + r.timeout)
            && (s.loop.block in s.queue && (s.loop.cancel || r.oneShot) ==> s'.freed[id] == 1)
  {
    var s := states[m];
    RunKeeps(states, steps, m);
    CallsAsAsked(states, steps, i, k, t, id, r, m, s.loop.block);
    assert BlockOk(s, s.loop.block) && IdOk(s, id);
    var timer := s.timers[s.loop.block];
    if timer.flags.canceled || s.loop.cancel || timer.flags.oneShot {
      SettleEnds(s, id);
    } else {
      SettleQueues(s, id);
    }
  }

  ghost predicate Spent(s: State, id: Id) {
    0 < id <= s.lastId && !CanFire(s, id)
  }

  /** A timer that cannot be chosen any more is not chosen. */
  lemma StepKeepsSpent(s: State, step: Step, id: Id)
    requires Inv(s) && Enabled(s, step) && Spent(s, id)
    ensures Spent(Do(s, step), id)
    ensures step == LoopPick ==> !Chosen(Do(s, step), id)
  {
    TimeGrows(s, step);
    match step
    case AddInsert(t) => InsertKeepsDead(s, t, id);
    case AddInsertFails(t) => InsertFailsKeepsDead(s, t, id);
    case RemoveCancel(t) => CancelKeepsDead(s, t, id);
    case RemoveFree(t) => FreeKeepsDead(s, t, id);
    case LoopPick => PickKeepsDead(s, id);
    case LoopSettle => SettleKeepsDead(s, id);
    case Tick(_) =>
    case LoopSample =>
    case CallbackStart =>
    case CallbackEnd(_) =>
    case _ => CallKeepsDead(s, step, id);
  }

  lemma {:induction false} StaysSpent(states: seq<State>, steps: seq<Step>, m: nat, n: nat, id: Id)
    requires Run(states, steps) && m <= n < |states| && Spent(states[m], id)
    ensures Spent(states[n], id)
    decreases n - m
  {
    if m < n {
      StaysSpent(states, steps, m, n - 1, id);
      RunKeeps(states, steps, n - 1);
      StepKeepsSpent(states[n - 1], steps[n - 1], id);
    }
  }

  /** A timer that was added to be called once is chosen at most once. */
  lemma OnceAsAsked(states: seq<State>, steps: seq<Step>, i: nat, k: nat, t: Thread, id: Id, r: Request, m: nat, n: nat)
    requires Adds(states, steps, i, k, t, id, r) && r.oneShot && k < m < n < |steps|
    requires steps[m] == LoopPick && Chosen(states[m + 1], id) && steps[n] == LoopPick
    ensures !Chosen(states[n + 1], id)
  {
    RunKeeps(states, steps, m + 1);
    CallsAsAsked(states, steps, i, k, t, id, r, m + 1, states[m + 1].loop.block);
    StaysAsAsked(states, steps, i, k, t, id, r, m + 1);
    var s := states[m + 1];
    assert BlockOk(s, s.loop.block) && IdOk(s, id);
    StaysSpent(states, steps, m + 1, n, id);
    RunKeeps(states, steps, n);
    StepKeepsSpent(states[n], steps[n], id);
  }

  /** The timer with this id, if it is in use, is due at this time. */
  ghost predicate DueAt(s: State, id: Id, due: nat) {
    id in s.ledger ==>
      var b := s.ledger[id];
      && b in s.timers && b in s.roles && s.timers[b].due == due
      && (s.roles[b].Adding? ==> s.roles[b].adder in s.calls && s.calls[s.roles[b].adder].Dated?)
  }

  lemma CallKeepsTime(s: State, step: Step, id: Id, due: nat)
    requires Inv(s) && Enabled(s, step) && 0 < id <= s.lastId && DueAt(s, id, due)
    requires step.AddRefused? || step.AddAllocate? || step.AddNumber? || step.AddDate? || step.RemoveTake?
             || step.RemoveAwait?
    ensures DueAt(Do(s, step), id, due)
  {
    var t := step.thread;
    assert IdOk(s, id);
    if id in s.ledger {
      assert BlockOk(s, s.ledger[id]);
    }
    if t in s.calls {
      assert CallOk(s, t);
    }
  }

  lemma InsertKeepsTime(s: State, step: Step, id: Id, due: nat)
    requires Inv(s) && Enabled(s, step) && 0 < id <= s.lastId && DueAt(s, id, due)
    requires step.AddInsert? || step.AddInsertFails?
    ensures DueAt(Do(s, step), id, due)
  {
    var b := AddingFocus(s, step.thread);
    assert IdOk(s, id);
    if id in s.ledger {
      assert BlockOk(s, s.ledger[id]);
    }
  }

  lemma CancelKeepsTime(s: State, t: Thread, id: Id, due: nat)
    requires Inv(s) && Enabled(s, RemoveCancel(t)) && 0 < id <= s.lastId && DueAt(s, id, due)
    ensures DueAt(DoCancel(s, t), id, due)
  {
    assert IdOk(s, id) && CallOk(s, t);
    if id in s.ledger {
      assert BlockOk(s, s.ledger[id]);
    }
  }

  lemma FreeKeepsTime(s: State, t: Thread, id: Id, due: nat)
    requires Inv(s) && Enabled(s, RemoveFree(t)) && 0 < id <= s.lastId && DueAt(s, id, due)
    ensures DueAt(DoFree(s, t), id, due)
  {
    assert IdOk(s, id) && CallOk(s, t);
    if id in s.ledger {
      assert BlockOk(s, s.ledger[id]);
    }
  }

  lemma CanceledKeepsTime(s: State, id: Id, due: nat)
    requires Inv(s) && Enabled(s, LoopSettle) && 0 < id <= s.lastId && DueAt(s, id, due) && !InCallback(s, id)
    requires s.timers[s.loop.block].flags.canceled
    ensures DueAt(DoSettle(s), id, due)
  {
    assert IdOk(s, id) && BlockOk(s, s.loop.block) && s.Holds(s.loop.block);
    if id in s.ledger {
      assert BlockOk(s, s.ledger[id]) && s.ledger[id] != s.loop.block;
    }
  }

  lemma FreedKeepsTime(s: State, id: Id, due: nat)
    requires Inv(s) && Enabled(s, LoopSettle) && 0 < id <= s.lastId && DueAt(s, id, due) && !InCallback(s, id)
    requires !s.timers[s.loop.block].flags.canceled && (s.loop.cancel || s.timers[s.loop.block].flags.oneShot)
    ensures DueAt(DoSettle(s), id, due)
  {
    assert IdOk(s, id) && BlockOk(s, s.loop.block) && s.Holds(s.loop.block);
    if id in s.ledger {
      assert BlockOk(s, s.ledger[id]) && s.ledger[id] != s.loop.block;
    }
  }

  lemma AgainKeepsTime(s: State, id: Id, due: nat)
    requires Inv(s) && Enabled(s, LoopSettle) && 0 < id <= s.lastId && DueAt(s, id, due) && !InCallback(s, id)
    requires !s.timers[s.loop.block].flags.canceled && !s.loop.cancel && !s.timers[s.loop.block].flags.oneShot
    ensures DueAt(DoSettle(s), id, due)
  {
    assert IdOk(s, id) && BlockOk(s, s.loop.block) && s.Holds(s.loop.block);
    if id in s.ledger {
      assert BlockOk(s, s.ledger[id]) && s.ledger[id] != s.loop.block;
    }
  }

  /** What happens to another timer than this one. */
  lemma SettleKeepsTime(s: State, id: Id, due: nat)
    requires Inv(s) && Enabled(s, LoopSettle) && 0 < id <= s.lastId && DueAt(s, id, due) && !InCallback(s, id)
    ensures DueAt(DoSettle(s), id, due)
  {
    var f := s.timers[s.loop.block].flags;
    if f.canceled {
      CanceledKeepsTime(s, id, due);
    } else if s.loop.cancel || f.oneShot {
      FreedKeepsTime(s, id, due);
    } else {
      AgainKeepsTime(s, id, due);
    }
  }

  lemma StepKeepsTime(s: State, step: Step, id: Id, due: nat)
    requires Inv(s) && Enabled(s, step) && 0 < id <= s.lastId && DueAt(s, id, due)
    requires step == LoopSettle ==> !InCallback(s, id)
    ensures DueAt(Do(s, step), id, due)
  {
    match step
    case AddInsert(_) => InsertKeepsTime(s, step, id, due);
    case AddInsertFails(_) => InsertKeepsTime(s, step, id, due);
    case RemoveCancel(t) => CancelKeepsTime(s, t, id, due);
    case RemoveFree(t) => FreeKeepsTime(s, t, id, due);
    case LoopPick => PickIsFirst(s);
    case LoopSettle => SettleKeepsTime(s, id, due);
    case Tick(_) =>
    case LoopSample =>
    case CallbackStart =>
    case CallbackEnd(_) =>
    case _ => CallKeepsTime(s, step, id, due);
  }

  /** From step k to step j no callback of this timer returns. */
  ghost predicate Undisturbed(states: seq<State>, steps: seq<Step>, k: nat, j: nat, id: Id)
    requires k <= j <= |steps| < |states|
  {
    forall m :: k <= m < j && steps[m] == LoopSettle ==> !InCallback(states[m], id)
  }

  lemma {:induction false} RunKeepsTime(states: seq<State>, steps: seq<Step>, k: nat, j: nat, id: Id, due: nat)
    requires Run(states, steps) && k <= j < |states| && 0 < id <= states[k].lastId && DueAt(states[k], id, due)
    requires Undisturbed(states, steps, k, j, id)
    ensures id <= states[j].lastId && DueAt(states[j], id, due)
    decreases j - k
  {
    if k < j {
      RunKeepsTime(states, steps, k, j - 1, id, due);
      RunKeeps(states, steps, j - 1);
      StepKeepsTime(states[j - 1], steps[j - 1], id, due);
      TimeGrows(states[j - 1], steps[j - 1]);
    }
  }

  /** Until its callback has returned for the first time, the timer is due at the time that AddTimer has taken and the
      timeout that it was given, counted in full milliseconds: neither earlier nor later. */
  lemma DueAsAsked(states: seq<State>, steps: seq<Step>, i: nat, k: nat, t: Thread, id: Id, r: Request, j: nat)
    requires Adds(states, steps, i, k, t, id, r) && k < j < |states| && Undisturbed(states, steps, k, j, id)
    ensures DueAt(states[j], id, states[k].clock / 10000 + r.timeout)
  {
    StaysAsAsked(states, steps, i, k, t, id, r, k);
    RunKeeps(states, steps, k);
    var b := AddingFocus(states[k], t);
    assert states[k + 1] == DoDate(states[k], t);
    RunKeepsTime(states, steps, k + 1, j, id, Millis(states[k].clock) + r.timeout);
  }

  /** The timer thread goes on with the time that it has read. */
  lemma NowStays(s: State, step: Step)
    requires Inv(s) && Enabled(s, step) && step != LoopSample && !Do(s, step).loop.Resting?
    ensures !s.loop.Resting? && Do(s, step).loop.now == s.loop.now
  {
    match step
    case RemoveCancel(t) => CancelFrame(s, t);
    case RemoveFree(t) => FreeFrame(s, t);
    case LoopPick => PickIsFirst(s);
    case LoopSettle => SettleFrame(s);
    case _ =>
  }

  /** Where it has read it. */
  lemma {:induction false} SampledAt(states: seq<State>, steps: seq<Step>, j: nat) returns (n: nat)
    requires Run(states, steps) && j < |states| && !states[j].loop.Resting?
    ensures n < j && steps[n] == LoopSample && states[n].clock == states[j].loop.now
    ensures forall m :: n < m < j ==> steps[m] != LoopSample
    decreases j
  {
    n := j - 1;
    if steps[n] != LoopSample {
      RunKeeps(states, steps, n);
      NowStays(states[n], steps[n]);
      n := SampledAt(states, steps, n);
    }
  }

  /** And after each callback, until the next has returned, it is due one timeout after the time that the timer thread
      read before it chose the timer, in step n. */
  lemma DueAgainAsAsked(states: seq<State>, steps: seq<Step>, i: nat, k: nat, t: Thread, id: Id, r: Request, m: nat,
                        j: nat) returns (n: nat)
    requires Adds(states, steps, i, k, t, id, r) && k < m < |steps| && m < j < |states|
    requires steps[m] == LoopSettle && InCallback(states[m], id) && Undisturbed(states, steps, m + 1, j, id)
    ensures n < m && steps[n] == LoopSample && forall l :: n < l < m ==> steps[l] != LoopSample
    ensures var s := states[m + 1];
            id in s.ledger && s.ledger[id] in s.queue ==> DueAt(states[j], id, states[n].clock / 10000 + r.timeout)
  {
    n := SampledAt(states, steps, m);
    AgainIff(states, steps, i, k, t, id, r, m);
    StaysAsAsked(states, steps, i, k, t, id, r, m + 1);
    var s := states[m + 1];
    if id in s.ledger && s.ledger[id] in s.queue {
      RunKeeps(states, steps, m + 1);
      RunKeepsTime(states, steps, m + 1, j, id, Millis(states[m].loop.now) + r.timeout);
    }
  }

  /** The variable in which the step leaves the id when AddTimer returns. */
  function Target(s: State, step: Step): Variable
    requires Enabled(s, step) && (step.AddRefused? || step.AddInsert? || step.AddInsertFails?)
  {
    if step.AddRefused? then step.target else s.calls[step.thread].target
  }

  /** When AddTimer returns the variable holds the id of the timer that it has queued, or 0 if it has failed. */
  lemma AddReturns(states: seq<State>, steps: seq<Step>, i: nat)
    requires Run(states, steps) && i < |steps|
    requires steps[i].AddRefused? || steps[i].AddInsert? || steps[i].AddInsertFails?
    ensures var s', v := states[i + 1], Target(states[i], steps[i]);
            && v in s'.variables && steps[i].thread !in s'.calls
            && (s'.variables[v] != 0 <==> steps[i].AddInsert?)
            && (s'.variables[v] != 0 ==>
                  && s'.variables[v] in s'.ledger && s'.ledger[s'.variables[v]] in s'.queue
                  && s'.ledger[s'.variables[v]] == states[i].calls[steps[i].thread].block)
  {
    RunKeeps(states, steps, i);
    RunKeeps(states, steps, i + 1);
    if !steps[i].AddRefused? {
      var b := AddingFocus(states[i], steps[i].thread);
      assert steps[i].AddInsert? ==> states[i + 1].roles[b] == Queued;
    }
  }

  /** A timer that is released goes to the free list if there are fewer than 128 in it, and else it is deleted. */
  lemma FreeTimerPools(s: State, b: Block)
    requires Inv(s) && b in s.timers && b !in s.pool
    ensures var s' := FreeTimer(s, b); (b in s'.pool <==> |s.pool| < 128) && (b in s'.timers <==> b in s'.pool)
  {
    assert |s.pool| < 128 ==> FreeTimer(s, b).pool == [b] + s.pool;
  }

  lemma ReleasePools(states: seq<State>, steps: seq<Step>, i: nat, b: Block)
    requires Run(states, steps) && i < |steps| && (steps[i].RemoveFree? || steps[i] == LoopSettle)
    requires b in states[i].timers && b !in states[i].pool
    requires states[i + 1].freed[states[i].timers[b].id] > states[i].freed[states[i].timers[b].id]
    ensures (b in states[i + 1].pool <==> |states[i].pool| < 128)
    ensures b in states[i + 1].timers <==> b in states[i + 1].pool
  {
    var s, step := states[i], steps[i];
    RunKeeps(states, steps, i);
    assert BlockOk(s, b) && IdOk(s, s.timers[b].id);
    if step.RemoveFree? {
      assert CallOk(s, step.thread) && BlockOk(s, s.calls[step.thread].block);
      assert s.calls[step.thread].block == b;
      FreeTimerPools(s, b);
    } else {
      assert BlockOk(s, s.loop.block);
    }
  }
}
