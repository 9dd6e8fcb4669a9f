/** What RemoveTimer guarantees: exactly when the callback of a timer can still start. */
module TimerRemoval {
  import opened TimerEngine
  import opened TimerProofs
  import opened TimerDelays

  /** The timer with this id has been taken from the lists, or released. */
  ghost predicate Off(s: State, id: Id) {
    && 0 < id <= s.lastId
    && (id in s.ledger ==>
        s.ledger[id] in s.roles
        && (s.roles[s.ledger[id]].Removing? || s.roles[s.ledger[id]].SelfRemoved?))
  }

  /** The callback of this timer is about to start. */
  ghost predicate Chosen(s: State, id: Id) {
    s.loop.Claimed? && s.loop.block in s.timers && s.timers[s.loop.block].id == id
  }

  /** The timer may be chosen: it is being added, or it is queued, unless the callback that runs is already
      removing it, or the timer thread has called it for the last time. */
  ghost predicate CanFire(s: State, id: Id) {
    && id in s.ledger
    && var b := s.ledger[id];
       && b in s.timers && b in s.roles
       && (s.roles[b].Adding? ||
           (s.roles[b].Queued?
            && !(TIMER_THREAD in s.calls && s.calls[TIMER_THREAD] == Took(id))
            && (s.Holds(b) ==> !s.timers[b].flags.oneShot && !(s.loop.Returned? && s.loop.cancel))))
  }

  ghost predicate CanStart(s: State, id: Id) {
    CanFire(s, id) || Chosen(s, id)
  }

  ghost predicate Dead(s: State, id: Id) {
    0 < id <= s.lastId && !CanStart(s, id)
  }

  lemma OffIsDead(s: State, id: Id)
    requires Inv(s) && Off(s, id) && !Chosen(s, id)
    ensures Dead(s, id)
  {
  }

  lemma CallKeepsOff(s: State, step: Step, id: Id)
    requires Inv(s) && Enabled(s, step) && Off(s, id)
    requires step.AddRefused? || step.AddAllocate? || step.AddNumber? || step.AddDate? || step.RemoveTake? ||
    step.RemoveAwait?
    ensures Off(Do(s, step), id)
  {
    assert IdOk(s, id);
  }

  lemma InsertKeepsOff(s: State, step: Step, id: Id)
    requires Inv(s) && Enabled(s, step) && Off(s, id) && (step.AddInsert? || step.AddInsertFails?)
    ensures Off(Do(s, step), id)
  {
    var _ := AddingFocus(s, step.thread);
    assert IdOk(s, id);
  }

  lemma CancelKeepsOff(s: State, t: Thread, id: Id)
    requires Inv(s) && Enabled(s, RemoveCancel(t)) && Off(s, id)
    ensures Off(DoCancel(s, t), id)
  {
    assert IdOk(s, id) && CallOk(s, t);
  }

  lemma FreeKeepsOff(s: State, t: Thread, id: Id)
    requires Inv(s) && Enabled(s, RemoveFree(t)) && Off(s, id)
    ensures Off(DoFree(s, t), id)
  {
    assert IdOk(s, id) && CallOk(s, t) && BlockOk(s, s.calls[t].block);
  }

  lemma SettleKeepsOff(s: State, id: Id)
    requires Inv(s) && Enabled(s, LoopSettle) && Off(s, id)
    ensures Off(DoSettle(s), id)
  {
    assert IdOk(s, id) && BlockOk(s, s.loop.block);
  }

  lemma PickKeepsOff(s: State, id: Id)
    requires Inv(s) && Enabled(s, LoopPick) && Off(s, id)
    ensures Off(DoPick(s), id) && !Chosen(DoPick(s), id)
  {
    PickIsFirst(s);
    assert IdOk(s, id);
    if s.queue != [] {
      assert s.queue[0] in s.queue && BlockOk(s, s.queue[0]);
    }
  }

  /** No step puts a timer back that has been taken from the lists. */
  lemma StepKeepsOff(s: State, step: Step, id: Id)
    requires Inv(s) && Enabled(s, step) && Off(s, id)
    ensures Off(Do(s, step), id)
  {
    match step
    case AddInsert(_) => InsertKeepsOff(s, step, id);
    case AddInsertFails(_) => InsertKeepsOff(s, step, id);
    case RemoveCancel(t) => CancelKeepsOff(s, t, id);
    case RemoveFree(t) => FreeKeepsOff(s, t, id);
    case LoopPick => PickKeepsOff(s, id);
    case LoopSettle => SettleKeepsOff(s, id);
    case Tick(_) =>
    case LoopSample =>
    case CallbackStart =>
    case CallbackEnd(_) =>
    case _ => CallKeepsOff(s, step, id);
  }

  lemma ClaimedStays(s: State, step: Step, id: Id)
    requires Inv(s) && Enabled(s, step) && s.loop.Claimed? && Chosen(Do(s, step), id)
    requires step.AddAllocate? || step.AddNumber? || step.AddDate? || step.AddInsert? || step.AddInsertFails?
    ensures Chosen(s, id)
  {
    assert BlockOk(s, s.loop.block);
    if !step.AddAllocate? {
      var _ := AddingFocus(s, step.thread);
    }
  }

  lemma ClaimedKept(s: State, step: Step, id: Id)
    requires Inv(s) && Enabled(s, step) && s.loop.Claimed? && Chosen(Do(s, step), id)
    requires step.RemoveCancel? || step.RemoveFree?
    ensures Chosen(s, id)
  {
    assert BlockOk(s, s.loop.block) && CallOk(s, step.thread);
  }

  /** Only the choice of the timer thread makes a callback about to start. */
  lemma ChosenByPick(s: State, step: Step, id: Id)
    requires Inv(s) && Enabled(s, step) && step != LoopPick && Chosen(Do(s, step), id)
    ensures Chosen(s, id)
  {
    match step
    case AddAllocate(_, _, _, _, _, _) => ClaimedStays(s, step, id);
    case AddNumber(_) => ClaimedStays(s, step, id);
    case AddDate(_) => ClaimedStays(s, step, id);
    case AddInsert(_) => ClaimedStays(s, step, id);
    case AddInsertFails(_) => ClaimedStays(s, step, id);
    case RemoveCancel(_) => ClaimedKept(s, step, id);
    case RemoveFree(_) => ClaimedKept(s, step, id);
    case LoopSettle => SettleFrame(s);
    case _ =>
  }

  lemma CallKeepsDead(s: State, step: Step, id: Id)
    requires Inv(s) && Enabled(s, step) && 0 < id <= s.lastId && !CanFire(s, id)
    requires step.AddRefused? || step.AddAllocate? || step.AddNumber? || step.AddDate? || step.RemoveTake? ||
    step.RemoveAwait?
    ensures !CanFire(Do(s, step), id)
  {
    assert IdOk(s, id);
    if id in s.ledger {
      assert BlockOk(s, s.ledger[id]);
    }
  }

  lemma InsertKeepsDead(s: State, t: Thread, id: Id)
    requires Inv(s) && Enabled(s, AddInsert(t)) && 0 < id <= s.lastId && !CanFire(s, id)
    ensures !CanFire(DoInsert(s, t), id)
  {
    var _ := AddingFocus(s, t);
    assert IdOk(s, id);
  }

  lemma InsertFailsKeepsDead(s: State, t: Thread, id: Id)
    requires Inv(s) && Enabled(s, AddInsertFails(t)) && 0 < id <= s.lastId && !CanFire(s, id)
    ensures !CanFire(DoInsertFails(s, t), id)
  {
    var _ := AddingFocus(s, t);
    assert IdOk(s, id);
  }

  lemma FoundKeepsDead(s: State, t: Thread, b: Block, id: Id)
    requires Inv(s) && Enabled(s, RemoveCancel(t)) && Finds(s, s.calls[t].taken, b) && 0 < id <= s.lastId
             && !CanFire(s, id)
    ensures !CanFire(DoCancelFound(s, t, b), id)
  {
    assert IdOk(s, id) && CallOk(s, t) && BlockOk(s, b);
  }

  lemma MissedKeepsDead(s: State, t: Thread, id: Id)
    requires Inv(s) && Enabled(s, RemoveCancel(t)) && 0 < id <= s.lastId && !CanFire(s, id)
    requires forall b :: !Finds(s, s.calls[t].taken, b)
    ensures !CanFire(Leave(s, t, s.calls[t].taken).(tokens := s.tokens - {s.calls[t].taken}), id)
  {
    if s.calls[t].taken in s.ledger {
      LedgerFound(s, t);
    }
  }

  lemma CancelKeepsDead(s: State, t: Thread, id: Id)
    requires Inv(s) && Enabled(s, RemoveCancel(t)) && 0 < id <= s.lastId && !CanFire(s, id)
    ensures !CanFire(DoCancel(s, t), id)
  {
    if b :| Finds(s, s.calls[t].taken, b) && DoCancel(s, t) == DoCancelFound(s, t, b) {
      FoundKeepsDead(s, t, b, id);
    } else {
      MissedKeepsDead(s, t, id);
    }
  }

  lemma FreeKeepsDead(s: State, t: Thread, id: Id)
    requires Inv(s) && Enabled(s, RemoveFree(t)) && 0 < id <= s.lastId && !CanFire(s, id)
    ensures !CanFire(DoFree(s, t), id)
  {
    assert IdOk(s, id) && CallOk(s, t) && BlockOk(s, s.calls[t].block);
  }

  lemma PickKeepsDead(s: State, id: Id)
    requires Inv(s) && Enabled(s, LoopPick) && 0 < id <= s.lastId && !CanFire(s, id)
    ensures !CanFire(DoPick(s), id) && !Chosen(DoPick(s), id)
  {
    PickIsFirst(s);
    assert IdOk(s, id);
    if s.queue != [] {
      assert s.queue[0] in s.queue && BlockOk(s, s.queue[0]);
    }
  }

  lemma SettleKeepsDead(s: State, id: Id)
    requires Inv(s) && Enabled(s, LoopSettle) && 0 < id <= s.lastId && !CanFire(s, id)
    ensures !CanFire(DoSettle(s), id)
  {
    assert IdOk(s, id) && BlockOk(s, s.loop.block);
  }

  /** A timer that cannot start any more stays so. */
  lemma StepKeepsDead(s: State, step: Step, id: Id)
    requires Inv(s) && Enabled(s, step) && Dead(s, id)
    ensures Dead(Do(s, step), id)
  {
    TimeGrows(s, step);
    if step != LoopPick && Chosen(Do(s, step), id) {
      ChosenByPick(s, step, id);
    }
    match step
    case AddInsert(t) => InsertKeepsDead(s, t, id);
    case AddInsertFails(t) => InsertFailsKeepsDead(s, t, id);
    case RemoveCancel(t) => CancelKeepsDead(s, t, id);
    case RemoveFree(t) => FreeKeepsDead(s, t, id);
    case LoopPick => PickKeepsDead(s, id);
    case LoopSettle => SettleKeepsDead(s, id);
    case Tick(_) =>
    case LoopSample =>
    case CallbackStart => StartKeepsDead(s, id);
    case CallbackEnd(cancel) => EndKeepsDead(s, cancel, id);
    case _ => CallKeepsDead(s, step, id);
  }

  lemma StartKeepsDead(s: State, id: Id)
    requires Inv(s) && Enabled(s, CallbackStart) && Dead(s, id)
    ensures !CanFire(Do(s, CallbackStart), id)
  {
    assert IdOk(s, id) && BlockOk(s, s.loop.block);
  }

  lemma EndKeepsDead(s: State, cancel: bool, id: Id)
    requires Inv(s) && Enabled(s, CallbackEnd(cancel)) && Dead(s, id)
    ensures !CanFire(Do(s, CallbackEnd(cancel)), id)
  {
    assert IdOk(s, id) && BlockOk(s, s.loop.block);
  }
}
