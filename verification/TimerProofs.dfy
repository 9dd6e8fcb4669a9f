/** Every step of the timer handler keeps its invariant. */
module TimerProofs {
  import opened Sequences
  import opened TimerEngine
  import opened TimerLists

  /** What one step is about: a block, a thread, an id, and a variable. */
  datatype Focus = Focus(block: Block, thread: Thread, id: Id, variable: Variable)

  ghost predicate SameBlock(s: State, s': State, b: Block) {
    && (b in s'.timers <==> b in s.timers) && (b in s.timers ==> s'.timers[b] == s.timers[b])
    && (b in s'.roles <==> b in s.roles) && (b in s.roles ==> s'.roles[b] == s.roles[b])
    && (s'.Holds(b) <==> s.Holds(b))
  }

  ghost predicate SameCall(s: State, s': State, t: Thread) {
    (t in s'.calls <==> t in s.calls) && (t in s.calls ==> s'.calls[t] == s.calls[t])
  }

  ghost predicate SameVariable(s: State, s': State, v: Variable) {
    (v in s'.variables <==> v in s.variables) && (v in s.variables ==> s'.variables[v] == s.variables[v])
  }

  ghost predicate SameId(s: State, s': State, id: Id) {
    && (id in s'.tokens <==> id in s.tokens) && (id in s.tokens ==> s'.tokens[id] == s.tokens[id])
    && (id in s'.ledger <==> id in s.ledger) && (id in s.ledger ==> s'.ledger[id] == s.ledger[id])
    && (id in s'.settled <==> id in s.settled) && s'.freed[id] == s.freed[id]
  }

  /** Nothing but the focus takes part in the step. */
  ghost predicate Fits(s: State, f: Focus) {
    && (f.thread in s.calls ==>
          if s.calls[f.thread].Took? then s.calls[f.thread].taken == f.id else s.calls[f.thread].block == f.block)
    && (f.id in s.ledger ==> s.ledger[f.id] == f.block)
  }

  /** The one variable that may change holds the id of the focus or none. */
  ghost predicate VariablesFit(s: State, s': State, f: Focus) {
    || (s'.variables == s.variables
      && (s'.tokens == s.tokens || (f.id in s.tokens ==> s.tokens[f.id] == InCall(f.thread))))
    || (&& (forall v {:trigger SameVariable(s, s', v)} :: v != f.variable ==> SameVariable(s, s', v))
        && (f.variable in s.variables ==> s.variables[f.variable] in {0, f.id})
        && (f.variable in s'.variables ==> VariableOk(s', f.variable))
        && (f.id in s.tokens ==> s.tokens[f.id] in {InCall(f.thread), InVariable(f.variable)}))
  }

  /** The block, if it changes, has the id of the focus or none, and no other thread is busy with it. */
  ghost predicate BlockFits(s: State, s': State, f: Focus) {
    || SameBlock(s, s', f.block)
    || (f.block in s.roles && f.block in s.timers ==>
          && (s.roles[f.block] != Pooled ==> s.timers[f.block].id in {0, f.id})
          && ((f.block in s'.roles && s'.roles[f.block] == s.roles[f.block])
              || s.roles[f.block] in {Pooled, Queued, Adding(f.thread), Removing(f.thread), SelfRemoved}))
  }

  /** The step from s to s' changes nothing outside the focus. */
  ghost predicate Local(s: State, s': State, f: Focus) {
    && Fits(s, f) && BlockFits(s, s', f) && VariablesFit(s, s', f)
      && (s'.lastId == s.lastId || f.id == s'.lastId == s.lastId + 1)
    && s.lastStamp <= s'.lastStamp
    && (forall b {:trigger SameBlock(s, s', b)} :: b != f.block ==> SameBlock(s, s', b))
    && (forall t {:trigger SameCall(s, s', t)} :: t != f.thread ==> SameCall(s, s', t))
    && (forall id {:trigger SameId(s, s', id)} :: id != f.id ==> SameId(s, s', id))
  }

  /** The focus is in order. */
  ghost predicate Sound(s: State, f: Focus) {
    && (f.block in s.timers <==> f.block in s.roles)
    && (f.block in s.timers ==> BlockOk(s, f.block))
    && (f.thread in s.calls ==> CallOk(s, f.thread))
    && IdOk(s, f.id)
  }

  lemma LocalBlock(s: State, s': State, f: Focus, b: Block)
    requires Inv(s) && Local(s, s', f) && IdOk(s', f.id) && b != f.block && b in s'.timers
    ensures BlockOk(s', b)
  {
    assert SameBlock(s, s', b) && BlockOk(s, b);
    var id := s.timers[b].id;
    if id != f.id {
      assert SameId(s, s', id);
    }
    match s.roles[b]
    case Adding(t) => if t != f.thread { assert SameCall(s, s', t); }
    case Removing(t) => if t != f.thread { assert SameCall(s, s', t); }
    case _ =>
  }

  lemma LocalCall(s: State, s': State, f: Focus, t: Thread)
    requires Inv(s) && Local(s, s', f) && t != f.thread && t in s'.calls
    ensures CallOk(s', t)
  {
    assert SameCall(s, s', t) && CallOk(s, t);
    if s.calls[t].Took? && s'.tokens != s.tokens {
      assert SameId(s, s', s.calls[t].taken);
    } else if !s.calls[t].Took? && (s.calls[t].block != f.block || SameBlock(s, s', f.block)) {
      assert SameBlock(s, s', s.calls[t].block);
    }
  }

  lemma LocalVariable(s: State, s': State, f: Focus, v: Variable)
    requires Inv(s) && Local(s, s', f) && v in s'.variables
    ensures VariableOk(s', v)
  {
    if s'.variables == s.variables || v != f.variable {
      assert s'.variables != s.variables ==> SameVariable(s, s', v);
      assert VariableOk(s, v);
      if s.variables[v] != f.id && s'.tokens != s.tokens {
        assert SameId(s, s', s.variables[v]);
      }
    }
  }

  lemma LocalId(s: State, s': State, f: Focus, id: Id)
    requires Inv(s) && Local(s, s', f) && id != f.id
    ensures IdOk(s', id)
  {
    assert SameId(s, s', id) && IdOk(s, id) && IdOk(s, 0);
    if id in s.tokens {
      match s.tokens[id]
      case InVariable(v) =>
        if s'.variables != s.variables && v != f.variable {
          assert SameVariable(s, s', v);
        }
      case InCall(t) => if t != f.thread { assert SameCall(s, s', t); }
    }
    if id in s.ledger && (s.ledger[id] != f.block || SameBlock(s, s', f.block)) {
      assert SameBlock(s, s', s.ledger[id]);
    }
  }

  /** A step that is local and leaves its focus in order keeps all blocks, calls, variables and ids in order. */
  lemma LocalKeeps(s: State, s': State, f: Focus)
    requires Inv(s) && Local(s, s', f) && Sound(s', f)
    requires Listed(s'.roles, s'.byId, s'.queue, s'.pool)
    requires SortedById(s'.timers, s'.byId) && SortedByDue(s'.timers, s'.queue) && LoopOk(s')
    ensures Inv(s')
  {
    forall b ensures b in s'.timers <==> b in s'.roles {
      if b != f.block {
        assert SameBlock(s, s', b);
      }
    }
    forall b | b in s'.timers ensures BlockOk(s', b) {
      if b != f.block {
        LocalBlock(s, s', f, b);
      }
    }
    forall t | t in s'.calls ensures CallOk(s', t) {
      if t != f.thread {
        LocalCall(s, s', f, t);
      }
    }
    forall v | v in s'.variables ensures VariableOk(s', v) {
      LocalVariable(s, s', f, v);
    }
    forall id ensures IdOk(s', id) {
      if id != f.id {
        LocalId(s, s', f, id);
      }
    }
  }

  /** The state but for the clock and the place of the timer thread is as it was. */
  ghost predicate Quiet(s: State, s': State) {
    && s' == s.(clock := s'.clock, loop := s'.loop) && s.clock <= s'.clock
    && (forall b {:trigger s'.Holds(b)} :: s'.Holds(b) <==> s.Holds(b))
  }

  lemma QuietKeeps(s: State, s': State)
    requires Inv(s) && Quiet(s, s') && LoopOk(s')
    ensures Inv(s')
  {
    forall b | b in s'.timers ensures BlockOk(s', b) {
      assert BlockOk(s, b) && (s'.Holds(b) <==> s.Holds(b));
    }
    forall t | t in s'.calls ensures CallOk(s', t) {
      assert CallOk(s, t);
    }
    forall v | v in s'.variables ensures VariableOk(s', v) {
      assert VariableOk(s, v);
    }
    forall id ensures IdOk(s', id) {
      assert IdOk(s, id);
    }
  }

  lemma InitKeeps(s: State)
    requires Initial(s)
    ensures Inv(s)
  {
  }

  lemma RefusedKeeps(s: State, w: Variable)
    requires Inv(s)
    ensures Inv(Clear(s, w))
  {
    var s' := Clear(s, w);
    assert w in s.variables ==> VariableOk(s, w);
    assert IdOk(s, 0);
    forall b | b in s'.timers ensures BlockOk(s', b) {
      assert BlockOk(s, b);
    }
    forall t | t in s'.calls ensures CallOk(s', t) {
      assert CallOk(s, t);
    }
    forall v | v in s'.variables ensures VariableOk(s', v) {
      if v in s.variables {
        assert VariableOk(s, v);
      }
    }
    forall id ensures IdOk(s', id) {
      assert IdOk(s, id);
    }
  }

  /** What is known when a thread goes on with the block it adds. */
  lemma AddingFocus(s: State, t: Thread) returns (b: Block)
    requires Inv(s) && t in s.calls && !s.calls[t].Took? && !s.calls[t].Stopped?
    ensures b == s.calls[t].block && b in s.roles && b in s.timers && s.roles[b] == Adding(t) && BlockOk(s, b)
    ensures IdOk(s, s.timers[b].id) && b !in s.byId && b !in s.queue
  {
    assert CallOk(s, t);
    b := s.calls[t].block;
    assert BlockOk(s, b) && IdOk(s, s.timers[b].id);
  }

  /** The block that AllocTimer hands out is in no list and nobody holds it. */
  lemma AllocateLocal(s: State, t: Thread, w: Variable, timeout: nat, oneShot: bool, callback: Callback, block: Block)
    returns (f: Focus)
    requires Inv(s) && Enabled(s, AddAllocate(t, w, timeout, oneShot, callback, block))
    ensures f == Focus(if s.pool == [] then block else s.pool[0], t, 0, w)
    ensures Local(s, DoAllocate(s, t, w, timeout, oneShot, callback, block), f) && !s.Holds(f.block)
    ensures f.block in s.roles ==> s.roles[f.block] == Pooled
    ensures f.block in s.timers ==> BlockOk(s, f.block)
  {
    var b := if s.pool == [] then block else s.pool[0];
    f := Focus(b, t, 0, w);
    if s.pool != [] {
      assert b in s.pool && BlockOk(s, b);
    }
    assert IdOk(s, 0);
  }

  lemma AllocateKeeps(s: State, t: Thread, w: Variable, timeout: nat, oneShot: bool, callback: Callback, block: Block)
    requires Inv(s) && Enabled(s, AddAllocate(t, w, timeout, oneShot, callback, block))
    ensures var s' := DoAllocate(s, t, w, timeout, oneShot, callback, block);
            && Inv(s') && t in s'.calls && s'.calls[t].Allocated? && s'.calls[t].block in s'.timers
            && (var timer := s'.timers[s'.calls[t].block];
                timer.timeout == timeout && timer.callback == callback
                && timer.flags == Flags(false, false, oneShot, false))
  {
    var s' := DoAllocate(s, t, w, timeout, oneShot, callback, block);
    var f := AllocateLocal(s, t, w, timeout, oneShot, callback, block);
    assert Sound(s', f) by { assert IdOk(s, 0); }
    assert Listed(s'.roles, s'.byId, s'.queue, s'.pool) by {
      if s.pool != [] {
        PopListed(s.roles, s.byId, s.queue, s.pool, t);
      } else {
        NewListed(s.roles, s.byId, s.queue, s.pool, block, t);
      }
    }
    assert f.block !in s.byId && f.block !in s.queue;
    SameOrder(s.timers, s'.timers, s.byId);
    SameOrder(s.timers, s'.timers, s.queue);
    LocalKeeps(s, s', f);
  }

  lemma NumberKeeps(s: State, t: Thread)
    requires Inv(s) && Enabled(s, AddNumber(t))
    ensures Inv(DoNumber(s, t))
  {
    var s' := DoNumber(s, t);
    var b := AddingFocus(s, t);
    var f := Focus(b, t, s.lastId + 1, s.calls[t].target);
    assert Local(s, s', f) && Sound(s', f) by { assert IdOk(s, f.id); }
    SameOrder(s.timers, s'.timers, s.byId);
    SameOrder(s.timers, s'.timers, s.queue);
    LocalKeeps(s, s', f);
  }

  lemma DateKeeps(s: State, t: Thread)
    requires Inv(s) && Enabled(s, AddDate(t))
    ensures Inv(DoDate(s, t))
  {
    var s' := DoDate(s, t);
    var b := AddingFocus(s, t);
    var f := Focus(b, t, s.timers[b].id, s.calls[t].target);
    assert Local(s, s', f) && Sound(s', f);
    SameOrder(s.timers, s'.timers, s.byId);
    SameOrder(s.timers, s'.timers, s.queue);
    LocalKeeps(s, s', f);
  }

  /** The block is released: pooled or deleted. */
  ghost predicate Released(s: State, s': State, b: Block)
    requires b in s.timers
  {
    && s'.freed == s.freed + multiset{s.timers[b].id} && s'.ledger == s.ledger - {s.timers[b].id}
    && (|| (b in s'.timers && s'.timers == s.timers[b := s'.timers[b]] && s'.timers[b].stamp == s.timers[b].stamp
            && s'.roles == s.roles[b := Pooled])
        || (s'.timers == s.timers - {b} && s'.roles == s.roles - {b}))
    && s'.variables == s.variables && s'.tokens == s.tokens && s'.lastId == s.lastId && s'.lastStamp == s.lastStamp
  }

  /** The release of a block in use by the one thread that answers for it. */
  lemma FreeLocal(s: State, s': State, f: Focus)
    requires Inv(s) && f.block in s.timers && f.id == s.timers[f.block].id && Released(s, s', f.block)
    requires f.block in s.roles && s.roles[f.block] in {Adding(f.thread), Removing(f.thread), SelfRemoved, Queued}
    requires s.timers[f.block].id != 0 && s'.calls == s.calls - {f.thread}
             && s.settled <= s'.settled <= s.settled + {f.id}
    requires f.thread in s.calls ==> !s.calls[f.thread].Took? && s.calls[f.thread].block == f.block
    requires f.id in s.tokens ==> s'.settled == s.settled
    requires forall b :: s'.Holds(b) ==> s.Holds(b) && b != f.block
    requires forall b :: s.Holds(b) && b != f.block ==> s'.Holds(b)
    ensures Local(s, s', f) && Sound(s', f)
  {
    assert BlockOk(s, f.block) && IdOk(s, f.id);
  }

  lemma InsertFailsKeeps(s: State, t: Thread)
    requires Inv(s) && Enabled(s, AddInsertFails(t))
    ensures Inv(DoInsertFails(s, t))
  {
    var s1, s' := Clear(s, s.calls[t].target), DoInsertFails(s, t);
    RefusedKeeps(s, s.calls[t].target);
    var b := AddingFocus(s1, t);
    var f := Focus(b, t, s.timers[b].id, s.calls[t].target);
    FreeLocal(s1, s', f);
    FreeListed(s.roles, s.byId, s.queue, s.pool, b);
    SameOrder(s.timers, s'.timers, s.byId);
    SameOrder(s.timers, s'.timers, s.queue);
    LocalKeeps(s1, s', f);
  }

  lemma ForgottenAgain(s: State, w: Variable, id: Id)
    requires Inv(s)
    ensures Forgotten(Clear(s, w), w)[id := InVariable(w)] == Forgotten(s, w)[id := InVariable(w)]
    ensures Clear(s, w).variables[w := id] == s.variables[w := id]
  {
    RefusedKeeps(s, w);
    assert IdOk(Clear(s, w), 0);
  }

  /** Forgetting first what the variable held makes no difference. */
  lemma InsertIsLocal(s: State, t: Thread)
    requires Inv(s) && Enabled(s, AddInsert(t))
    ensures DoInsert(Clear(s, s.calls[t].target), t) == DoInsert(s, t)
  {
    var b := AddingFocus(s, t);
    ForgottenAgain(s, s.calls[t].target, s.timers[b].id);
  }

  lemma InsertFits(s: State, s': State, t: Thread, f: Focus)
    requires Inv(s) && Enabled(s, AddInsert(t)) && s.calls[t].target in s.variables
             && s.variables[s.calls[t].target] == 0
    requires f.block == s.calls[t].block && f.block in s.timers
    requires f == Focus(f.block, t, s.timers[f.block].id, s.calls[t].target)
    requires s' == DoInsert(s, t).(byId := s'.byId, queue := s'.queue)
    ensures Fits(s, f) && BlockFits(s, s', f) && VariablesFit(s, s', f)
    ensures s'.tokens == s.tokens[f.id := InVariable(f.variable)]
  {
    var b := AddingFocus(s, t);
    assert IdOk(s, 0);
    assert s'.tokens == s.tokens[f.id := InVariable(f.variable)];
    assert VariableOk(s', f.variable);
  }

  lemma InsertKeepsIds(s: State, s': State, t: Thread, f: Focus)
    requires Inv(s) && Enabled(s, AddInsert(t)) && s.calls[t].target in s.variables
             && s.variables[s.calls[t].target] == 0
    requires f.block == s.calls[t].block && f.block in s.timers
    requires f == Focus(f.block, t, s.timers[f.block].id, s.calls[t].target)
    requires s' == DoInsert(s, t).(byId := s'.byId, queue := s'.queue)
    requires s'.tokens == s.tokens[f.id := InVariable(f.variable)]
    ensures forall id {:trigger SameId(s, s', id)} :: id != f.id ==> SameId(s, s', id)
  {
  }

  lemma InsertKeepsOthers(s: State, s': State, t: Thread, f: Focus)
    requires Inv(s) && Enabled(s, AddInsert(t)) && f.block == s.calls[t].block && f.block in s.timers && f.thread == t
    requires s' == DoInsert(s, t).(byId := s'.byId, queue := s'.queue)
    ensures forall b {:trigger SameBlock(s, s', b)} :: b != f.block ==> SameBlock(s, s', b)
    ensures forall u {:trigger SameCall(s, s', u)} :: u != f.thread ==> SameCall(s, s', u)
  {
  }

  lemma InsertLocal(s: State, s': State, t: Thread, f: Focus)
    requires Inv(s) && Enabled(s, AddInsert(t)) && s.calls[t].target in s.variables
             && s.variables[s.calls[t].target] == 0
    requires f.block == s.calls[t].block && f.block in s.timers
    requires f == Focus(f.block, t, s.timers[f.block].id, s.calls[t].target)
    requires s' == DoInsert(s, t).(byId := s'.byId, queue := s'.queue)
    ensures Local(s, s', f)
  {
    InsertFits(s, s', t, f);
    InsertKeepsIds(s, s', t, f);
    InsertKeepsOthers(s, s', t, f);
  }

  lemma InsertSound(s: State, t: Thread, f: Focus)
    requires Inv(s) && Enabled(s, AddInsert(t))
    requires f.block == s.calls[t].block && f.block in s.timers
    requires f == Focus(f.block, t, s.timers[f.block].id, s.calls[t].target)
    ensures Sound(DoInsert(s, t), f)
  {
    var b := AddingFocus(s, t);
  }

  /** Insertion when the variable holds nothing. */
  lemma InsertFirstKeeps(s: State, t: Thread)
    requires Inv(s) && Enabled(s, AddInsert(t)) && s.calls[t].target in s.variables
             && s.variables[s.calls[t].target] == 0
    ensures Inv(DoInsert(s, t))
  {
    var s' := DoInsert(s, t);
    var b := AddingFocus(s, t);
    var f := Focus(b, t, s.timers[b].id, s.calls[t].target);
    InsertLocal(s, s', t, f);
    InsertSound(s, t, f);
    forall x | x in s.queue ensures x in s.timers && s.timers[x].stamp <= s.lastStamp && s.timers[x].id != f.id {
      assert BlockOk(s, x);
    }
    InsertOrdered(s.timers, s'.timers, s.roles, s.byId, s.queue, s.pool, b, s.lastStamp + 1);
    LocalKeeps(s, s', f);
  }

  lemma InsertKeeps(s: State, t: Thread)
    requires Inv(s) && Enabled(s, AddInsert(t))
    ensures Inv(DoInsert(s, t))
  {
    RefusedKeeps(s, s.calls[t].target);
    InsertIsLocal(s, t);
    InsertFirstKeeps(Clear(s, s.calls[t].target), t);
  }

  lemma TakeSound(s: State, t: Thread, w: Variable)
    requires Inv(s) && Enabled(s, RemoveTake(t, w)) && w in s.variables && s.variables[w] != 0
    ensures CallOk(DoTake(s, t, w), t) && IdOk(DoTake(s, t, w), s.variables[w])
  {
    assert VariableOk(s, w) && IdOk(s, s.variables[w]);
  }

  lemma TakeKeeps(s: State, t: Thread, w: Variable)
    requires Inv(s) && Enabled(s, RemoveTake(t, w))
    ensures Inv(DoTake(s, t, w))
  {
    var s' := DoTake(s, t, w);
    if w in s.variables && s.variables[w] != 0 {
      var id := s.variables[w];
      assert VariableOk(s, w) && IdOk(s, id);
      TakeSound(s, t, w);
      var b := if id in s.ledger then s.ledger[id] else 0;
      var f := Focus(b, t, id, w);
      assert b in s.timers ==> BlockOk(s, b) && BlockOk(s', b);
      assert Local(s, s', f);
      LocalKeeps(s, s', f);
    }
  }

  lemma CancelLocal(s: State, t: Thread, b: Block) returns (f: Focus)
    requires Inv(s) && Enabled(s, RemoveCancel(t)) && Finds(s, s.calls[t].taken, b)
    ensures f == Focus(b, t, s.calls[t].taken, 0) && BlockOk(s, b) && s.roles[b] == Queued
    ensures Local(s, DoCancelFound(s, t, b), f)
  {
    f := Focus(b, t, s.calls[t].taken, 0);
    assert CallOk(s, t) && BlockOk(s, b) && IdOk(s, f.id);
  }

  lemma CancelSound(s: State, t: Thread, b: Block)
    requires Inv(s) && Enabled(s, RemoveCancel(t)) && Finds(s, s.calls[t].taken, b)
    ensures Sound(DoCancelFound(s, t, b), Focus(b, t, s.calls[t].taken, 0))
  {
    assert CallOk(s, t) && BlockOk(s, b) && IdOk(s, s.calls[t].taken);
  }

  lemma CancelListed(s: State, t: Thread, b: Block)
    requires Inv(s) && Enabled(s, RemoveCancel(t)) && Finds(s, s.calls[t].taken, b) && s.roles[b] == Queued
    ensures var s' := DoCancelFound(s, t, b); Listed(s'.roles, s'.byId, s'.queue, s'.pool)
  {
    DequeueListed(s.roles, s.byId, s.queue, s.pool, b, DoCancelFound(s, t, b).roles[b]);
  }

  lemma CancelSorted(s: State, t: Thread, b: Block)
    requires Inv(s) && Enabled(s, RemoveCancel(t)) && Finds(s, s.calls[t].taken, b) && s.roles[b] == Queued
    ensures var s' := DoCancelFound(s, t, b); SortedById(s'.timers, s'.byId) && SortedByDue(s'.timers, s'.queue)
  {
    WithoutOrdered(s.timers, DoCancelFound(s, t, b).timers, s.byId, s.queue, b);
  }

  lemma CancelFoundKeeps(s: State, t: Thread, b: Block)
    requires Inv(s) && Enabled(s, RemoveCancel(t)) && Finds(s, s.calls[t].taken, b)
    ensures Inv(DoCancelFound(s, t, b))
  {
    var s' := DoCancelFound(s, t, b);
    var f := CancelLocal(s, t, b);
    CancelSound(s, t, b);
    CancelListed(s, t, b);
    CancelSorted(s, t, b);
    LocalKeeps(s, s', f);
  }

  /** An id that is still in the ledger while a call has it is found by its search. */
  lemma LedgerFound(s: State, t: Thread)
    requires Inv(s) && Enabled(s, RemoveCancel(t)) && s.calls[t].taken in s.ledger
    ensures Finds(s, s.calls[t].taken, s.ledger[s.calls[t].taken])
  {
    var id := s.calls[t].taken;
    assert CallOk(s, t) && IdOk(s, id) && BlockOk(s, s.ledger[id]);
  }

  lemma CancelMissedKeeps(s: State, t: Thread)
    requires Inv(s) && Enabled(s, RemoveCancel(t)) && forall b :: !Finds(s, s.calls[t].taken, b)
    ensures Inv(Leave(s, t, s.calls[t].taken).(tokens := s.tokens - {s.calls[t].taken}))
  {
    var id := s.calls[t].taken;
    var s' := Leave(s, t, id).(tokens := s.tokens - {id});
    assert CallOk(s, t) && IdOk(s, id);
    assert id !in s.ledger by {
      if id in s.ledger {
        LedgerFound(s, t);
      }
    }
    var f := Focus(0, t, id, 0);
    assert Local(s, s', f) && IdOk(s', id);
    assert 0 in s.timers ==> BlockOk(s, 0);
    LocalKeeps(s, s', f);
  }

  lemma AwaitKeeps(s: State, t: Thread)
    requires Inv(s) && Enabled(s, RemoveAwait(t))
    ensures Inv(Do(s, RemoveAwait(t)))
  {
    var s' := Do(s, RemoveAwait(t));
    var b := s.calls[t].block;
    assert CallOk(s, t) && BlockOk(s, b) && IdOk(s, s.timers[b].id);
    var f := Focus(b, t, s.timers[b].id, 0);
    assert Local(s, s', f) && Sound(s', f);
    LocalKeeps(s, s', f);
  }

  /** The lists once a timer that was in none has been released. */
  lemma FreedListed(s: State, s': State, b: Block)
    requires Inv(s) && b in s.timers && b in s.roles && s.roles[b] != Queued && s.roles[b] != Pooled
             && Released(s, s', b)
    requires s'.byId == s.byId && s'.queue == s.queue && s'.pool == if b in s'.timers then [b] + s.pool else s.pool
    requires b in s'.timers ==> |s.pool| < MAX_TIMERS_IN_FREE_LIST
    ensures Listed(s'.roles, s'.byId, s'.queue, s'.pool) && SortedById(s'.timers, s'.byId)
            && SortedByDue(s'.timers, s'.queue)
  {
    FreeListed(s.roles, s.byId, s.queue, s.pool, b);
    SameOrder(s.timers, s'.timers, s.byId);
    SameOrder(s.timers, s'.timers, s.queue);
  }

  lemma FreeKeeps(s: State, t: Thread)
    requires Inv(s) && Enabled(s, RemoveFree(t))
    ensures Inv(DoFree(s, t))
  {
    var s', b := DoFree(s, t), s.calls[t].block;
    assert CallOk(s, t) && BlockOk(s, b);
    var f := Focus(b, t, s.timers[b].id, 0);
    FreeLocal(s, s', f);
    FreedListed(s, s', b);
    LocalKeeps(s, s', f);
  }

  /** The timer thread changes one timer, and nothing of what others know of it. */
  lemma LoopLocal(s: State, s': State, b: Block)
    requires Inv(s) && b in s.timers && b in s'.timers && TIMER_THREAD !in s.calls && s.lastStamp <= s'.lastStamp
    requires s' == s.(loop := s'.loop, lastStamp := s'.lastStamp, queue := s'.queue,
               timers := s.timers[b := s'.timers[b]])
    requires s.roles[b] != Pooled && BlockOk(s', b) && s'.timers[b].id == s.timers[b].id
    requires forall x :: x != b ==> !s.Holds(x) && !s'.Holds(x)
    ensures Local(s, s', Focus(b, TIMER_THREAD, s.timers[b].id, 0))
            && Sound(s', Focus(b, TIMER_THREAD, s.timers[b].id, 0))
  {
    assert BlockOk(s, b) && IdOk(s, s.timers[b].id);
  }

  lemma ClaimKeeps(s: State)
    requires Inv(s) && Enabled(s, LoopPick) && s.queue != [] && s.queue[0] in s.timers
             && s.timers[s.queue[0]].due <= Millis(s.loop.now)
    ensures Inv(DoClaim(s, s.queue[0]))
  {
    var s', b := DoClaim(s, s.queue[0]), s.queue[0];
    assert b in s.queue && BlockOk(s, b);
    LoopLocal(s, s', b);
    SameOrder(s.timers, s'.timers, s.byId);
    SameOrder(s.timers, s'.timers, s.queue);
    LocalKeeps(s, s', Focus(b, TIMER_THREAD, s.timers[b].id, 0));
  }

  /** The timer was canceled from outside while it ran: whoever removes it still waits for it. */
  lemma SettleCanceledKeeps(s: State)
    requires Inv(s) && Enabled(s, LoopSettle) && s.timers[s.loop.block].flags.canceled
    requires !s.timers[s.loop.block].flags.canceledInCallback
    ensures Inv(DoSettle(s))
  {
    var s', b := DoSettle(s), s.loop.block;
    assert BlockOk(s, b);
    LoopLocal(s, s', b);
    SameOrder(s.timers, s'.timers, s.byId);
    SameOrder(s.timers, s'.timers, s.queue);
    LocalKeeps(s, s', Focus(b, TIMER_THREAD, s.timers[b].id, 0));
  }

  /** The callback has removed its own timer: the timer thread releases it. */
  lemma SettleRemovedKeeps(s: State)
    requires Inv(s) && Enabled(s, LoopSettle) && s.timers[s.loop.block].flags.canceled
    requires s.timers[s.loop.block].flags.canceledInCallback
    ensures Inv(DoSettle(s))
  {
    var s', b := DoSettle(s), s.loop.block;
    assert BlockOk(s, b);
    var f := Focus(b, TIMER_THREAD, s.timers[b].id, 0);
    assert Released(s, s', b);
    FreeLocal(s, s', f);
    FreedListed(s, s', b);
    LocalKeeps(s, s', f);
  }

  /** The lists once a timer that was in them has been released. */
  lemma SettleOnceListed(s: State, s': State)
    requires Inv(s) && Enabled(s, LoopSettle) && s.roles[s.loop.block] == Queued && Released(s, s', s.loop.block)
    requires s'.byId == Without(s.byId, s.loop.block) && s'.queue == Without(s.queue, s.loop.block)
    requires s'.pool == if s.loop.block in s'.timers then [s.loop.block] + s.pool else s.pool
    requires s.loop.block in s'.timers ==> |s.pool| < MAX_TIMERS_IN_FREE_LIST
    ensures Listed(s'.roles, s'.byId, s'.queue, s'.pool) && SortedById(s'.timers, s'.byId)
            && SortedByDue(s'.timers, s'.queue)
  {
    var b := s.loop.block;
    ReleaseListed(s.roles, s.byId, s.queue, s.pool, b);
    WithoutSorted(s.timers, s.queue, b);
    WithoutSorted(s.timers, s.byId, b);
    SameOrder(s.timers, s'.timers, s'.queue);
    SameOrder(s.timers, s'.timers, s'.byId);
  }

  lemma SettleOnceKeeps(s: State)
    requires Inv(s) && Enabled(s, LoopSettle) && !s.timers[s.loop.block].flags.canceled
    requires s.loop.cancel || s.timers[s.loop.block].flags.oneShot
    ensures Inv(DoSettle(s))
  {
    var s', b := DoSettle(s), s.loop.block;
    assert BlockOk(s, b);
    var f := Focus(b, TIMER_THREAD, s.timers[b].id, 0);
    assert Released(s, s', b);
    FreeLocal(s, s', f);
    SettleOnceListed(s, s');
    LocalKeeps(s, s', f);
  }

  lemma SettleAgainListed(s: State, queue: seq<Block>)
    requires Inv(s) && Enabled(s, LoopSettle) && s.roles[s.loop.block] == Queued
    requires queue == InsertAt(Without(s.queue, s.loop.block), AgainAt(s), s.loop.block)
    ensures Listed(s.roles, s.byId, queue, s.pool)
    ensures SortedByDue(s.timers[s.loop.block := Again(s)], queue)
            && SortedById(s.timers[s.loop.block := Again(s)], s.byId)
  {
    forall x | x in s.queue ensures x in s.timers && s.timers[x].stamp <= s.lastStamp {
      assert BlockOk(s, x);
    }
    var b := s.loop.block;
    RequeueOrdered(s.timers, s.timers[b := Again(s)], s.roles, s.byId, s.queue, s.pool, b, Again(s));
  }

  lemma SettleAgainKeeps(s: State)
    requires Inv(s) && Enabled(s, LoopSettle) && !s.timers[s.loop.block].flags.canceled
    requires !s.loop.cancel && !s.timers[s.loop.block].flags.oneShot
    ensures Inv(DoSettle(s))
  {
    var s', b := DoSettle(s), s.loop.block;
    assert BlockOk(s, b);
    LoopLocal(s, s', b);
    SettleAgainListed(s, s'.queue);
    LocalKeeps(s, s', Focus(b, TIMER_THREAD, s.timers[b].id, 0));
  }

  lemma SettleKeeps(s: State)
    requires Inv(s) && Enabled(s, LoopSettle)
    ensures Inv(DoSettle(s))
  {
    var timer := s.timers[s.loop.block];
    if timer.flags.canceled {
      if timer.flags.canceledInCallback {
        SettleRemovedKeeps(s);
      } else {
        SettleCanceledKeeps(s);
      }
    } else if s.loop.cancel || timer.flags.oneShot {
      SettleOnceKeeps(s);
    } else {
      SettleAgainKeeps(s);
    }
  }

  /** The timer thread takes the first of the queue if it is due; there are no canceled timers to skip. */
  lemma PickIsFirst(s: State)
    requires Inv(s) && s.loop.Sampled?
    ensures var due := s.queue != [] && s.timers[s.queue[0]].due <= Millis(s.loop.now);
            DoPick(s) == if due then DoClaim(s, s.queue[0]) else s.(loop := Resting)
  {
    if s.queue != [] {
      assert s.queue[0] in s.queue && BlockOk(s, s.queue[0]);
    }
  }

  lemma PickKeeps(s: State)
    requires Inv(s) && Enabled(s, LoopPick)
    ensures Inv(DoPick(s))
  {
    PickIsFirst(s);
    if s.queue != [] && s.timers[s.queue[0]].due <= Millis(s.loop.now) {
      ClaimKeeps(s);
    } else {
      QuietKeeps(s, DoPick(s));
    }
  }

  lemma CancelKeeps(s: State, t: Thread)
    requires Inv(s) && Enabled(s, RemoveCancel(t))
    ensures Inv(DoCancel(s, t))
  {
    if b :| Finds(s, s.calls[t].taken, b) && DoCancel(s, t) == DoCancelFound(s, t, b) {
      CancelFoundKeeps(s, t, b);
    } else {
      CancelMissedKeeps(s, t);
    }
  }

  /** Every step keeps the invariant. */
  lemma StepKeeps(s: State, step: Step)
    requires Inv(s) && Enabled(s, step)
    ensures Inv(Do(s, step))
  {
    match step
    case Tick(_) => QuietKeeps(s, Do(s, step));
    case AddRefused(_, v) => RefusedKeeps(s, v);
    case AddAllocate(t, v, timeout, oneShot, callback, b) => AllocateKeeps(s, t, v, timeout, oneShot, callback, b);
    case AddNumber(t) => NumberKeeps(s, t);
    case AddDate(t) => DateKeeps(s, t);
    case AddInsert(t) => InsertKeeps(s, t);
    case AddInsertFails(t) => InsertFailsKeeps(s, t);
    case RemoveTake(t, v) => TakeKeeps(s, t, v);
    case RemoveCancel(t) => CancelKeeps(s, t);
    case RemoveAwait(t) => AwaitKeeps(s, t);
    case RemoveFree(t) => FreeKeeps(s, t);
    case LoopSample => QuietKeeps(s, Do(s, step));
    case LoopPick => PickKeeps(s);
    case CallbackStart => QuietKeeps(s, Do(s, step));
    case CallbackEnd(_) => QuietKeeps(s, Do(s, step));
    case LoopSettle => SettleKeeps(s);
  }

  /** What the critical sections leave alone. */
  lemma InsertFrame(s: State, t: Thread)
    requires Enabled(s, AddInsert(t))
    ensures var s' := DoInsert(s, t); s'.clock == s.clock && s'.lastId == s.lastId && s'.settled == s.settled
  {
  }

  lemma CancelFrame(s: State, t: Thread)
    requires Enabled(s, RemoveCancel(t))
    ensures var s' := DoCancel(s, t);
            s'.clock == s.clock && s'.lastId == s.lastId && s.settled <= s'.settled && s'.loop == s.loop
  {
  }

  lemma FreeFrame(s: State, t: Thread)
    requires Enabled(s, RemoveFree(t))
    ensures var s' := DoFree(s, t);
            s'.clock == s.clock && s'.lastId == s.lastId && s.settled <= s'.settled && s'.loop == s.loop
  {
  }

  lemma ClaimFrame(s: State, b: Block)
    requires s.loop.Sampled? && b in s.timers
    ensures var s' := DoClaim(s, b); s'.clock == s.clock && s'.lastId == s.lastId && s'.settled == s.settled
  {
  }

  lemma PickFrame(s: State)
    requires Enabled(s, LoopPick)
    ensures var s' := DoPick(s); s'.clock == s.clock && s'.lastId == s.lastId && s'.settled == s.settled
  {
    var i := PickFrom(s, 0, Millis(s.loop.now));
    if 0 <= i < |s.queue| && s.queue[i] in s.timers {
      ClaimFrame(s, s.queue[i]);
    }
  }

  lemma FreeTimerFrame(s: State, b: Block)
    requires b in s.timers
    ensures var s' := FreeTimer(s, b);
            s'.clock == s.clock && s'.lastId == s.lastId && s'.settled == s.settled && s'.loop == s.loop
  {
  }

  lemma SettleFrame(s: State)
    requires Enabled(s, LoopSettle)
    ensures var s' := DoSettle(s);
            s'.clock == s.clock && s'.lastId == s.lastId && s'.settled == s.settled && s'.loop == Resting
  {
    var b := s.loop.block;
    var s0 := s.(loop := Resting);
    if b in s.timers {
      FreeTimerFrame(SetFlags(s0, b, s.timers[b].flags.(running := false)), b);
      FreeTimerFrame(s0.(queue := Without(s.queue, b), byId := Without(s.byId, b)), b);
    }
  }
}
