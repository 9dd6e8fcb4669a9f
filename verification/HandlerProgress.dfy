/** Get in Source/TimedEvent.cpp comes back with a handler, if the threads that have the lock go on and a handler can be
    created. */
module HandlerProgress {
  import opened Paths
  import opened LockWords
  import opened HandlerOnDemand
  import RwLocks

  /** A state that comes after s, and is in order. */
  ghost predicate On(s: State, t: State) {
    Leads(Do, s, t) && Inv(t) && |t.tasks| == |s.tasks|
  }

  lemma Take(s: State, t: State, step: Step) returns (t': State)
    requires On(s, t) && Enabled(t, step)
    ensures t' == Do(t, step) && On(s, t')
  {
    LeadsOn(Do, s, t, step);
    if step.LockStep? {
      LockKeeps(t, step);
    } else {
      TaskKeeps(t, step);
    }
    t' := Do(t, step);
  }

  function GuardOf(s: State, u: nat): RwLocks.Guard
    requires u < |s.tasks| == |s.lock.guards|
  {
    s.lock.guards[u]
  }

  /** Only the thread u has moved. */
  predicate Alone(s: State, s': State, u: nat) {
    && u < |s.tasks| == |s.lock.guards| == |s'.tasks| == |s'.lock.guards|
    && s'.tasks == s.tasks[u := s'.tasks[u]] && s'.lock.guards == s.lock.guards[u := s'.lock.guards[u]]
  }

  /** A call of Get that will return a handler, if it can create one. */
  predicate Promising(task: Task) {
    || task.GetCheck? || task.GetRecheck? || task.GetCreate? || task.GetInstall? || task.GetRef?
    || (task.GetLeave? && task.got != 0)
  }

  /** What a thread that has the shared lock does next, and how far it is from letting go. */
  function ReadStep(s: State, u: nat): Step
    requires u < |s.tasks| == |s.lock.guards|
  {
    if GuardOf(s, u).Dropping? then LockStep(RwLocks.Swap(u))
    else if s.tasks[u].GetCheck? then Check(u)
    else if s.tasks[u].GetRef? then TakeRef(u)
    else LockStep(RwLocks.Drop(u, s.tasks[u].GetRecheck?))
  }

  function ReadRank(s: State, u: nat): nat
    requires u < |s.tasks| == |s.lock.guards|
  {
    if GuardOf(s, u).Dropping? then (if GuardOf(s, u).seen != s.lock.word then 2 else 1)
    else if s.tasks[u].GetCheck? then 5
    else if s.tasks[u].GetRef? then 4
    else 3
  }

  lemma ReaderMoves(s: State, u: nat)
    requires Inv(s) && u < |s.tasks| && RwLocks.Reads(GuardOf(s, u))
    ensures Enabled(s, ReadStep(s, u))
    ensures var s' := Do(s, ReadStep(s, u));
            && Alone(s, s', u) && (Promising(s.tasks[u]) ==> Promising(s'.tasks[u]))
            && (if RwLocks.Reads(GuardOf(s', u)) then ReadRank(s', u) < ReadRank(s, u)
                else if GuardOf(s', u) == RwLocks.Outside then s'.tasks[u].GetLeave?
                else GuardOf(s', u) == RwLocks.WantExclusive && s'.tasks[u].GetRecheck?)
            && (RwLocks.Reads(GuardOf(s', u)) || s'.lock.word == Decremented(s.lock.word))
            && (RwLocks.Reads(GuardOf(s', u)) ==> s'.lock.word == s.lock.word)
  {
    assert TaskOk(s, u);
  }

  /** A thread that has the shared lock lets go: it is about to return, or to come back as a writer. */
  lemma {:induction false} ReaderLeaves(s: State, t: State, u: nat) returns (t': State)
    requires On(s, t) && u < |t.tasks| && RwLocks.Reads(GuardOf(t, u))
    ensures On(s, t') && Alone(t, t', u) && (Promising(t.tasks[u]) ==> Promising(t'.tasks[u]))
    ensures Count(t'.lock.guards, RwLocks.Reads) < Count(t.lock.guards, RwLocks.Reads)
    ensures if GuardOf(t', u) == RwLocks.Outside then t'.tasks[u].GetLeave?
            else GuardOf(t', u) == RwLocks.WantExclusive && t'.tasks[u].GetRecheck?
    ensures t'.lock.word == Decremented(t.lock.word)
    decreases ReadRank(t, u)
  {
    ReaderMoves(t, u);
    t' := Take(s, t, ReadStep(t, u));
    CountUpdate(t.lock.guards, u, t'.lock.guards[u], RwLocks.Reads);
    if RwLocks.Reads(GuardOf(t', u)) {
      t' := ReaderLeaves(s, t', u);
    }
  }

  lemma {:induction false} ReadersLeave(s: State, t: State) returns (t': State)
    requires On(s, t)
    ensures On(s, t') && Count(t'.lock.guards, RwLocks.Reads) == 0
    decreases Count(t.lock.guards, RwLocks.Reads)
  {
    t' := t;
    if Count(t.lock.guards, RwLocks.Reads) > 0 {
      var u := SomeoneCounts(t.lock.guards, RwLocks.Reads);
      t' := ReaderLeaves(s, t, u);
      t' := ReadersLeave(s, t');
    }
  }

  /** What a thread that has the exclusive lock does next. */
  function WriteStep(s: State, u: nat): Step
    requires u < |s.tasks| == |s.lock.guards|
  {
    match s.tasks[u]
    case GetRecheck => Recheck(u)
    case GetCreate => Create(u, true)
    case GetInstall(_) => Install(u)
    case GetRef => TakeRef(u)
    case ShutDown => Shut(u)
    case _ => LockStep(RwLocks.ReleaseExclusive(u, false))
  }

  function WriteRank(task: Task): nat {
    match task
    case GetRecheck => 5
    case GetCreate => 4
    case GetInstall(_) => 3
    case GetRef => 2
    case ShutDown => 2
    case _ => 1
  }

  lemma WriterMoves(s: State, u: nat)
    requires Inv(s) && u < |s.tasks| && GuardOf(s, u) == RwLocks.Exclusive
    ensures Enabled(s, WriteStep(s, u))
    ensures var s' := Do(s, WriteStep(s, u));
            && Alone(s, s', u) && (Promising(s.tasks[u]) ==> Promising(s'.tasks[u]))
            && (if GuardOf(s', u) == RwLocks.Exclusive then WriteRank(s'.tasks[u]) < WriteRank(s.tasks[u])
                else GuardOf(s', u) == RwLocks.Outside && s'.lock.word == 0
                     && (s'.tasks[u].GetLeave? || s'.tasks[u].ShutLeave?))
  {
    assert TaskOk(s, u);
  }

  lemma {:induction false} WriterLeaves(s: State, t: State, u: nat) returns (t': State)
    requires On(s, t) && u < |t.tasks| && GuardOf(t, u) == RwLocks.Exclusive
    ensures On(s, t') && Alone(t, t', u) && (Promising(t.tasks[u]) ==> Promising(t'.tasks[u]))
    ensures GuardOf(t', u) == RwLocks.Outside && t'.lock.word == 0 && (t'.tasks[u].GetLeave? || t'.tasks[u].ShutLeave?)
    decreases WriteRank(t.tasks[u])
  {
    WriterMoves(t, u);
    t' := Take(s, t, WriteStep(t, u));
    if GuardOf(t', u) == RwLocks.Exclusive {
      t' := WriterLeaves(s, t', u);
    }
  }

  /** Nobody has the lock. */
  lemma AllLeave(s: State) returns (t: State)
    requires Inv(s)
    ensures On(s, t) && t.lock.word == 0
  {
    LeadsSelf<State, Step>(Do, s);
    t := ReadersLeave(s, s);
    if High(t.lock.word) {
      var u := SomeoneCounts(t.lock.guards, RwLocks.Writes);
      if GuardOf(t, u) == RwLocks.Draining {
        t := Take(s, t, LockStep(RwLocks.Drain(u)));
      }
      t := WriterLeaves(s, t, u);
    }
  }

  /** A thread that waits for the free lock gets it, shared or exclusive. */
  lemma Enters(s: State, t: State, u: nat) returns (t': State)
    requires On(s, t) && t.lock.word == 0 && u < |t.tasks| && t.tasks[u] == GetCheck
    ensures On(s, t') && GuardOf(t', u) == RwLocks.Shared && t'.tasks[u] == GetCheck && t'.lock.word == 1
  {
    assert TaskOk(t, u);
    CountBound(t.lock.guards, u, RwLocks.Reads);
    t' := t;
    if GuardOf(t', u).TryShared? && GuardOf(t', u).seen != 0 {
      t' := Take(s, t', LockStep(RwLocks.Swap(u)));
    }
    if GuardOf(t', u).WantShared? {
      t' := Take(s, t', LockStep(RwLocks.Read(u)));
    }
    t' := Take(s, t', LockStep(RwLocks.Swap(u)));
  }

  /** It has read the word. */
  lemma Approaches(s: State, t: State, u: nat) returns (t': State)
    requires On(s, t) && t.lock.word == 0 && u < |t.tasks| && (t.tasks[u] == GetRecheck || t.tasks[u] == ShutDown)
    ensures On(s, t') && GuardOf(t', u) == RwLocks.TryExclusive(0) && t'.tasks[u] == t.tasks[u] && t'.lock.word == 0
  {
    assert TaskOk(t, u);
    CountBound(t.lock.guards, u, RwLocks.Reads);
    CountBound(t.lock.guards, u, RwLocks.Writes);
    t' := t;
    if GuardOf(t', u).TryExclusive? && GuardOf(t', u).seen != 0 {
      t' := Take(s, t', LockStep(RwLocks.Swap(u)));
    }
    if GuardOf(t', u).WantExclusive? {
      t' := Take(s, t', LockStep(RwLocks.Read(u)));
    }
  }

  lemma Seizes(s: State, t: State, u: nat) returns (t': State)
    requires On(s, t) && t.lock.word == 0 && u < |t.tasks| && (t.tasks[u] == GetRecheck || t.tasks[u] == ShutDown)
    ensures On(s, t') && GuardOf(t', u) == RwLocks.Exclusive && t'.tasks[u] == t.tasks[u]
  {
    t' := Approaches(s, t, u);
    t' := Take(s, t', LockStep(RwLocks.Swap(u)));
    t' := Take(s, t', LockStep(RwLocks.Drain(u)));
  }

  /** A call of Get, or of Shutdown, comes to its return while nobody has the lock. */
  lemma Ends(s: State, t: State, u: nat) returns (t': State)
    requires On(s, t) && t.lock.word == 0 && u < |t.tasks| && t.tasks[u] in {GetCheck, GetRecheck, ShutDown}
    ensures On(s, t') && t'.lock.word == 0 && GuardOf(t', u) == RwLocks.Outside
    ensures t'.tasks[u].GetLeave? || t'.tasks[u].ShutLeave?
    ensures Promising(t.tasks[u]) ==> Promising(t'.tasks[u])
  {
    t' := t;
    if t.tasks[u] == GetCheck {
      t' := Enters(s, t', u);
      t' := ReaderLeaves(s, t', u);
    }
    if GuardOf(t', u) != RwLocks.Outside || t.tasks[u] != GetCheck {
      t' := Seizes(s, t', u);
      t' := WriterLeaves(s, t', u);
    }
  }

  /** The thread is through with what it was at, and the lock is free. */
  lemma StartsAnew(s: State, u: nat) returns (t: State)
    requires Inv(s) && u < |s.tasks|
    ensures On(s, t) && t.lock.word == 0 && t.tasks[u] == NoTask && GuardOf(t, u) == RwLocks.Outside
  {
    t := AllLeave(s);
    assert TaskOk(t, u);
    CountBound(t.lock.guards, u, RwLocks.Reads);
    CountBound(t.lock.guards, u, RwLocks.Writes);
    if t.tasks[u] in {GetCheck, GetRecheck, ShutDown} {
      t := Ends(s, t, u);
    }
    if t.tasks[u] != NoTask {
      t := Take(s, t, Return(u));
    }
    assert TaskOk(t, u);
  }

  /** From every reachable state some steps lead to one in which a given thread returns from a Get that it has called,
      with a handler. */
  lemma GetComesBack(states: seq<State>, steps: seq<Step>, k: nat, u: nat) returns (t: State)
    requires Run(states, steps) && k < |states| && u < |states[k].tasks|
    ensures Leads(Do, states[k], t) && Enabled(t, Return(u)) && t.tasks[u].GetLeave? && t.tasks[u].got != 0
  {
    RunKeeps(states, steps, k);
    var s := states[k];
    t := StartsAnew(s, u);
    t := Take(s, t, LockStep(RwLocks.BeginShared(u)));
    t := Ends(s, t, u);
  }
}
