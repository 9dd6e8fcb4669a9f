/** Finalize of the task queue in Source/TaskQueue.cpp comes to the shutdown of the pool, if the threads go on. */
module TaskProgress {
  import opened Paths
  import opened LockWords
  import opened TaskQueues
  import Rundown

  /** A state that comes after s, and is in order. */
  ghost predicate On(s: State, t: State) {
    Leads(Do, s, t) && Inv(t) && |t.threads| == |s.threads| && |t.rundown.closers| == |s.rundown.closers|
  }

  ghost predicate SameSizes(s: State, s': State) {
    |s'.threads| == |s.threads| && |s'.rundown.closers| == |s.rundown.closers|
  }

  lemma TrySize(s: State, r: Rundown.Step)
    requires Enabled(s, RundownStep(r))
    ensures SameSizes(s, Do(s, RundownStep(r)))
  {
  }

  lemma GoSize(s: State, t: nat)
    requires Enabled(s, Go(t))
    ensures SameSizes(s, Do(s, Go(t)))
  {
  }

  lemma SameSize(s: State, step: Step)
    requires Enabled(s, step)
    ensures SameSizes(s, Do(s, step))
  {
    match step
    case RundownStep(r) => TrySize(s, r);
    case Go(t) => GoSize(s, t);
    case _ =>
  }

  lemma Take(s: State, t: State, step: Step) returns (t': State)
    requires On(s, t) && Enabled(t, step)
    ensures t' == Do(t, step) && On(s, t')
  {
    LeadsOn(Do, s, t, step);
    StepKeeps(t, step);
    SameSize(t, step);
    t' := Do(t, step);
  }

  /** How far a thread is from the end of its call. */
  function Left(a: Activity, u: Rundown.User, word: Word): nat {
    match a
    case Idle => 0
    case Submit(_, Acquire, _) => if !u.Entering? then 20 else if u.seen != word then 19 else 18
    case Submit(_, Store, _) => 17
    case Submit(_, Increment, _) => 16
    case Submit(_, AddRef, _) => 15
    case Submit(_, Post, _) => 14
    case Submit(_, UndoRef, _) => 13
    case Submit(_, UndoCount, _) => 12
    case Submit(_, Leave(_), _) => if !u.Leaving? then 11 else if u.seen != word then 10 else 9
    case Serve(_, Fetch) => 30
    case Serve(_, Callback) => 29
    case Serve(_, Throttle) => if !u.Entering? then 28 else if u.seen != word then 27 else 26
    case Serve(_, Sleep) => 25
    case Serve(_, Unthrottle) => if !u.Leaving? then 24 else if u.seen != word then 23 else 22
    case Serve(_, Unref) => 21
    case Serve(_, Uncount) => 20
  }

  function LeftOf(s: State, t: nat): nat
    requires t < |s.threads| && t < |s.rundown.users|
  {
    Left(s.threads[t], s.rundown.users[t], s.rundown.word)
  }

  /** The step that the thread takes next. */
  function NextOf(s: State, t: nat): Step
    requires t < |s.threads| && t < |s.rundown.users| && s.threads[t] != Idle
  {
    var a, u := s.threads[t], s.rundown.users[t];
    if Acquiring(a) then RundownStep(if u.Entering? then Rundown.TryEnter(t) else Rundown.ReadToEnter(t))
    else if Releasing(a) then RundownStep(if u.Leaving? then Rundown.TryLeave(t) else Rundown.ReadToLeave(t))
    else if a.Submit? then Go(t)
    else match a.stage
      case Fetch => Call(t)
      case Callback => Called(t, false)
      case Unref => Release(t)
      case Uncount => Done(t)
      case _ => Slept(t)
  }

  /** The thread has come nearer to its end; the others have not taken part, and only QueueTask posts a job. */
  ghost predicate Nearer(s: State, s': State, t: nat)
    requires t < |s.threads| && t < |s.rundown.users|
  {
    && |s'.threads| == |s.threads| && t < |s'.rundown.users| && LeftOf(s', t) < LeftOf(s, t)
    && s'.threads == s.threads[t := s'.threads[t]]
    && (s.threads[t].Serve? ==> s'.packets == s.packets && (s'.threads[t] == Idle || s'.threads[t].Serve?))
  }

  lemma EnterGoesOn(s: State, t: nat)
    requires Inv(s) && t < |s.threads| && Acquiring(s.threads[t])
    ensures Enabled(s, NextOf(s, t)) && Nearer(s, Do(s, NextOf(s, t)), t)
  {
    assert ThreadOk(s, t);
  }

  lemma LeaveGoesOn(s: State, t: nat)
    requires Inv(s) && t < |s.threads| && Releasing(s.threads[t])
    ensures Enabled(s, NextOf(s, t)) && Nearer(s, Do(s, NextOf(s, t)), t)
  {
    assert ThreadOk(s, t);
  }

  lemma SubmitGoesOn(s: State, t: nat)
    requires Inv(s) && t < |s.threads| && s.threads[t].Submit? && !Acquiring(s.threads[t]) && !Releasing(s.threads[t])
    ensures Enabled(s, NextOf(s, t)) && Nearer(s, Do(s, NextOf(s, t)), t)
  {
    assert ThreadOk(s, t);
  }

  lemma ServeGoesOn(s: State, t: nat)
    requires Inv(s) && t < |s.threads| && s.threads[t].Serve? && !Acquiring(s.threads[t]) && !Releasing(s.threads[t])
    ensures Enabled(s, NextOf(s, t)) && Nearer(s, Do(s, NextOf(s, t)), t)
  {
    assert ThreadOk(s, t);
  }

  lemma GoesNearer(s: State, t: nat)
    requires Inv(s) && t < |s.threads| && s.threads[t] != Idle
    ensures Enabled(s, NextOf(s, t)) && Nearer(s, Do(s, NextOf(s, t)), t)
  {
    if Acquiring(s.threads[t]) {
      EnterGoesOn(s, t);
    } else if Releasing(s.threads[t]) {
      LeaveGoesOn(s, t);
    } else if s.threads[t].Submit? {
      SubmitGoesOn(s, t);
    } else {
      ServeGoesOn(s, t);
    }
  }

  ghost predicate IdleTo(s: State, n: nat) {
    n <= |s.threads| && forall v :: 0 <= v < n ==> s.threads[v] == Idle
  }

  /** A thread comes to the end of its call, and the others wait meanwhile. */
  lemma {:induction false} ThreadEnds(s: State, r: State, t: nat) returns (r': State)
    requires On(s, r) && t < |r.threads|
    ensures On(s, r') && r'.threads == r.threads[t := Idle] && (r.threads[t].Serve? ==> r'.packets == r.packets)
    decreases LeftOf(r, t)
  {
    if r.threads[t] == Idle {
      r' := r;
    } else {
      GoesNearer(r, t);
      r' := Take(s, r, NextOf(r, t));
      if r'.threads[t] != Idle {
        r' := ThreadEnds(s, r', t);
      }
    }
  }

  lemma {:induction false} AllEnd(s: State, r: State, n: nat) returns (r': State)
    requires On(s, r) && IdleTo(r, n)
    ensures On(s, r') && IdleTo(r', |r'.threads|)
    decreases |r.threads| - n
  {
    if n == |r.threads| {
      r' := r;
    } else {
      r' := ThreadEnds(s, r, n);
      r' := AllEnd(s, r', n + 1);
    }
  }

  /** What has been posted is delivered to the first thread, one after another. */
  lemma {:induction false} AllDelivered(s: State, r: State) returns (r': State)
    requires On(s, r) && IdleTo(r, |r.threads|) && |r.threads| > 0
    ensures On(s, r') && IdleTo(r', |r'.threads|) && r'.packets == {}
    decreases |r.packets|
  {
    if r.packets == {} {
      r' := r;
    } else {
      var j :| j in r.packets;
      r' := Take(s, r, Deliver(0, j));
      assert r'.packets < r.packets;
      r' := ThreadEnds(s, r', 0);
      r' := AllDelivered(s, r');
    }
  }

  lemma NotCounted(s: State, j: Job)
    requires Inv(s) && IdleTo(s, |s.threads|) && s.packets == {} && j in s.places
    ensures j !in s.counted
  {
    assert JobOk(s, j);
  }

  /** If no thread is at work and nothing is posted, no task is counted and nobody holds the rundown protection. */
  lemma NothingLeft(s: State)
    requires Inv(s) && IdleTo(s, |s.threads|) && s.packets == {}
    ensures s.count == 0 && Low(s.rundown.word) == 0
  {
    forall j | j in s.places ensures j !in s.counted {
      NotCounted(s, j);
    }
    assert s.counted == {};
    forall u | 0 <= u < |s.rundown.users| ensures !Rundown.Holds(s.rundown.users[u]) {
      assert ThreadOk(s, u);
    }
    CountNone(s.rundown.users, Rundown.Holds);
  }

  /** A call of Finalize closes the queue and finds that nothing is pending. */
  lemma Closes(s: State, r: State, c: nat) returns (r': State)
    requires On(s, r) && IdleTo(r, |r.threads|) && r.packets == {} && c < |r.rundown.closers|
    ensures On(s, r') && r'.shutdown
  {
    r' := r;
    if r.rundown.closers[c] == Rundown.Idle {
      NothingLeft(r');
      r' := Take(s, r', RundownStep(Rundown.Raise(c)));
    }
    NothingLeft(r');
    if r'.rundown.closers[c] == Rundown.Waiting {
      assert Rundown.Closing(r'.rundown);
      r' := Take(s, r', RundownStep(Rundown.Check(c)));
    }
    NothingLeft(r');
    r' := Take(s, r', Poll(c));
  }

  /** From every reachable state, whatever is pending, some steps lead to the shutdown of the pool by a call of
      Finalize. */
  lemma ComesToShutdown(states: seq<State>, steps: seq<Step>, i: nat, c: nat) returns (t: State)
    requires Run(states, steps) && i < |states| && |states[i].threads| > 0 && c < |states[i].rundown.closers|
    ensures Leads(Do, states[i], t) && t.shutdown
  {
    RunKeeps(states, steps, i);
    var s := states[i];
    LeadsSelf<State, Step>(Do, s);
    t := AllEnd(s, s, 0);
    t := AllDelivered(s, t);
    t := Closes(s, t, c);
  }
}
