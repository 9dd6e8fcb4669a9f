/** Which callback OnQueuedTask of Source/TaskQueue.cpp calls: QueueTask keeps it in the task, where the next
    QueueTask of the same task puts another one. */
module TaskCallbacks {
  import opened LockWords
  import opened TaskQueues

  /** The callback of the job has not been called yet. */
  predicate Pending(s: State, j: Job) {
    && j in s.places
    && match s.places[j]
       case Submitting(_) => true
       case Posted => true
       case Serving(t) => t < |s.threads| && s.threads[t] == Serve(j, Fetch)
       case _ => false
  }

  /** And it is in the task. */
  predicate Kept(s: State, j: Job) {
    && Pending(s, j)
    && (s.places[j].Submitting? ==>
        var t := s.places[j].submitter;
        t < |s.threads| && s.threads[t].Submit? && s.threads[t].phase !in {Acquire, Store})
  }

  /** The task is to call something else that it has not called yet. */
  ghost predicate Clashes(s: State, request: Request) {
    exists j :: Pending(s, j) && RequestOf(s.calls, j).task == request.task
                && RequestOf(s.calls, j).callback != request.callback
  }

  ghost predicate Agree(s: State, j: Job, k: Job) {
    RequestOf(s.calls, j).task == RequestOf(s.calls, k).task ==>
      RequestOf(s.calls, j).callback == RequestOf(s.calls, k).callback
  }

  ghost predicate KeptOk(s: State, j: Job) {
    var r := RequestOf(s.calls, j);
    r.task in s.calls.tasks && s.calls.tasks[r.task] == r.callback
  }

  ghost predicate CallsOk(s: State) {
    && (forall j, k {:trigger Agree(s, j, k)} :: Pending(s, j) && Pending(s, k) ==> Agree(s, j, k))
    && (forall j {:trigger KeptOk(s, j)} :: Kept(s, j) ==> KeptOk(s, j))
    && (forall j :: Accepted(s, j) && !Pending(s, j) ==> j in s.calls.called)
    && (forall j :: j in s.calls.called ==>
          j in s.places && s.calls.called[j] == RequestOf(s.calls, j).callback)
  }

  /** The step is about thread t and job j; nothing changes for the other jobs. */
  ghost predicate About(s: State, s': State, t: nat, j: Job) {
    && |s'.threads| == |s.threads| && t < |s.threads|
    && (forall u :: 0 <= u < |s.threads| && u != t ==> s'.threads[u] == s.threads[u])
    && (forall k :: k != j ==> (k in s'.places <==> k in s.places) && (k in s.places ==> s'.places[k] == s.places[k]))
    && (s.threads[t].Serve? || (s.threads[t].Submit? && !s.threads[t].phase.Leave?) ==> s.threads[t].job == j)
  }

  ghost predicate SameStage(s: State, s': State, j: Job) {
    (Pending(s', j) <==> Pending(s, j)) && (Kept(s', j) <==> Kept(s, j)) && (Accepted(s', j) <==> Accepted(s, j))
  }

  lemma OthersStay(s: State, s': State, t: nat, j: Job)
    requires Inv(s) && About(s, s', t, j)
    ensures forall k {:trigger SameStage(s, s', k)} :: k != j ==> SameStage(s, s', k)
  {
    forall k | k != j ensures SameStage(s, s', k) {
      if k in s.places {
        assert JobOk(s, k);
      }
    }
  }

  /** A step that reads and writes no callback. */
  lemma QuietKeeps(s: State, s': State, t: nat, j: Job)
    requires Inv(s) && CallsOk(s) && About(s, s', t, j) && s'.calls == s.calls
    requires (Pending(s', j) ==> Pending(s, j)) && (Kept(s', j) ==> Kept(s, j)) && (j in s.places ==> j in s'.places)
    requires Accepted(s', j) && !Pending(s', j) ==> Accepted(s, j) && !Pending(s, j)
    ensures CallsOk(s')
  {
    OthersStay(s, s', t, j);
    forall a, b | Pending(s', a) && Pending(s', b) ensures Agree(s', a, b) {
      assert (a != j ==> SameStage(s, s', a)) && (b != j ==> SameStage(s, s', b)) && Agree(s, a, b);
    }
    forall a | Kept(s', a) ensures KeptOk(s', a) {
      assert (a != j ==> SameStage(s, s', a)) && KeptOk(s, a);
    }
    forall a | Accepted(s', a) && !Pending(s', a) ensures a in s'.calls.called {
      assert a != j ==> SameStage(s, s', a);
    }
  }

  /** Another job for a task puts its callback in the place of an equal one, if any is pending. */
  lemma BeginKeeps(s: State, step: Step)
    requires Inv(s) && CallsOk(s) && Enabled(s, step) && step.Begin? && !Clashes(s, step.request)
    ensures CallsOk(Do(s, step))
  {
    var s', j := Do(s, step), step.job;
    OthersStay(s, s', step.thread, j);
    forall a, b | Pending(s', a) && Pending(s', b) ensures Agree(s', a, b) {
      assert (a != j ==> SameStage(s, s', a)) && (b != j ==> SameStage(s, s', b));
      if a != j && b != j {
        assert Agree(s, a, b);
      }
    }
    forall a | Kept(s', a) ensures KeptOk(s', a) {
      assert a != j;
      assert SameStage(s, s', a) && KeptOk(s, a);
    }
    forall a | Accepted(s', a) && !Pending(s', a) ensures a in s'.calls.called {
      assert a != j ==> SameStage(s, s', a);
    }
  }

  lemma StoreKeeps(s: State, t: nat)
    requires Inv(s) && CallsOk(s) && Enabled(s, Go(t)) && s.threads[t].phase == Store
    ensures CallsOk(Do(s, Go(t)))
  {
    var s', j := Do(s, Go(t)), s.threads[t].job;
    assert ThreadOk(s, t) && Pending(s, j);
    OthersStay(s, s', t, j);
    forall a, b | Pending(s', a) && Pending(s', b) ensures Agree(s', a, b) {
      assert (a != j ==> SameStage(s, s', a)) && (b != j ==> SameStage(s, s', b)) && Agree(s, a, b);
    }
    forall a | Kept(s', a) ensures KeptOk(s', a) {
      if a != j {
        assert SameStage(s, s', a) && KeptOk(s, a) && Agree(s, a, j);
      }
    }
    forall a | Accepted(s', a) && !Pending(s', a) ensures a in s'.calls.called {
      assert a != j ==> SameStage(s, s', a);
    }
  }

  lemma CallKeeps(s: State, t: nat)
    requires Inv(s) && CallsOk(s) && Enabled(s, Call(t))
    ensures CallsOk(Do(s, Call(t)))
  {
    var s', j := Do(s, Call(t)), s.threads[t].job;
    assert ThreadOk(s, t) && JobOk(s, j) && Kept(s, j) && KeptOk(s, j);
    OthersStay(s, s', t, j);
    forall a, b | Pending(s', a) && Pending(s', b) ensures Agree(s', a, b) {
      assert SameStage(s, s', a) && SameStage(s, s', b) && Agree(s, a, b);
    }
    forall a | Kept(s', a) ensures KeptOk(s', a) {
      assert SameStage(s, s', a) && KeptOk(s, a);
    }
    forall a | Accepted(s', a) && !Pending(s', a) ensures a in s'.calls.called {
      assert a != j ==> SameStage(s, s', a);
    }
  }

  lemma ThreadKeeps(s: State, step: Step)
    requires Inv(s) && CallsOk(s) && Enabled(s, step)
    requires (step.Go? && s.threads[step.thread].phase != Store) || step.PostFails? || step.Deliver? || step.Called?
             || step.Slept? || step.Release? || step.Done?
    ensures CallsOk(Do(s, step))
  {
    var j := if step.Deliver? then step.job else s.threads[step.thread].job;
    assert ThreadOk(s, step.thread) && (j in s.places ==> JobOk(s, j));
    QuietKeeps(s, Do(s, step), step.thread, j);
  }

  lemma RundownKeepsCalls(s: State, r: Rundown.Step)
    requires Inv(s) && CallsOk(s) && Enabled(s, RundownStep(r))
    ensures CallsOk(Do(s, RundownStep(r)))
  {
    var s' := Do(s, RundownStep(r));
    if r.TryEnter? || r.TryLeave? {
      var j := s.threads[r.user].job;
      assert ThreadOk(s, r.user) && (j in s.places ==> JobOk(s, j));
      QuietKeeps(s, s', r.user, j);
    } else {
      SameKeeps(s, s');
    }
  }

  lemma SameKeeps(s: State, s': State)
    requires CallsOk(s) && s'.threads == s.threads && s'.places == s.places && s'.calls == s.calls
    ensures CallsOk(s')
  {
    forall a, b | Pending(s', a) && Pending(s', b) ensures Agree(s', a, b) {
      assert Pending(s, a) && Pending(s, b) && Agree(s, a, b);
    }
    forall a | Kept(s', a) ensures KeptOk(s', a) {
      assert Kept(s, a) && KeptOk(s, a);
    }
    forall a | Accepted(s', a) && !Pending(s', a) ensures a in s'.calls.called {
      assert Accepted(s, a) && !Pending(s, a);
    }
  }

  lemma StepKeepsCalls(s: State, step: Step)
    requires Inv(s) && CallsOk(s) && Enabled(s, step) && (step.Begin? ==> !Clashes(s, step.request))
    ensures CallsOk(Do(s, step))
  {
    match step
    case RundownStep(r) => RundownKeepsCalls(s, r);
    case Begin(_, _, _, _) => BeginKeeps(s, step);
    case Call(t) => CallKeeps(s, t);
    case Poll(_) => SameKeeps(s, Do(s, step));
    case Go(t) =>
      if s.threads[t].phase == Store {
        StoreKeeps(s, t);
      } else {
        ThreadKeeps(s, step);
      }
    case _ => ThreadKeeps(s, step);
  }

  /** mixes says whether a task is queued while another callback of it is pending. */
  ghost predicate RunOf(mixes: bool, states: seq<State>, steps: seq<Step>) {
    && Run(states, steps)
    && forall i :: 0 <= i < |steps| && steps[i].Begin? && !mixes ==> !Clashes(states[i], steps[i].request)
  }

  lemma {:induction false} RunKeepsCalls(states: seq<State>, steps: seq<Step>, i: nat)
    requires RunOf(false, states, steps) && i < |states|
    ensures CallsOk(states[i])
    decreases i
  {
    if i > 0 {
      RunKeepsCalls(states, steps, i - 1);
      RunKeeps(states, steps, i - 1);
      StepKeepsCalls(states[i - 1], steps[i - 1]);
    }
  }

  /** What has been called for a job is the callback that its QueueTask was given. */
  lemma CallsItsOwn(states: seq<State>, steps: seq<Step>, i: nat, j: Job)
    requires RunOf(false, states, steps) && i < |states| && j in states[i].calls.called
    ensures states[i].calls.called[j] == RequestOf(states[i].calls, j).callback
  {
    RunKeepsCalls(states, steps, i);
  }

  /** At the shutdown of the pool that callback has been called for every accepted task, once. */
  lemma AllCalled(states: seq<State>, steps: seq<Step>, i: nat, j: Job)
    requires RunOf(false, states, steps) && i < |states| && states[i].shutdown && Accepted(states[i], j)
    ensures j in states[i].calls.called && states[i].calls.called[j] == RequestOf(states[i].calls, j).callback
    ensures RecordOf(states[i], j).runs == 1
  {
    RunKeepsCalls(states, steps, i);
    AllDone(states, steps, i, j);
  }

  /** Some run leads to the state. */
  ghost predicate Reached(mixes: bool, s: State) {
    exists states: seq<State>, steps: seq<Step> :: RunOf(mixes, states, steps) && states[|steps|] == s
  }

  lemma Onward(s: State, step: Step)
    requires Reached(true, s) && Enabled(s, step)
    ensures Reached(true, Do(s, step))
  {
    var states: seq<State>, steps: seq<Step> :| RunOf(true, states, steps) && states[|steps|] == s;
    var states', steps' := states + [Do(s, step)], steps + [step];
    forall i | 0 <= i < |steps'| ensures Enabled(states'[i], steps'[i]) && states'[i + 1] == Do(states'[i], steps'[i]) {
      assert states'[i] == states[i] && if i < |steps| then steps'[i] == steps[i] else steps'[i] == step;
    }
    assert RunOf(true, states', steps') && states'[|steps'|] == Do(s, step);
  }

  /** QueueTask is inside the rundown protection, and is about to store the callback. */
  function Entered(s: State, t: nat, j: Job, request: Request): State
    requires t < |s.threads| == |s.rundown.users| && s.rundown.word + 1 < HIGH
  {
    s.(rundown := s.rundown.(word := s.rundown.word + 1, users := s.rundown.users[t := Rundown.Inside]),
      threads := s.threads[t := Submit(j, Store, true)], places := s.places[j := Submitting(t)],
      records := s.records[j := Record(0, 0, 0)],
      calls := s.calls.(requests := s.calls.requests[j := request]))
  }

  lemma Enter(s: State, t: nat, j: Job, request: Request)
    requires Reached(true, s) && t < |s.threads| == |s.rundown.users| && s.rundown.word + 1 < HIGH
    requires s.threads[t] == Idle && s.rundown.users[t] == Rundown.Outside && j !in s.places
    ensures Reached(true, Entered(s, t, j, request))
  {
    Onward(s, Begin(t, j, true, request));
    var s1 := Do(s, Begin(t, j, true, request));
    Onward(s1, RundownStep(Rundown.ReadToEnter(t)));
    var s2 := Do(s1, RundownStep(Rundown.ReadToEnter(t)));
    Onward(s2, RundownStep(Rundown.TryEnter(t)));
    assert s.rundown.users[t := Rundown.Entering(s.rundown.word)][t := Rundown.Inside]
        == s.rundown.users[t := Rundown.Inside];
    assert s1.threads[t := Submit(j, Store, true)] == s.threads[t := Submit(j, Store, true)];
  }

  /** The callback is in the task, and the job posted. */
  function Posting(s: State, t: nat, j: Job): State
    requires t < |s.threads|
  {
    s.(threads := s.threads[t := Submit(j, Leave(Success), true)], count := s.count + 1, packets := s.packets + {j},
      places := s.places[j := Posted], records := s.records[j := Record(1, 0, 0)], counted := s.counted + {j},
      calls := Stored(s.calls, j))
  }

  /** Half way there: it is counted. */
  function Counting(s: State, t: nat, j: Job): State
    requires t < |s.threads|
  {
    s.(threads := s.threads[t := Submit(j, AddRef, true)], count := s.count + 1, counted := s.counted + {j},
      calls := Stored(s.calls, j))
  }

  lemma GetCounted(s: State, t: nat, j: Job)
    requires Reached(true, s) && t < |s.threads| == |s.rundown.users| && s.threads[t] == Submit(j, Store, true)
    ensures Reached(true, Counting(s, t, j))
  {
    Onward(s, Go(t));
    var s1 := Do(s, Go(t));
    Onward(s1, Go(t));
    assert s1.threads[t := Submit(j, AddRef, true)] == s.threads[t := Submit(j, AddRef, true)];
  }

  lemma Post(s: State, t: nat, j: Job)
    requires Reached(true, s) && t < |s.threads| == |s.rundown.users|
    requires s.threads[t] == Submit(j, Store, true) && RecordOf(s, j) == Record(0, 0, 0)
    ensures Reached(true, Posting(s, t, j))
  {
    GetCounted(s, t, j);
    var s1 := Counting(s, t, j);
    Onward(s1, Go(t));
    var s2 := Do(s1, Go(t));
    Onward(s2, Go(t));
    assert s2.threads[t := Submit(j, Leave(Success), true)] == s.threads[t := Submit(j, Leave(Success), true)];
  }

  function Begun(): State {
    State(Rundown.State(0, [Rundown.Outside, Rundown.Outside, Rundown.Outside], []), [Idle, Idle, Idle], 0, {}, false,
          map[], map[], {}, Calls(map[], map[], map[]), map[])
  }

  function First(): State {
    Posting(Entered(Begun(), 0, 0, Request(0, 1)), 0, 0)
  }

  lemma PostFirst()
    ensures Reached(true, First())
  {
    var none: seq<Step> := [];
    assert RunOf(true, [Begun()], none) && [Begun()][|none|] == Begun();
    Enter(Begun(), 0, 0, Request(0, 1));
    Post(Entered(Begun(), 0, 0, Request(0, 1)), 0, 0);
  }

  /** Job 0 is posted, and job 1 has put its callback 2 into the task 0. */
  function Overwritten(): State {
    var s := Entered(First(), 1, 1, Request(0, 2));
    s.(threads := s.threads[1 := Submit(1, Increment, true)], calls := Stored(s.calls, 1))
  }

  lemma Overwrite()
    ensures Reached(true, Overwritten())
  {
    PostFirst();
    Enter(First(), 1, 1, Request(0, 2));
    Onward(Entered(First(), 1, 1, Request(0, 2)), Go(1));
  }

  /** A run in which the callback of another QueueTask is called for a job. */
  lemma MixedRun() returns (states: seq<State>, steps: seq<Step>)
    ensures RunOf(true, states, steps)
    ensures var c := states[|steps|].calls; 0 in c.called && c.called[0] == 2 && RequestOf(c, 0).callback == 1
  {
    Overwrite();
    var s := Overwritten();
    Onward(s, Deliver(2, 0));
    s := Do(s, Deliver(2, 0));
    Onward(s, Call(2));
    s := Do(s, Call(2));
    states, steps :| RunOf(true, states, steps) && states[|steps|] == s;
  }

  ghost predicate CallsAnother(mixes: bool, states: seq<State>, steps: seq<Step>, i: nat, j: Job) {
    && RunOf(mixes, states, steps) && i < |states| && j in states[i].calls.called
    && states[i].calls.called[j] != RequestOf(states[i].calls, j).callback
  }

  /** Some run calls a callback that was not the one given for the job, exactly if a task may be queued while it is
      still to call another. */
  lemma CallsAnotherIff(mixes: bool)
    ensures (exists states: seq<State>, steps: seq<Step>, i: nat, j: Job :: CallsAnother(mixes, states, steps, i, j))
            <==> mixes
  {
    if mixes {
      var states, steps := MixedRun();
      assert CallsAnother(true, states, steps, |steps|, 0);
    } else {
      forall states: seq<State>, steps: seq<Step>, i: nat, j: Job | CallsAnother(mixes, states, steps, i, j)
        ensures false
      {
        assert RunOf(false, states, steps);
        CallsItsOwn(states, steps, i, j);
        assert false;
      }
    }
  }
}
