/** The task queue of Source/TaskQueue.cpp: tasks are posted to a pool of threads, and Finalize waits until
    all of them are done. The pool is a set of packets, of which each is delivered once. */
module TaskQueues {
  import opened LockWords
  import Rundown

  type Job = nat   // one call of QueueTask
  type Task = nat
  type Callback = nat

  datatype Request = Request(task: Task, callback: Callback)

  /** What QueueTask returns: S_OK, E_POINTER, MX_E_Cancelled, or the error of Post. */
  datatype Answer = Success | NullPointer | Cancelled | PostError

  datatype SubmitPhase = Acquire | Store | Increment | AddRef | Post | UndoRef | UndoCount | Leave(answer: Answer)

  datatype ServePhase = Fetch | Callback | Throttle | Sleep | Unthrottle | Unref | Uncount

  /** What a thread does: QueueTask, or OnQueuedTask. A callback that queues a task counts as another thread. */
  datatype Activity =
    | Idle
    | Submit(job: Job, phase: SubmitPhase, valid: bool)
    | Serve(job: Job, stage: ServePhase)

  /** Where a job is. */
  datatype Where = Submitting(submitter: nat) | Posted | Serving(server: nat) | Finished | Refused

  /** What has been done for a job: references taken and released, calls of its callback. */
  datatype Record = Record(adds: nat, releases: nat, runs: nat)

  /** What was asked for, what the tasks have in cCallback, and what has been called for a job. */
  datatype Calls = Calls(requests: map<Job, Request>, tasks: map<Task, Callback>, called: map<Job, Callback>)

  datatype State = State(
    rundown: Rundown.State,
    threads: seq<Activity>,
    count: int,               // nQueuedTasksCount
    packets: set<Job>,        // what the pool has still to deliver
    shutdown: bool,           // Finalize has come to the shutdown of the pool
    places: map<Job, Where>,
    records: map<Job, Record>,
    counted: set<Job>,        // the jobs that nQueuedTasksCount counts
    calls: Calls,
    answers: map<Job, Answer>)  // what QueueTask has returned for a job

  datatype Step =
    | RundownStep(step: Rundown.Step)
    | Begin(thread: nat, job: Job, valid: bool, request: Request)   // valid if neither argument is null
    | Go(thread: nat)                             // the next operation of QueueTask
    | PostFails(thread: nat)
    | Deliver(thread: nat, job: Job)
    | Call(thread: nat)                           // calls what the task has for a callback
    | Called(thread: nat, throttled: bool)        // the callback has returned
    | Slept(thread: nat)
    | Release(thread: nat)
    | Done(thread: nat)
    | Poll(closer: nat)                           // Finalize looks whether tasks are pending

  predicate Acquiring(a: Activity) {
    (a.Submit? && a.phase == Acquire) || (a.Serve? && a.stage == Throttle)
  }

  predicate Releasing(a: Activity) {
    (a.Submit? && a.phase.Leave?) || (a.Serve? && a.stage == Unthrottle)
  }

  predicate Enabled(s: State, step: Step) {
    && |s.threads| == |s.rundown.users|
    && match step
       case RundownStep(r) =>
         && Rundown.Enabled(s.rundown, r)
         && (r.ReadToEnter? || r.TryEnter? ==> Acquiring(s.threads[r.user]))
         && (r.ReadToLeave? || r.TryLeave? ==> Releasing(s.threads[r.user]))
       case Begin(t, j, _, _) => t < |s.threads| && s.threads[t] == Idle && j !in s.places
       case Go(t) => t < |s.threads| && s.threads[t].Submit? && s.threads[t].phase != Acquire
            && !s.threads[t].phase.Leave?
       case PostFails(t) => t < |s.threads| && s.threads[t].Submit? && s.threads[t].phase == Post
       case Deliver(t, j) => t < |s.threads| && s.threads[t] == Idle && j in s.packets
       case Call(t) => t < |s.threads| && s.threads[t].Serve? && s.threads[t].stage == Fetch
       case Called(t, _) => t < |s.threads| && s.threads[t].Serve? && s.threads[t].stage == Callback
       case Slept(t) => t < |s.threads| && s.threads[t].Serve? && s.threads[t].stage == Sleep
       case Release(t) => t < |s.threads| && s.threads[t].Serve? && s.threads[t].stage == Unref
       case Done(t) => t < |s.threads| && s.threads[t].Serve? && s.threads[t].stage == Uncount
       case Poll(c) => c < |s.rundown.closers| && s.rundown.closers[c] == Rundown.Done
  }

  function RecordOf(s: State, j: Job): Record {
    if j in s.records then s.records[j] else Record(0, 0, 0)
  }

  function RequestOf(c: Calls, j: Job): Request {
    if j in c.requests then c.requests[j] else Request(0, 0)
  }

  /** QueueTask keeps the callback in the task. */
  function Stored(c: Calls, j: Job): Calls {
    c.(tasks := c.tasks[RequestOf(c, j).task := RequestOf(c, j).callback])
  }

  /** OnQueuedTask calls what it finds there. */
  function Taken(c: Calls, j: Job): Calls {
    var task := RequestOf(c, j).task;
    if task in c.tasks then c.(called := c.called[j := c.tasks[task]]) else c
  }

  /** QueueTask returns. */
  function Answered(s: State, t: nat, j: Job, answer: Answer): State
    requires t < |s.threads|
  {
    s.(threads := s.threads[t := Idle], answers := s.answers[j := answer])
  }

  /** A thread has tried to enter or to leave the rundown protection, and is now outside, inside, or trying again. */
  function AfterTry(s: State, t: nat, u: Rundown.User): State
    requires t < |s.threads| && (Acquiring(s.threads[t]) || Releasing(s.threads[t]))
  {
    var a := s.threads[t];
    match a
    case Submit(j, Acquire, valid) =>
      if u.Inside? then
        if valid then s.(threads := s.threads[t := a.(phase := Store)])
        else s.(threads := s.threads[t := a.(phase := Leave(NullPointer))], places := s.places[j := Refused])
      else if u.Outside? then
        Answered(s, t, j, if valid then Cancelled else NullPointer).(places := s.places[j := Refused])
      else s
    case Submit(j, Leave(answer), _) => if u.Outside? then Answered(s, t, j, answer) else s
    case Serve(_, Throttle) =>
      if u.Inside? then s.(threads := s.threads[t := a.(stage := Sleep)])
      else if u.Outside? then s.(threads := s.threads[t := a.(stage := Unref)])
      else s
    case Serve(_, Unthrottle) => if u.Outside? then s.(threads := s.threads[t := a.(stage := Unref)]) else s
  }

  /** QueueTask stores the callback, counts the task, takes a reference and posts it; if it cannot, it undoes both. */
  function Gone(s: State, t: nat): State
    requires t < |s.threads| && s.threads[t].Submit? && s.threads[t].phase != Acquire && !s.threads[t].phase.Leave?
  {
    var a := s.threads[t];
    var r := RecordOf(s, a.job);
    match a.phase
    case Store => s.(threads := s.threads[t := a.(phase := Increment)], calls := Stored(s.calls, a.job))
    case Increment => s.(threads := s.threads[t := a.(phase := AddRef)], count := s.count + 1,
           counted := s.counted + {a.job})
    case AddRef => s.(threads := s.threads[t := a.(phase := Post)],
           records := s.records[a.job := r.(adds := r.adds + 1)])
    case Post =>
      s.(threads := s.threads[t := a.(phase := Leave(Success))], packets := s.packets + {a.job},
         places := s.places[a.job := Posted])
    case UndoRef =>
      s.(threads := s.threads[t := a.(phase := UndoCount)],
        records := s.records[a.job := r.(releases := r.releases + 1)])
    case UndoCount =>
      s.(threads := s.threads[t := a.(phase := Leave(PostError))], count := s.count - 1, counted := s.counted - {a.job},
         places := s.places[a.job := Refused])
  }

  function Do(s: State, step: Step): State
    requires Enabled(s, step)
  {
    match step
    case RundownStep(r) =>
      var s1 := s.(rundown := Rundown.Do(s.rundown, r));
      if r.TryEnter? || r.TryLeave? then AfterTry(s1, r.user, s1.rundown.users[r.user]) else s1
    case Begin(t, j, valid, request) =>
      s.(threads := s.threads[t := Submit(j, Acquire, valid)], places := s.places[j := Submitting(t)],
         calls := s.calls.(requests := s.calls.requests[j := request]), records := s.records[j := Record(0, 0, 0)])
    case Go(t) => Gone(s, t)
    case PostFails(t) => s.(threads := s.threads[t := s.threads[t].(phase := UndoRef)])
    case Deliver(t, j) =>
      s.(threads := s.threads[t := Serve(j, Fetch)], packets := s.packets - {j}, places := s.places[j := Serving(t)])
    case Call(t) =>
      var a := s.threads[t];
      s.(threads := s.threads[t := a.(stage := Callback)], calls := Taken(s.calls, a.job))
    case Called(t, throttled) =>
      var a := s.threads[t];
      var r := RecordOf(s, a.job);
      s.(threads := s.threads[t := a.(stage := if throttled then Throttle else Unref)],
         records := s.records[a.job := r.(runs := r.runs + 1)])
    case Slept(t) => s.(threads := s.threads[t := s.threads[t].(stage := Unthrottle)])
    case Release(t) =>
      var a := s.threads[t];
      var r := RecordOf(s, a.job);
      s.(threads := s.threads[t := a.(stage := Uncount)], records := s.records[a.job := r.(releases := r.releases + 1)])
    case Done(t) =>
      var j := s.threads[t].job;
      s.(threads := s.threads[t := Idle], count := s.count - 1, counted := s.counted - {j},
        places := s.places[j := Finished])
    case Poll(_) => if s.count > 0 then s else s.(shutdown := true)
  }

  /** Where a thread must be with its rundown protection. */
  predicate GuardFits(a: Activity, u: Rundown.User) {
    if Acquiring(a) then u.Outside? || u.Entering?
    else if Releasing(a) then u.Inside? || u.Leaving?
    else if a.Submit? || (a.Serve? && a.stage == Sleep) then u.Inside?
    else u.Outside?
  }

  ghost predicate ThreadOk(s: State, t: nat)
    requires t < |s.threads| && t < |s.rundown.users|
  {
    var a := s.threads[t];
    && GuardFits(a, s.rundown.users[t])
    && (a.Submit? && !a.phase.Leave? ==> a.job in s.places && s.places[a.job] == Submitting(t))
    && (a.Submit? && !a.phase.Leave? && a.phase != Acquire ==> a.valid)
    && (a.Serve? ==> a.job in s.places && s.places[a.job] == Serving(t))
  }

  /** What has been done for a job, and whether it is counted, by where it is. */
  ghost predicate JobOk(s: State, j: Job)
    requires j in s.places
  {
    && (j in s.packets <==> s.places[j] == Posted)
    && match s.places[j]
       case Submitting(t) =>
         && t < |s.threads| && s.threads[t].Submit? && s.threads[t].job == j && !s.threads[t].phase.Leave?
         && (match s.threads[t].phase
             case Acquire => RecordOf(s, j) == Record(0, 0, 0) && j !in s.counted
             case Store => RecordOf(s, j) == Record(0, 0, 0) && j !in s.counted
             case Increment => RecordOf(s, j) == Record(0, 0, 0) && j !in s.counted
             case AddRef => RecordOf(s, j) == Record(0, 0, 0) && j in s.counted
             case UndoCount => RecordOf(s, j) == Record(1, 1, 0) && j in s.counted
             case _ => RecordOf(s, j) == Record(1, 0, 0) && j in s.counted)
       case Posted => RecordOf(s, j) == Record(1, 0, 0) && j in s.counted
       case Serving(t) =>
         && t < |s.threads| && s.threads[t].Serve? && s.threads[t].job == j && j in s.counted
         && (match s.threads[t].stage
             case Fetch => RecordOf(s, j) == Record(1, 0, 0)
             case Callback => RecordOf(s, j) == Record(1, 0, 0)
             case Uncount => RecordOf(s, j) == Record(1, 1, 1)
             case _ => RecordOf(s, j) == Record(1, 0, 1))
       case Finished => RecordOf(s, j) == Record(1, 1, 1) && j !in s.counted
       case Refused => RecordOf(s, j).runs == 0 && RecordOf(s, j).adds == RecordOf(s, j).releases && j !in s.counted
  }

  /** The job has been posted. */
  predicate Accepted(s: State, j: Job) {
    j in s.places && (s.places[j].Posted? || s.places[j].Serving? || s.places[j].Finished?)
  }

  ghost predicate Inv(s: State) {
    && |s.threads| == |s.rundown.users| < HIGH && Rundown.Inv(s.rundown)
    && s.count == |s.counted| && s.counted <= s.places.Keys && s.packets <= s.places.Keys
    && (forall t {:trigger ThreadOk(s, t)} :: 0 <= t < |s.threads| ==> ThreadOk(s, t))
    && (forall j {:trigger JobOk(s, j)} :: j in s.places ==> JobOk(s, j))
    && (s.shutdown ==> Rundown.Done in s.rundown.closers && s.counted == {})
  }

  ghost predicate Initial(s: State) {
    && Rundown.Initial(s.rundown) && |s.threads| == |s.rundown.users| < HIGH
    && (forall t :: 0 <= t < |s.threads| ==> s.threads[t] == Idle)
    && s.count == 0 && s.packets == {} && !s.shutdown && s.places == map[] && s.records == map[] && s.counted == {}
    && s.calls == Calls(map[], map[], map[]) && s.answers == map[]
  }

  ghost predicate SameThread(s: State, s': State, t: nat) {
    && t < |s.threads| && t < |s'.threads| && t < |s.rundown.users| && t < |s'.rundown.users|
    && s'.threads[t] == s.threads[t] && s'.rundown.users[t] == s.rundown.users[t]
  }

  ghost predicate SameJob(s: State, s': State, j: Job) {
    && (j in s'.places <==> j in s.places) && (j in s.places ==> s'.places[j] == s.places[j])
    && RecordOf(s', j) == RecordOf(s, j) && (j in s'.counted <==> j in s.counted)
      && (j in s'.packets <==> j in s.packets)
  }

  /** The step from s to s' is about one thread and the jobs js, which no other thread is busy with. */
  ghost predicate Local(s: State, s': State, t: nat, js: set<Job>) {
    && |s'.threads| == |s.threads| == |s'.rundown.users| && t < |s.threads|
    && (forall u {:trigger SameThread(s, s', u)} :: 0 <= u < |s.threads| && u != t ==> SameThread(s, s', u))
    && (forall k {:trigger SameJob(s, s', k)} :: k !in js ==> SameJob(s, s', k))
    && (s.threads[t].Serve? || (s.threads[t].Submit? && !s.threads[t].phase.Leave?) ==> s.threads[t].job in js)
    && (forall j :: j in js && j in s.places ==> s.places[j] in {Submitting(t), Serving(t), Posted})
  }

  lemma LocalKeeps(s: State, s': State, t: nat, js: set<Job>)
    requires Inv(s) && Local(s, s', t, js) && ThreadOk(s', t) && forall j :: j in js && j in s'.places ==> JobOk(s', j)
    requires Rundown.Inv(s'.rundown) && s'.count == |s'.counted|
    requires s'.counted <= s'.places.Keys && s'.packets <= s'.places.Keys
    requires s'.shutdown ==> Rundown.Done in s'.rundown.closers && s'.counted == {}
    ensures Inv(s')
  {
    forall u | 0 <= u < |s'.threads| ensures ThreadOk(s', u) {
      assert ThreadOk(s, u);
      if u != t {
        assert SameThread(s, s', u);
        var a := s.threads[u];
        if a.Submit? || a.Serve? {
          assert a.job !in js ==> SameJob(s, s', a.job);
        }
      }
    }
    forall k | k in s'.places ensures JobOk(s', k) {
      if k !in js {
        assert SameJob(s, s', k) && JobOk(s, k);
        match s.places[k]
        case Submitting(u) => assert u != t ==> SameThread(s, s', u);
        case Serving(u) => assert u != t ==> SameThread(s, s', u);
        case _ =>
      }
    }
  }

  /** After the shutdown nobody is inside QueueTask, and no task is pending. */
  lemma AfterShutdown(s: State, t: nat)
    requires Inv(s) && s.shutdown && t < |s.threads|
    ensures !Rundown.Holds(s.rundown.users[t])
  {
    CountBound(s.rundown.users, t, Rundown.Holds);
  }

  lemma CountKeeps(s: State, t: nat)
    requires Inv(s) && Enabled(s, Go(t)) && s.threads[t].phase == Increment
    ensures Inv(Do(s, Go(t)))
  {
    assert ThreadOk(s, t) && JobOk(s, s.threads[t].job);
    if s.shutdown {
      AfterShutdown(s, t);
    }
    LocalKeeps(s, Do(s, Go(t)), t, {s.threads[t].job});
  }

  lemma GoKeeps(s: State, t: nat)
    requires Inv(s) && Enabled(s, Go(t)) && s.threads[t].phase in {Store, AddRef, Post}
    ensures Inv(Do(s, Go(t)))
  {
    assert ThreadOk(s, t) && JobOk(s, s.threads[t].job);
    LocalKeeps(s, Do(s, Go(t)), t, {s.threads[t].job});
  }

  lemma UndoKeeps(s: State, t: nat)
    requires Inv(s) && Enabled(s, Go(t)) && s.threads[t].phase in {UndoRef, UndoCount}
    ensures Inv(Do(s, Go(t)))
  {
    assert ThreadOk(s, t) && JobOk(s, s.threads[t].job);
    LocalKeeps(s, Do(s, Go(t)), t, {s.threads[t].job});
  }

  lemma SubmitKeeps(s: State, step: Step)
    requires Inv(s) && Enabled(s, step) && (step.Begin? || step.PostFails?)
    ensures Inv(Do(s, step))
  {
    var j := if step.Begin? then step.job else s.threads[step.thread].job;
    assert ThreadOk(s, step.thread) && (j in s.places ==> JobOk(s, j));
    LocalKeeps(s, Do(s, step), step.thread, {j});
  }

  lemma ServeKeeps(s: State, step: Step)
    requires Inv(s) && Enabled(s, step) && (step.Deliver? || step.Call? || step.Called?)
    ensures Inv(Do(s, step))
  {
    var j := if step.Deliver? then step.job else s.threads[step.thread].job;
    assert ThreadOk(s, step.thread) && JobOk(s, j);
    LocalKeeps(s, Do(s, step), step.thread, {j});
  }

  lemma ServedKeeps(s: State, step: Step)
    requires Inv(s) && Enabled(s, step) && (step.Slept? || step.Release? || step.Done?)
    ensures Inv(Do(s, step))
  {
    var j := s.threads[step.thread].job;
    assert ThreadOk(s, step.thread) && JobOk(s, j);
    LocalKeeps(s, Do(s, step), step.thread, {j});
  }

  lemma PollKeeps(s: State, c: nat)
    requires Inv(s) && Enabled(s, Poll(c))
    ensures Inv(Do(s, Poll(c)))
  {
    var s' := Do(s, Poll(c));
    forall t | 0 <= t < |s'.threads| ensures ThreadOk(s', t) {
      assert ThreadOk(s, t);
    }
    forall j | j in s'.places ensures JobOk(s', j) {
      assert JobOk(s, j);
    }
  }

  lemma CloserKeeps(s: State, r: Rundown.Step)
    requires Inv(s) && Enabled(s, RundownStep(r)) && (r.Raise? || r.Check?)
    ensures Inv(Do(s, RundownStep(r)))
  {
    var s' := Do(s, RundownStep(r));
    Rundown.StepKeeps(s.rundown, r);
    if s.shutdown {
      Rundown.DoneStays(s.rundown, r);
    }
    forall t | 0 <= t < |s'.threads| ensures ThreadOk(s', t) {
      assert ThreadOk(s, t);
    }
    forall j | j in s'.places ensures JobOk(s', j) {
      assert JobOk(s, j);
    }
  }

  lemma ReadKeeps(s: State, r: Rundown.Step)
    requires Inv(s) && Enabled(s, RundownStep(r)) && (r.ReadToEnter? || r.ReadToLeave?)
    ensures Inv(Do(s, RundownStep(r)))
  {
    var a := s.threads[r.user];
    var js := if a.Serve? || !a.phase.Leave? then {a.job} else {};
    Rundown.StepKeeps(s.rundown, r);
    assert ThreadOk(s, r.user) && (js != {} ==> JobOk(s, a.job));
    LocalKeeps(s, Do(s, RundownStep(r)), r.user, js);
  }

  lemma SubmitEntersKeeps(s: State, r: Rundown.Step)
    requires Inv(s) && Enabled(s, RundownStep(r)) && r.TryEnter? && s.threads[r.user].Submit?
    requires !Do(s, RundownStep(r)).rundown.users[r.user].Outside?
    ensures Inv(Do(s, RundownStep(r)))
  {
    var a := s.threads[r.user];
    Rundown.StepKeeps(s.rundown, r);
    assert ThreadOk(s, r.user) && JobOk(s, a.job);
    LocalKeeps(s, Do(s, RundownStep(r)), r.user, {a.job});
  }

  lemma SubmitRefusedKeeps(s: State, r: Rundown.Step)
    requires Inv(s) && Enabled(s, RundownStep(r)) && r.TryEnter? && s.threads[r.user].Submit?
    requires Do(s, RundownStep(r)).rundown.users[r.user].Outside?
    ensures Inv(Do(s, RundownStep(r)))
  {
    var a := s.threads[r.user];
    Rundown.StepKeeps(s.rundown, r);
    assert ThreadOk(s, r.user) && JobOk(s, a.job);
    LocalKeeps(s, Do(s, RundownStep(r)), r.user, {a.job});
  }

  lemma SubmitLeaveKeeps(s: State, r: Rundown.Step)
    requires Inv(s) && Enabled(s, RundownStep(r)) && r.TryLeave? && s.threads[r.user].Submit?
    ensures Inv(Do(s, RundownStep(r)))
  {
    Rundown.StepKeeps(s.rundown, r);
    assert ThreadOk(s, r.user);
    LocalKeeps(s, Do(s, RundownStep(r)), r.user, {});
  }

  lemma ServeTryKeeps(s: State, r: Rundown.Step)
    requires Inv(s) && Enabled(s, RundownStep(r)) && (r.TryEnter? || r.TryLeave?) && s.threads[r.user].Serve?
    ensures Inv(Do(s, RundownStep(r)))
  {
    Rundown.StepKeeps(s.rundown, r);
    assert ThreadOk(s, r.user) && JobOk(s, s.threads[r.user].job);
    LocalKeeps(s, Do(s, RundownStep(r)), r.user, {s.threads[r.user].job});
  }

  lemma RundownKeeps(s: State, r: Rundown.Step)
    requires Inv(s) && Enabled(s, RundownStep(r))
    ensures Inv(Do(s, RundownStep(r)))
  {
    if r.Raise? || r.Check? {
      CloserKeeps(s, r);
    } else if r.ReadToEnter? || r.ReadToLeave? {
      ReadKeeps(s, r);
    } else if s.threads[r.user].Submit? && r.TryEnter? {
      if Do(s, RundownStep(r)).rundown.users[r.user].Outside? {
        SubmitRefusedKeeps(s, r);
      } else {
        SubmitEntersKeeps(s, r);
      }
    } else if s.threads[r.user].Submit? {
      SubmitLeaveKeeps(s, r);
    } else {
      ServeTryKeeps(s, r);
    }
  }

  lemma StepKeeps(s: State, step: Step)
    requires Inv(s) && Enabled(s, step)
    ensures Inv(Do(s, step))
  {
    match step
    case RundownStep(r) => RundownKeeps(s, r);
    case Begin(_, _, _, _) => SubmitKeeps(s, step);
    case PostFails(_) => SubmitKeeps(s, step);
    case Go(t) =>
      if s.threads[t].phase == Increment {
        CountKeeps(s, t);
      } else if s.threads[t].phase in {UndoRef, UndoCount} {
        UndoKeeps(s, t);
      } else {
        GoKeeps(s, t);
      }
    case Poll(c) => PollKeeps(s, c);
    case Deliver(_, _) => ServeKeeps(s, step);
    case Call(_) => ServeKeeps(s, step);
    case Called(_, _) => ServeKeeps(s, step);
    case _ => ServedKeeps(s, step);
  }

  ghost predicate Run(states: seq<State>, steps: seq<Step>) {
    && |states| == |steps| + 1 && Initial(states[0])
    && forall i :: 0 <= i < |steps| ==> Enabled(states[i], steps[i]) && states[i + 1] == Do(states[i], steps[i])
  }

  lemma {:induction false} RunKeeps(states: seq<State>, steps: seq<Step>, i: nat)
    requires Run(states, steps) && i < |states|
    ensures Inv(states[i])
    decreases i
  {
    if i == 0 {
      CountNone(states[0].rundown.users, Rundown.Holds);
    } else {
      RunKeeps(states, steps, i - 1);
      StepKeeps(states[i - 1], steps[i - 1]);
    }
  }

  /** When Finalize has come to the shutdown of the pool, every accepted task is done: its callback has run
      once, and its reference has been released. The others never held one for good. */
  lemma AllDone(states: seq<State>, steps: seq<Step>, i: nat, j: Job)
    requires Run(states, steps) && i < |states| && states[i].shutdown
    ensures Accepted(states[i], j) ==> states[i].places[j] == Finished && RecordOf(states[i], j) == Record(1, 1, 1)
    ensures j in states[i].places && !Accepted(states[i], j) ==>
              RecordOf(states[i], j).runs == 0 && RecordOf(states[i], j).adds == RecordOf(states[i], j).releases
    ensures states[i].packets == {} && states[i].count == 0
  {
    var s := states[i];
    RunKeeps(states, steps, i);
    if j in s.places {
      assert JobOk(s, j);
    }
    NothingPosted(s);
  }

  /** After the shutdown QueueTask is not in the middle of its work. */
  lemma NotInside(s: State, t: nat)
    requires Inv(s) && s.shutdown && t < |s.threads|
    ensures s.threads[t].Submit? ==> s.threads[t].phase == Acquire
  {
    AfterShutdown(s, t);
    assert ThreadOk(s, t);
  }

  lemma NothingPosted(s: State)
    requires Inv(s) && s.shutdown
    ensures s.packets == {}
  {
    forall k | k in s.packets ensures k in s.counted {
      assert JobOk(s, k);
    }
  }

  /** A step after the shutdown accepts no task. */
  lemma NoneAcceptedAfter(s: State, step: Step, j: Job)
    requires Inv(s) && s.shutdown && Enabled(s, step)
    ensures Do(s, step).shutdown && (Accepted(Do(s, step), j) <==> Accepted(s, j))
  {
    match step
    case Go(t) => NotInside(s, t);
    case Deliver(_, _) => NothingPosted(s);
    case RundownStep(r) => assert !r.Raise? && !r.Check? ==> ThreadOk(s, r.user);
    case Begin(_, _, _, _) =>
    case Poll(_) =>
    case _ => assert ThreadOk(s, step.thread);
  }

  /** No task is accepted once the shutdown has begun, however long the run goes on. */
  lemma {:induction false} NoneAccepted(states: seq<State>, steps: seq<Step>, i: nat, k: nat, j: Job)
    requires Run(states, steps) && i <= k < |states| && states[i].shutdown
    ensures states[k].shutdown && (Accepted(states[k], j) <==> Accepted(states[i], j))
    decreases k - i
  {
    if i < k {
      NoneAccepted(states, steps, i, k - 1, j);
      RunKeeps(states, steps, k - 1);
      NoneAcceptedAfter(states[k - 1], steps[k - 1], j);
    }
  }
}
