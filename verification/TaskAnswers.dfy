/** What QueueTask of Source/TaskQueue.cpp returns, and what becomes of the task. */
module TaskAnswers {
  import opened LockWords
  import opened TaskQueues
  import Rundown

  /** A call of QueueTask for the job is on its way. */
  ghost predicate InCall(s: State, j: Job) {
    exists t :: 0 <= t < |s.threads| && s.threads[t].Submit? && s.threads[t].job == j
  }

  /** The answer fits what has been done for the job: S_OK exactly if it has been posted, the error of Post exactly if
      the reference that was taken for it has been released, and MX_E_Cancelled only if the queue is closing. */
  ghost predicate AnswerOk(s: State, j: Job, answer: Answer) {
    && j in s.places && !s.places[j].Submitting? && (answer == Success <==> Accepted(s, j))
    && (answer == PostError <==> s.places[j].Refused? && RecordOf(s, j) == Record(1, 1, 0))
    && (answer == Cancelled ==> High(s.rundown.word))
  }

  ghost predicate LeavingOk(s: State, t: nat)
    requires t < |s.threads|
  {
    s.threads[t].Submit? && s.threads[t].phase.Leave? ==> AnswerOk(s, s.threads[t].job, s.threads[t].phase.answer)
  }

  /** Whoever has seen the high bit of the rundown word was right. */
  ghost predicate SeenOk(s: State, u: nat)
    requires u < |s.rundown.users|
  {
    s.rundown.users[u].Entering? && High(s.rundown.users[u].seen) ==> High(s.rundown.word)
  }

  ghost predicate AnswersOk(s: State) {
    && (forall t {:trigger LeavingOk(s, t)} :: 0 <= t < |s.threads| ==> LeavingOk(s, t))
    && (forall j :: j in s.answers ==> AnswerOk(s, j, s.answers[j]))
    && (forall j :: j in s.places ==> j in s.answers || InCall(s, j))
    && (forall u {:trigger SeenOk(s, u)} :: 0 <= u < |s.rundown.users| ==> SeenOk(s, u))
  }

  /** A job that QueueTask is done with stays posted, or refused. */
  ghost predicate Settled(s: State, s': State, j: Job) {
    j in s.places && !s.places[j].Submitting? ==>
      && j in s'.places && !s'.places[j].Submitting? && (Accepted(s', j) <==> Accepted(s, j))
      && (s.places[j].Refused? ==> s'.places[j].Refused? && RecordOf(s', j) == RecordOf(s, j))
  }

  lemma TrySettles(s: State, r: Rundown.Step, j: Job)
    requires Inv(s) && Enabled(s, RundownStep(r))
    ensures Settled(s, Do(s, RundownStep(r)), j)
  {
    if !r.Raise? && !r.Check? {
      assert ThreadOk(s, r.user);
    }
  }

  lemma SubmitSettles(s: State, step: Step, j: Job)
    requires Inv(s) && Enabled(s, step) && (step.Begin? || step.Go? || step.PostFails?)
    ensures Settled(s, Do(s, step), j)
  {
    assert ThreadOk(s, step.thread);
  }

  lemma ServeSettles(s: State, step: Step, j: Job)
    requires Inv(s) && Enabled(s, step) && (step.Call? || step.Called? || step.Slept? || step.Release? || step.Done?)
    ensures Settled(s, Do(s, step), j)
  {
    assert ThreadOk(s, step.thread);
  }

  lemma StaysSettled(s: State, step: Step, j: Job)
    requires Inv(s) && Enabled(s, step)
    ensures Settled(s, Do(s, step), j)
  {
    match step
    case RundownStep(r) => TrySettles(s, r, j);
    case Begin(_, _, _, _) => SubmitSettles(s, step, j);
    case Go(_) => SubmitSettles(s, step, j);
    case PostFails(_) => SubmitSettles(s, step, j);
    case Poll(_) =>
    case Deliver(_, k) => assert JobOk(s, k);
    case _ => ServeSettles(s, step, j);
  }

  /** The high bit of the rundown word is there for good. */
  lemma RaisedStays(s: Rundown.State, r: Rundown.Step)
    requires Rundown.Inv(s) && |s.users| < HIGH && Rundown.Enabled(s, r) && High(s.word)
    ensures High(Rundown.Do(s, r).word)
  {
    Rundown.StepKeeps(s, r);
    var c :| 0 <= c < |s.closers| && s.closers[c] != Rundown.Idle;
    assert Rundown.Do(s, r).closers[c] != Rundown.Idle;
  }

  lemma HighStays(s: State, step: Step)
    requires Inv(s) && Enabled(s, step) && High(s.rundown.word)
    ensures High(Do(s, step).rundown.word)
  {
    if step.RundownStep? {
      RaisedStays(s.rundown, step.step);
    }
  }

  lemma AnswerStays(s: State, step: Step, j: Job, answer: Answer)
    requires Inv(s) && Enabled(s, step) && AnswerOk(s, j, answer)
    ensures AnswerOk(Do(s, step), j, answer)
  {
    StaysSettled(s, step, j);
    if High(s.rundown.word) {
      HighStays(s, step);
    }
  }

  /** A thread that has not changed is in the same call. */
  lemma CallStays(s: State, s': State, t: nat, j: Job)
    requires InCall(s, j) && |s'.threads| == |s.threads| && t < |s.threads|
    requires forall u :: 0 <= u < |s.threads| && u != t ==> s'.threads[u] == s.threads[u]
    requires s.threads[t].Submit? ==>
               (s'.threads[t].Submit? && s'.threads[t].job == s.threads[t].job) || s.threads[t].job in s'.answers
    ensures j in s'.answers || InCall(s', j)
  {
    var u :| 0 <= u < |s.threads| && s.threads[u].Submit? && s.threads[u].job == j;
    assert j in s'.answers || (s'.threads[u].Submit? && s'.threads[u].job == j);
  }

  lemma AnswersStay(s: State, step: Step)
    requires Inv(s) && AnswersOk(s) && Enabled(s, step)
    ensures forall j :: j in s.answers ==> AnswerOk(Do(s, step), j, s.answers[j])
    ensures forall t {:trigger LeavingOk(s, t)} ::
              0 <= t < |s.threads| && s.threads[t].Submit? && s.threads[t].phase.Leave? ==>
              AnswerOk(Do(s, step), s.threads[t].job, s.threads[t].phase.answer)
  {
    forall j | j in s.answers ensures AnswerOk(Do(s, step), j, s.answers[j]) {
      AnswerStays(s, step, j, s.answers[j]);
    }
    forall t | 0 <= t < |s.threads| && s.threads[t].Submit? && s.threads[t].phase.Leave?
      ensures AnswerOk(Do(s, step), s.threads[t].job, s.threads[t].phase.answer)
    {
      assert LeavingOk(s, t);
      AnswerStays(s, step, s.threads[t].job, s.threads[t].phase.answer);
    }
  }

  lemma SeenStays(s: State, r: Rundown.Step)
    requires Inv(s) && AnswersOk(s) && Enabled(s, RundownStep(r))
    ensures var s' := Do(s, RundownStep(r)); forall u :: 0 <= u < |s'.rundown.users| ==> SeenOk(s', u)
  {
    var s' := Do(s, RundownStep(r));
    if High(s.rundown.word) {
      HighStays(s, RundownStep(r));
    }
    forall u | 0 <= u < |s'.rundown.users| ensures SeenOk(s', u) {
      assert SeenOk(s, u);
    }
  }

  /** The thread goes on with its call, or returns from it. */
  ghost predicate GoesOn(s: State, s': State, t: nat) {
    && t < |s.threads| == |s'.threads| && s'.threads == s.threads[t := s'.threads[t]]
    && s'.places.Keys == s.places.Keys && s.answers.Keys <= s'.answers.Keys
    && (s.threads[t].Submit? ==>
          (s'.threads[t].Submit? && s'.threads[t].job == s.threads[t].job) || s.threads[t].job in s'.answers)
  }

  lemma CallsGoOn(s: State, s': State, t: nat)
    requires AnswersOk(s) && GoesOn(s, s', t)
    requires forall u {:trigger LeavingOk(s', u)} :: 0 <= u < |s'.threads| ==> LeavingOk(s', u)
    requires forall u {:trigger SeenOk(s', u)} :: 0 <= u < |s'.rundown.users| ==> SeenOk(s', u)
    requires forall j :: j in s'.answers ==> AnswerOk(s', j, s'.answers[j])
    ensures AnswersOk(s')
  {
    forall j | j in s'.places && j !in s'.answers ensures InCall(s', j) {
      CallStays(s, s', t, j);
    }
  }

  /** The thread that tries to enter or to leave. */
  lemma TryGoesOn(s: State, r: Rundown.Step)
    requires Inv(s) && Enabled(s, RundownStep(r)) && (r.TryEnter? || r.TryLeave?)
    ensures var s', a := Do(s, RundownStep(r)), s.threads[r.user];
            && GoesOn(s, s', r.user)
            && (forall j :: j in s'.answers ==> (a.Submit? && j == a.job) || j in s.answers)
            && (forall j :: j in s.answers && !(a.Submit? && j == a.job) ==> s'.answers[j] == s.answers[j])
  {
    assert ThreadOk(s, r.user);
  }

  lemma TryLeaving(s: State, r: Rundown.Step)
    requires Inv(s) && AnswersOk(s) && Enabled(s, RundownStep(r)) && (r.TryEnter? || r.TryLeave?)
    ensures LeavingOk(Do(s, RundownStep(r)), r.user)
  {
    AnswersStay(s, RundownStep(r));
    assert ThreadOk(s, r.user) && LeavingOk(s, r.user);
    assert s.threads[r.user].job in s.places ==> JobOk(s, s.threads[r.user].job);
  }

  /** No thread is still in a call that has been answered. */
  lemma TryAnswersOnce(s: State, r: Rundown.Step)
    requires Inv(s) && AnswersOk(s) && Enabled(s, RundownStep(r)) && (r.TryEnter? || r.TryLeave?)
    requires s.threads[r.user].Submit? && s.threads[r.user].job in Do(s, RundownStep(r)).answers
    ensures var s' := Do(s, RundownStep(r)); AnswerOk(s', s.threads[r.user].job, s'.answers[s.threads[r.user].job])
  {
    var j := s.threads[r.user].job;
    if j in s.answers {
      AnswerStays(s, RundownStep(r), j, s.answers[j]);
    }
    AnswersStay(s, RundownStep(r));
    if High(s.rundown.word) {
      RaisedStays(s.rundown, r);
    }
    assert ThreadOk(s, r.user) && LeavingOk(s, r.user) && SeenOk(s, r.user);
    assert j in s.places ==> JobOk(s, j);
  }

  lemma TryKeepsAnswers(s: State, r: Rundown.Step)
    requires Inv(s) && AnswersOk(s) && Enabled(s, RundownStep(r)) && (r.TryEnter? || r.TryLeave?)
    ensures AnswersOk(Do(s, RundownStep(r)))
  {
    var s' := Do(s, RundownStep(r));
    TryGoesOn(s, r);
    TryLeaving(s, r);
    AnswersStay(s, RundownStep(r));
    SeenStays(s, r);
    forall j | j in s'.answers ensures AnswerOk(s', j, s'.answers[j]) {
      if s.threads[r.user].Submit? && j == s.threads[r.user].job {
        TryAnswersOnce(s, r);
      }
    }
    forall t | 0 <= t < |s'.threads| ensures LeavingOk(s', t) {
      assert LeavingOk(s, t);
    }
    CallsGoOn(s, s', r.user);
  }

  /** A step that changes no thread and no answer. */
  lemma QuietKeepsAnswers(s: State, step: Step)
    requires Inv(s) && AnswersOk(s) && Enabled(s, step)
    requires step.Poll? || (step.RundownStep? && !step.step.TryEnter? && !step.step.TryLeave?)
    ensures AnswersOk(Do(s, step))
  {
    var s' := Do(s, step);
    AnswersStay(s, step);
    if step.RundownStep? {
      SeenStays(s, step.step);
    } else {
      assert forall u :: 0 <= u < |s.rundown.users| && SeenOk(s, u) ==> SeenOk(s', u);
    }
    forall j | j in s'.places && j !in s'.answers ensures InCall(s', j) {
      assert InCall(s, j);
    }
    forall t | 0 <= t < |s'.threads| ensures LeavingOk(s', t) {
      assert LeavingOk(s, t);
    }
  }

  lemma StepKeepsAnswers(s: State, step: Step)
    requires Inv(s) && AnswersOk(s) && Enabled(s, step)
    ensures AnswersOk(Do(s, step))
  {
    match step
    case RundownStep(r) =>
      if r.TryEnter? || r.TryLeave? {
        TryKeepsAnswers(s, r);
      } else {
        QuietKeepsAnswers(s, step);
      }
    case Poll(_) => QuietKeepsAnswers(s, step);
    case Begin(_, _, _, _) => BeginKeepsAnswers(s, step);
    case Go(_) => SubmitKeepsAnswers(s, step);
    case PostFails(_) => SubmitKeepsAnswers(s, step);
    case _ => ServeKeepsAnswers(s, step);
  }

  lemma BeginKeepsAnswers(s: State, step: Step)
    requires Inv(s) && AnswersOk(s) && Enabled(s, step) && step.Begin?
    ensures AnswersOk(Do(s, step))
  {
    var s', t := Do(s, step), step.thread;
    AnswersStay(s, step);
    assert forall u :: 0 <= u < |s.rundown.users| && SeenOk(s, u) ==> SeenOk(s', u);
    assert ThreadOk(s, t);
    forall u | 0 <= u < |s'.threads| ensures LeavingOk(s', u) {
      assert LeavingOk(s, u);
    }
    forall j | j in s'.places && j !in s'.answers ensures InCall(s', j) {
      if j in s.places {
        CallStays(s, s', t, j);
      } else {
        assert s'.threads[t].Submit? && s'.threads[t].job == j;
      }
    }
  }

  lemma SubmitLeaves(s: State, step: Step, u: nat)
    requires Inv(s) && AnswersOk(s) && Enabled(s, step) && (step.Go? || step.PostFails?) && u < |s.threads|
    ensures LeavingOk(Do(s, step), u)
  {
    assert ThreadOk(s, step.thread) && LeavingOk(s, u) && JobOk(s, s.threads[step.thread].job);
    if u != step.thread && s.threads[u].Submit? && s.threads[u].phase.Leave? {
      AnswerStays(s, step, s.threads[u].job, s.threads[u].phase.answer);
    }
  }

  lemma SubmitGoesOn(s: State, step: Step)
    requires Inv(s) && Enabled(s, step) && (step.Go? || step.PostFails?)
    ensures GoesOn(s, Do(s, step), step.thread)
    ensures Do(s, step).answers == s.answers && Do(s, step).rundown == s.rundown
  {
    assert ThreadOk(s, step.thread);
  }

  lemma SubmitKeepsAnswers(s: State, step: Step)
    requires Inv(s) && AnswersOk(s) && Enabled(s, step) && (step.Go? || step.PostFails?)
    ensures AnswersOk(Do(s, step))
  {
    SubmitGoesOn(s, step);
    var s' := Do(s, step);
    forall u | 0 <= u < |s'.threads| ensures LeavingOk(s', u) {
      SubmitLeaves(s, step, u);
    }
    forall j | j in s'.answers ensures AnswerOk(s', j, s'.answers[j]) {
      AnswerStays(s, step, j, s.answers[j]);
    }
    assert forall u :: 0 <= u < |s.rundown.users| && SeenOk(s, u) ==> SeenOk(s', u);
    CallsGoOn(s, s', step.thread);
  }

  lemma ServeKeepsAnswers(s: State, step: Step)
    requires Inv(s) && AnswersOk(s) && Enabled(s, step)
    requires step.Deliver? || step.Call? || step.Called? || step.Slept? || step.Release? || step.Done?
    ensures AnswersOk(Do(s, step))
  {
    var s', t := Do(s, step), step.thread;
    AnswersStay(s, step);
    assert forall u :: 0 <= u < |s.rundown.users| && SeenOk(s, u) ==> SeenOk(s', u);
    assert ThreadOk(s, t);
    forall u | 0 <= u < |s'.threads| ensures LeavingOk(s', u) {
      assert LeavingOk(s, u);
    }
    forall j | j in s'.places && j !in s'.answers ensures InCall(s', j) {
      CallStays(s, s', t, j);
    }
  }

  lemma {:induction false} RunKeepsAnswers(states: seq<State>, steps: seq<Step>, i: nat)
    requires Run(states, steps) && i < |states|
    ensures AnswersOk(states[i])
    decreases i
  {
    if i > 0 {
      RunKeepsAnswers(states, steps, i - 1);
      RunKeeps(states, steps, i - 1);
      StepKeepsAnswers(states[i - 1], steps[i - 1]);
    }
  }

  /** In every reachable state: what a QueueTask has returned, or is about to return, is S_OK exactly if the task has
      been posted, and it is MX_E_Cancelled only if Finalize has been called. */
  lemma AnswerIs(states: seq<State>, steps: seq<Step>, i: nat, t: nat)
    requires Run(states, steps) && i < |states|
    ensures forall j :: j in states[i].answers ==>
              && (states[i].answers[j] == Success <==> Accepted(states[i], j))
              && (states[i].answers[j] == PostError <==> RecordOf(states[i], j) == Record(1, 1, 0))
              && (states[i].answers[j] == Cancelled ==> Rundown.Closing(states[i].rundown))
    ensures t < |states[i].threads| && states[i].threads[t].Submit? && states[i].threads[t].phase.Leave? ==>
              (states[i].threads[t].phase.answer == Success <==> Accepted(states[i], states[i].threads[t].job))
  {
    var s := states[i];
    RunKeeps(states, steps, i);
    RunKeepsAnswers(states, steps, i);
    forall j | j in s.answers
      ensures s.answers[j] == Success <==> Accepted(s, j)
      ensures s.answers[j] == Cancelled ==> Rundown.Closing(s.rundown)
      ensures s.answers[j] == PostError <==> RecordOf(s, j) == Record(1, 1, 0)
    {
      assert AnswerOk(s, j, s.answers[j]) && JobOk(s, j);
    }
    if t < |s.threads| {
      assert LeavingOk(s, t);
    }
  }

  /** When Finalize has come to the shutdown of the pool, every QueueTask has returned, or has still to find out
      that the queue is closing. If it has returned S_OK, its task is done: the callback has run once, the reference
      has been released once. If it has returned an error, the callback has never run. */
  lemma ReturnedAllDone(states: seq<State>, steps: seq<Step>, i: nat, j: Job)
    requires Run(states, steps) && i < |states| && states[i].shutdown && j in states[i].places
    ensures j !in states[i].answers ==>
              exists t :: 0 <= t < |states[i].threads| && states[i].threads[t].Submit? && states[i].threads[t].job == j
                && states[i].threads[t].phase == Acquire
    ensures j in states[i].answers && states[i].answers[j] == Success ==> RecordOf(states[i], j) == Record(1, 1, 1)
    ensures j in states[i].answers && states[i].answers[j] != Success ==>
              RecordOf(states[i], j).runs == 0 && RecordOf(states[i], j).adds == RecordOf(states[i], j).releases
  {
    var s := states[i];
    RunKeeps(states, steps, i);
    RunKeepsAnswers(states, steps, i);
    AllDone(states, steps, i, j);
    if j !in s.answers {
      var t :| 0 <= t < |s.threads| && s.threads[t].Submit? && s.threads[t].job == j;
      NotInside(s, t);
      assert ThreadOk(s, t);
    } else {
      assert AnswerOk(s, j, s.answers[j]);
    }
  }

  /** The thread, if it is in the QueueTask of the job, has been given a null pointer unless valid. */
  ghost predicate GivenAt(s: State, t: nat, j: Job, valid: bool)
    requires t < |s.threads|
  {
    var a := s.threads[t];
    a.Submit? && a.job == j ==> a.valid == valid && (a.phase.Leave? ==> (a.phase.answer == NullPointer <==> !valid))
  }

  ghost predicate GivenOk(s: State, j: Job, valid: bool) {
    && j in s.places && (j in s.answers ==> (s.answers[j] == NullPointer <==> !valid))
    && (forall t {:trigger GivenAt(s, t, j, valid)} :: 0 <= t < |s.threads| ==> GivenAt(s, t, j, valid))
  }

  /** The step is about the thread t, and the thread is as GivenAt says after it if it was so before. */
  ghost predicate GivenStays(s: State, s': State, t: nat, j: Job, valid: bool) {
    && t < |s.threads| == |s'.threads| && s'.threads == s.threads[t := s'.threads[t]]
    && (GivenAt(s, t, j, valid) ==> GivenAt(s', t, j, valid))
    && (j in s.places ==> j in s'.places)
    && (j in s'.answers ==>
          || (j in s.answers && s'.answers[j] == s.answers[j])
          || (GivenAt(s, t, j, valid) ==> (s'.answers[j] == NullPointer <==> !valid)))
  }

  lemma GivenKept(s: State, s': State, t: nat, j: Job, valid: bool)
    requires GivenOk(s, j, valid) && GivenStays(s, s', t, j, valid)
    ensures GivenOk(s', j, valid)
  {
    assert GivenAt(s, t, j, valid);
    forall u | 0 <= u < |s'.threads| ensures GivenAt(s', u, j, valid) {
      assert GivenAt(s, u, j, valid);
    }
  }

  lemma TryKeepsGiven(s: State, r: Rundown.Step, j: Job, valid: bool)
    requires Inv(s) && Enabled(s, RundownStep(r)) && (r.TryEnter? || r.TryLeave?)
    ensures GivenStays(s, Do(s, RundownStep(r)), r.user, j, valid)
  {
    assert ThreadOk(s, r.user);
  }

  lemma SubmitKeepsGiven(s: State, step: Step, j: Job, valid: bool)
    requires Inv(s) && Enabled(s, step) && (step.Go? || step.PostFails?)
    ensures GivenStays(s, Do(s, step), step.thread, j, valid)
  {
    assert ThreadOk(s, step.thread);
  }

  lemma ServeKeepsGiven(s: State, step: Step, j: Job, valid: bool)
    requires Inv(s) && Enabled(s, step) && j in s.places
    requires step.Begin? || step.Deliver? || step.Call? || step.Called? || step.Slept? || step.Release? || step.Done?
    ensures GivenStays(s, Do(s, step), step.thread, j, valid)
  {
  }

  lemma StepKeepsGiven(s: State, step: Step, j: Job, valid: bool)
    requires Inv(s) && Enabled(s, step) && GivenOk(s, j, valid)
    ensures GivenOk(Do(s, step), j, valid)
  {
    if step.Poll? || (step.RundownStep? && !step.step.TryEnter? && !step.step.TryLeave?) {
      forall u | 0 <= u < |s.threads| ensures GivenAt(Do(s, step), u, j, valid) {
        assert GivenAt(s, u, j, valid);
      }
    } else {
      var t := if step.RundownStep? then step.step.user else step.thread;
      if step.RundownStep? {
        TryKeepsGiven(s, step.step, j, valid);
      } else if step.Go? || step.PostFails? {
        SubmitKeepsGiven(s, step, j, valid);
      } else {
        ServeKeepsGiven(s, step, j, valid);
      }
      GivenKept(s, Do(s, step), t, j, valid);
    }
  }

  lemma {:induction false} RunKeepsGiven(states: seq<State>, steps: seq<Step>, i: nat, k: nat, j: Job, valid: bool)
    requires Run(states, steps) && i <= k < |states| && GivenOk(states[i], j, valid)
    ensures GivenOk(states[k], j, valid)
    decreases k - i
  {
    if i < k {
      RunKeepsGiven(states, steps, i, k - 1, j, valid);
      RunKeeps(states, steps, k - 1);
      StepKeepsGiven(states[k - 1], steps[k - 1], j, valid);
    }
  }

  /** A thread is only in a QueueTask that has been called. */
  lemma InPlaces(s: State, t: nat)
    requires Inv(s) && AnswersOk(s) && t < |s.threads| && s.threads[t].Submit?
    ensures s.threads[t].job in s.places
  {
    assert ThreadOk(s, t) && LeavingOk(s, t);
  }

  lemma BeginGives(s: State, step: Step)
    requires Inv(s) && AnswersOk(s) && Enabled(s, step) && step.Begin?
    ensures GivenOk(Do(s, step), step.job, step.valid)
  {
    var s' := Do(s, step);
    assert step.job in s.answers ==> AnswerOk(s, step.job, s.answers[step.job]);
    forall t | 0 <= t < |s'.threads| ensures GivenAt(s', t, step.job, step.valid) {
      if t != step.thread && s.threads[t].Submit? {
        InPlaces(s, t);
      }
    }
  }

  /** QueueTask returns E_POINTER exactly if it has been given a null pointer. */
  lemma NullPointerIff(states: seq<State>, steps: seq<Step>, i: nat, k: nat)
    requires Run(states, steps) && i < k < |states| && steps[i].Begin? && steps[i].job in states[k].answers
    ensures states[k].answers[steps[i].job] == NullPointer <==> !steps[i].valid
  {
    RunKeeps(states, steps, i);
    RunKeepsAnswers(states, steps, i);
    BeginGives(states[i], steps[i]);
    RunKeepsGiven(states, steps, i + 1, k, steps[i].job, steps[i].valid);
  }
}
