/** Finalize of the thread pool in Source/Threads.cpp comes to its end: its packets reach the workers that wait, and the
    workers leave. */
module ThreadProgress {
  import opened Paths
  import opened Sequences
  import opened ThreadPools

  /** A packet that Finalize posts can be taken by every worker that waits, with or without a timeout. */
  lemma NudgeReaches(s: State, w: Worker)
    requires Enabled(s, Nudge) && w in s.workers && s.workers[w].Waiting?
    ensures Enabled(Do(s, Nudge), DequeueNull(w))
  {
  }

  /** How far a worker is from its end. */
  function Left(l: Labour): nat {
    match l
    case Dequeued(_) => 5
    case Unlinked(_) => 4
    case Running(_) => 3
    case Ran(_) => 2
    case Waiting(_) => 1
    case Ending => 0
  }

  /** Finalize waits for its workers, as it did in s. */
  predicate StillStops(s: State, t: State) {
    t.caller == Stopping && t.held == s.held
  }

  /** A worker goes on with its item, and leaves when it finds a packet without one. */
  lemma WorkerGoesOn(s: State, t: State, w: Worker) returns (t': State)
    requires Leads(Do, s, t) && Inv(t) && StillStops(s, t) && w in t.workers && !t.workers[w].Ending?
    ensures Leads(Do, s, t') && Inv(t') && StillStops(s, t') && t'.workers.Keys == t.workers.Keys
    ensures Left(t'.workers[w]) < Left(t.workers[w])
  {
    var step := match t.workers[w]
      case Dequeued(_) => Unlink(w)
      case Unlinked(_) => Begin(w)
      case Running(_) => End(w)
      case Ran(_) => FreeExecuted(w)
      case _ => CheckWorkers;
    StepKeeps(t, step);
    LeadsOn(Do, s, t, step);
    t' := Do(t, step);
    if t.workers[w].Waiting? {
      t' := NudgeOne(s, t', w);
    }
  }

  lemma NudgeOne(s: State, t: State, w: Worker) returns (t': State)
    requires Leads(Do, s, t) && Inv(t) && t.caller == Nudging && t.held == s.held && w in t.workers
             && t.workers[w].Waiting?
    ensures Leads(Do, s, t') && Inv(t') && StillStops(s, t') && t'.workers == t.workers[w := Ending]
  {
    StepKeeps(t, Nudge);
    LeadsOn(Do, s, t, Nudge);
    t' := Do(t, Nudge);
    StepKeeps(t', DequeueNull(w));
    LeadsOn(Do, s, t', DequeueNull(w));
    t' := Do(t', DequeueNull(w));
  }

  lemma {:induction false} WorkerLeaves(s: State, t: State, w: Worker) returns (t': State)
    requires Leads(Do, s, t) && Inv(t) && StillStops(s, t) && w in t.workers
    ensures Leads(Do, s, t') && Inv(t') && StillStops(s, t') && t'.workers.Keys == t.workers.Keys - {w}
    decreases Left(t.workers[w])
  {
    if t.workers[w].Ending? {
      StepKeeps(t, Leave(w));
      LeadsOn(Do, s, t, Leave(w));
      t' := Do(t, Leave(w));
    } else {
      t' := WorkerGoesOn(s, t, w);
      t' := WorkerLeaves(s, t', w);
    }
  }

  lemma {:induction false} AllLeave(s: State, t: State) returns (t': State)
    requires Leads(Do, s, t) && Inv(t) && StillStops(s, t)
    ensures Leads(Do, s, t') && Inv(t') && t'.caller == Sweeping && t'.held == s.held
    decreases |t.workers.Keys|
  {
    if t.workers.Keys == {} {
      assert |t.workers| == |t.workers.Keys|;
      StepKeeps(t, CheckWorkers);
      LeadsOn(Do, s, t, CheckWorkers);
      t' := Do(t, CheckWorkers);
    } else {
      var w :| w in t.workers;
      t' := WorkerLeaves(s, t, w);
      t' := AllLeave(s, t');
    }
  }

  /** Finalize cancels an item that is left, and frees it. */
  lemma SweepOne(s: State, t: State) returns (t': State)
    requires Leads(Do, s, t) && Inv(t) && t.caller == Sweeping && t.held == s.held && t.list != []
    ensures Leads(Do, s, t') && Inv(t') && t'.caller == Sweeping && t'.held == s.held && |t'.list| < |t.list|
  {
    StepKeeps(t, Sweep);
    LeadsOn(Do, s, t, Sweep);
    t' := Do(t, Sweep);
    StepKeeps(t', CancelItem);
    LeadsOn(Do, s, t', CancelItem);
    t' := Do(t', CancelItem);
    StepKeeps(t', FreeCancelled);
    LeadsOn(Do, s, t', FreeCancelled);
    t' := Do(t', FreeCancelled);
    assert IndexOf(t.list, t.list[0]) < |t.list|;
  }

  lemma {:induction false} AllSwept(s: State, t: State) returns (t': State)
    requires Leads(Do, s, t) && Inv(t) && t.caller == Sweeping && t.held == s.held
    ensures Leads(Do, s, t') && t'.caller == Closing && t'.held == s.held
    decreases |t.list|
  {
    if t.list == [] {
      assert Enabled(t, Sweep);
      LeadsOn(Do, s, t, Sweep);
      t' := Do(t, Sweep);
    } else {
      t' := SweepOne(s, t);
      t' := AllSwept(s, t');
    }
  }

  /** From every reachable state in which Finalize waits for the workers, some steps lead to the close of the port. */
  lemma FinalizeCloses(hook: Hook, states: seq<State>, steps: seq<Step>, k: nat, reopen: bool) returns (t: State)
    requires Run(hook, states, steps) && !hook.starts && k < |states| && states[k].caller == Stopping
    ensures Leads(Do, states[k], t) && t.held == states[k].held && Enabled(t, Close(reopen))
  {
    RunKeeps(hook, states, steps, k);
    var s := states[k];
    LeadsSelf<State, Step>(Do, s);
    t := AllLeave(s, s);
    t := AllSwept(s, t);
  }

  lemma FreshWaits(s: State, step: Step, w: Worker)
    requires Enabled(s, step) && w in s.workers && s.workers[w] == Waiting(true)
    requires step != DequeueNull(w) && !(step.Dequeue? && step.worker == w)
    ensures w in Do(s, step).workers && Do(s, step).workers[w] == Waiting(true)
  {
  }

  /** A worker that QueueTask has started does not end before it has taken a packet. */
  lemma {:induction false} FreshTakes(hook: Hook, states: seq<State>, steps: seq<Step>, k: nat, j: nat, w: Worker)
    requires Run(hook, states, steps) && k < j < |states| && steps[k] == AddWorker(w)
    requires forall m :: k < m < j ==> steps[m] != DequeueNull(w) && !(steps[m].Dequeue? && steps[m].worker == w)
    ensures w in states[j].workers && states[j].workers[w] == Waiting(true)
    decreases j
  {
    if j > k + 1 {
      FreshTakes(hook, states, steps, k, j - 1, w);
      FreshWaits(states[j - 1], steps[j - 1], w);
    }
  }
}
