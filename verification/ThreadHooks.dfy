/** What an OnTaskCancelled that queues a task can do to the thread pool of Source/Threads.cpp: Finalize is taking
    the items that are left, and a worker that starts takes them too. */
module ThreadHooks {
  import opened Sequences
  import opened ThreadPools

  /** Some run leads to the state. */
  ghost predicate Reached(hook: Hook, s: State) {
    exists states: seq<State>, steps: seq<Step> :: Run(hook, states, steps) && states[|steps|] == s
  }

  lemma Extend(hook: Hook, states: seq<State>, steps: seq<Step>, step: Step)
    requires Run(hook, states, steps) && Enabled(states[|steps|], step) && Grants(hook, states[|steps|], step)
    ensures Run(hook, states + [Do(states[|steps|], step)], steps + [step])
  {
    var states', steps' := states + [Do(states[|steps|], step)], steps + [step];
    forall i | 0 <= i < |steps'|
      ensures Enabled(states'[i], steps'[i]) && Grants(hook, states'[i], steps'[i])
              && states'[i + 1] == Do(states'[i], steps'[i])
    {
      assert states'[i] == states[i] && if i < |steps| then steps'[i] == steps[i] else steps'[i] == step;
    }
  }

  lemma Onward(hook: Hook, s: State, step: Step)
    requires Reached(hook, s) && Enabled(s, step) && Grants(hook, s, step)
    ensures Reached(hook, Do(s, step))
  {
    var states: seq<State>, steps: seq<Step> :| Run(hook, states, steps) && states[|steps|] == s;
    var s' := Do(s, step);
    Extend(hook, states, steps, step);
    assert (states + [s'])[|steps + [step]|] == s';
  }

  /** The step can be taken. */
  predicate Next(hook: Hook, s: State, step: Step) {
    Enabled(s, step) && Grants(hook, s, step)
  }

  /** Three steps on. */
  lemma Three(hook: Hook, s: State, a: Step, b: Step, c: Step) returns (s': State)
    requires Next(hook, s, a) && Next(hook, Do(s, a), b) && Next(hook, Do(Do(s, a), b), c)
    ensures s' == Do(Do(Do(s, a), b), c) && (Reached(hook, s) ==> Reached(hook, s'))
  {
    s' := Do(Do(Do(s, a), b), c);
    if Reached(hook, s) {
      Onward(hook, s, a);
      Onward(hook, Do(s, a), b);
      Onward(hook, Do(Do(s, a), b), c);
    }
  }

  function Opened(): State {
    State(true, [], {}, 0, 0, map[], Nobody, [], map[], map[])
  }

  /** The first item, and a worker for it. */
  function Queued(): State {
    Opened().(list := [0], port := {0}, count := 1, workers := map[1 := Waiting(true)], places := map[0 := InPort],
      records := map[0 := Record(true, 0, 0, 0)])
  }

  /** A worker has executed its first item, and ends because there is none for it. */
  function Timed(): State {
    Opened().(count := 1, workers := map[1 := Ending], places := map[0 := Freed],
      records := map[0 := Record(true, 1, 0, 1)])
  }

  /** It still counted as a worker while the next item was posted. */
  function Stuck(): State {
    Opened().(list := [1], port := {1}, places := map[0 := Freed, 1 := InPort],
      records := map[0 := Record(true, 1, 0, 1), 1 := Record(true, 0, 0, 0)])
  }

  /** So Finalize cancels it. */
  function Hooked(): State {
    Stuck().(list := [], caller := Cancelling(1), places := map[0 := Freed, 1 := ByCaller])
  }

  lemma Initialize(hook: Hook)
    ensures Reached(hook, Opened())
  {
    var s := Opened().(open := false);
    var none: seq<Step> := [];
    assert Run(hook, [s], none) && [s][|none|] == s;
    s := Three(hook, s, LockFinalize, Sweep, Close(true));
  }

  /** QueueTask has posted the item, and returns. */
  function Posted(s: State, i: Item): State {
    Returned(s.(list := s.list + [i], port := s.port + {i}, places := s.places[i := InPort],
             records := s.records[i := Record(true, 0, 0, 0)]))
  }

  /** It is about to. */
  function Linking(s: State, i: Item): State {
    s.(caller := Linked(i), list := s.list + [i], places := s.places[i := ByCaller],
      records := s.records[i := Record(false, 0, 0, 0)])
  }

  lemma LinkOne(hook: Hook, s: State, i: Item)
    requires Reached(hook, s) && s.caller == Ready && i !in s.places
    ensures Reached(hook, Linking(s, i))
  {
    Onward(hook, s, Make(i));
    Onward(hook, Do(s, Make(i)), Link);
  }

  lemma LinkedThenPosted(s: State, i: Item)
    ensures Do(Linking(s, i), Post(true)) == Posted(s, i)
  {
    var s', t := Do(Linking(s, i), Post(true)), Posted(s, i);
    assert s'.places == t.places && s'.records == t.records;
  }

  lemma PostOne(hook: Hook, s: State, i: Item)
    requires Reached(hook, s) && s.caller == Ready && i !in s.places && (s.held != [] ==> hook.posts)
    ensures Reached(hook, Posted(s, i))
  {
    LinkOne(hook, s, i);
    LinkedThenPosted(s, i);
    Onward(hook, Linking(s, i), Post(true));
  }

  lemma QueueOne(hook: Hook)
    ensures Reached(hook, Queued())
  {
    Initialize(hook);
    var s := Three(hook, Opened(), LockQueue, AddWorker(1), Enough);
    PostOne(hook, s, 0);
    assert Posted(s, 0) == Queued();
  }

  /** A worker takes a packet and is about to execute the item. */
  function Taken(s: State, w: Worker, i: Item): State {
    s.(workers := s.workers[w := Unlinked(i)], port := s.port - {i}, list := Without(s.list, i),
      places := s.places[i := By(w)], records := s.records[i := RecordOf(s, i)])
  }

  lemma Take(hook: Hook, s: State, w: Worker, i: Item)
    requires Reached(hook, s) && !s.caller.Linked? && i in s.port && w in s.workers && s.workers[w].Waiting?
    ensures Reached(hook, Taken(s, w, i))
  {
    assert s.workers[w := Dequeued(i)][w := Unlinked(i)] == s.workers[w := Unlinked(i)];
    Onward(hook, s, Dequeue(w, i));
    Onward(hook, Do(s, Dequeue(w, i)), Unlink(w));
  }

  /** It has executed and freed the item. */
  function Executed(s: State, w: Worker, i: Item): State {
    var r := RecordOf(s, i);
    s.(workers := s.workers[w := Waiting(false)], places := s.places[i := Freed],
      records := s.records[i := r.(executed := r.executed + 1, freed := r.freed + 1)])
  }

  function Done(s: State, w: Worker, i: Item): State {
    s.(workers := s.workers[w := Ran(i)], places := s.places[i := By(w)],
      records := s.records[i := RecordOf(s, i).(executed := RecordOf(s, i).executed + 1)])
  }

  lemma BegunThenDone(s: State, w: Worker, i: Item)
    requires w in s.workers && s.workers[w] == Unlinked(i)
    ensures Enabled(Do(s, Begin(w)), End(w)) && Do(Do(s, Begin(w)), End(w)) == Done(s, w, i)
  {
    assert Do(Do(s, Begin(w)), End(w)).workers == Done(s, w, i).workers;
  }

  lemma Finish(hook: Hook, s: State, w: Worker, i: Item)
    requires Reached(hook, s) && w in s.workers && s.workers[w] == Unlinked(i)
    ensures Reached(hook, Done(s, w, i))
  {
    BegunThenDone(s, w, i);
    Onward(hook, s, Begin(w));
    Onward(hook, Do(s, Begin(w)), End(w));
  }

  lemma DoneThenFreed(s: State, w: Worker, i: Item)
    ensures Enabled(Done(s, w, i), FreeExecuted(w))
    ensures Do(Done(s, w, i), FreeExecuted(w)) == Executed(s, w, i)
  {
    var s', t := Do(Done(s, w, i), FreeExecuted(w)), Executed(s, w, i);
    assert s'.workers == t.workers && s'.places == t.places && s'.records == t.records;
  }

  lemma Execute(hook: Hook, s: State, w: Worker, i: Item)
    requires Reached(hook, s) && w in s.workers && s.workers[w] == Unlinked(i)
    ensures Reached(hook, Executed(s, w, i))
  {
    Finish(hook, s, w, i);
    DoneThenFreed(s, w, i);
    Onward(hook, Done(s, w, i), FreeExecuted(w));
  }

  function OneInHand(): State {
    Queued().(list := [], port := {}, workers := map[1 := Unlinked(0)], places := map[0 := By(1)])
  }

  lemma OneTaken()
    ensures Taken(Queued(), 1, 0) == OneInHand()
  {
    assert Taken(Queued(), 1, 0).workers == OneInHand().workers;
    assert Taken(Queued(), 1, 0).places == OneInHand().places;
    assert Taken(Queued(), 1, 0).records == OneInHand().records;
  }

  lemma OneExecuted()
    ensures Enabled(Executed(OneInHand(), 1, 0), TimeOut(1))
    ensures Do(Executed(OneInHand(), 1, 0), TimeOut(1)) == Timed()
  {
    var s := Do(Executed(OneInHand(), 1, 0), TimeOut(1));
    assert s.workers == Timed().workers;
    assert s.places == Timed().places;
    assert s.records == Timed().records;
  }

  lemma ExecuteOne(hook: Hook)
    ensures Reached(hook, Timed())
  {
    QueueOne(hook);
    Take(hook, Queued(), 1, 0);
    OneTaken();
    Execute(hook, OneInHand(), 1, 0);
    OneExecuted();
    Onward(hook, Executed(OneInHand(), 1, 0), TimeOut(1));
  }

  lemma OneLeft()
    ensures Enabled(Posted(Timed().(caller := Ready), 1), Leave(1))
    ensures Do(Posted(Timed().(caller := Ready), 1), Leave(1)) == Stuck()
  {
    var s := Do(Posted(Timed().(caller := Ready), 1), Leave(1));
    assert s.workers == Stuck().workers;
    assert s.places == Stuck().places;
    assert s.records == Stuck().records;
  }

  lemma QueueNext(hook: Hook)
    ensures Reached(hook, Stuck())
  {
    ExecuteOne(hook);
    Onward(hook, Timed(), LockQueue);
    Onward(hook, Timed().(caller := Preparing), Enough);
    PostOne(hook, Timed().(caller := Ready), 1);
    OneLeft();
    Onward(hook, Posted(Timed().(caller := Ready), 1), Leave(1));
  }

  lemma StuckIsSwept()
    ensures var s := Do(Do(Stuck(), LockFinalize), CheckWorkers); Enabled(s, Sweep) && Do(s, Sweep) == Hooked()
  {
    var s := Do(Do(Do(Stuck(), LockFinalize), CheckWorkers), Sweep);
    assert s.places == Hooked().places && s.records == Hooked().records;
  }

  lemma ComeToHook(hook: Hook)
    ensures Reached(hook, Hooked())
  {
    QueueNext(hook);
    StuckIsSwept();
    var s := Three(hook, Stuck(), LockFinalize, CheckWorkers, Sweep);
  }

  /** A worker that has taken a packet executes the item and frees it, and Finalize cancels it. */
  lemma Collide(hook: Hook, s: State, w: Worker, i: Item) returns (s': State)
    requires Reached(hook, s) && s.caller == Cancelling(i) && i in s.port && RecordOf(s, i) == Record(true, 0, 0, 0)
    requires w in s.workers && s.workers[w].Waiting?
    ensures Reached(hook, s') && RecordOf(s', i) == Record(true, 1, 1, 1) && i in s'.places
  {
    Take(hook, s, w, i);
    Execute(hook, Taken(s, w, i), w, i);
    s' := Do(Executed(Taken(s, w, i), w, i), CancelItem);
    Onward(hook, Executed(Taken(s, w, i), w, i), CancelItem);
  }

  /** A QueueTask that OnTaskCancelled makes starts a worker and is refused after that, for want of memory. The worker
      finds the packet of the item that is being cancelled. */
  lemma RefusedRun(hook: Hook) returns (states: seq<State>, steps: seq<Step>)
    requires hook.starts
    ensures Run(hook, states, steps) && RecordOf(states[|steps|], 1) == Record(true, 1, 1, 1)
            && 1 in states[|steps|].places
  {
    ComeToHook(hook);
    var s := Three(hook, Hooked(), LockQueue, AddWorker(2), Refuse);
    s := Collide(hook, s, 2, 1);
    states, steps :| Run(hook, states, steps) && states[|steps|] == s;
  }

  /** An OnTaskCancelled has queued the item 2. */
  lemma QueueInHook(hook: Hook) returns (s: State)
    requires hook.starts && hook.posts
    ensures Reached(hook, s) && s.caller == Cancelling(1) && s.port == {1, 2} && s.workers == map[2 := Waiting(true)]
    ensures s.held == [] && s.list == [2] && RecordOf(s, 2) == Record(true, 0, 0, 0)
  {
    ComeToHook(hook);
    s := Three(hook, Hooked(), LockQueue, AddWorker(2), Enough);
    PostOne(hook, s, 2);
    s := Posted(s, 2);
  }

  /** A worker executes that item and frees it while Finalize cancels it. */
  lemma QueuedRun(hook: Hook) returns (states: seq<State>, steps: seq<Step>)
    requires hook.starts && hook.posts
    ensures Run(hook, states, steps) && RecordOf(states[|steps|], 2) == Record(true, 1, 1, 1)
  {
    var s := QueueInHook(hook);
    s := Three(hook, s, CancelItem, FreeCancelled, Sweep);
    s := Collide(hook, s, 2, 2);
    states, steps :| Run(hook, states, steps) && states[|steps|] == s;
  }

  ghost predicate SettlesTwice(hook: Hook, states: seq<State>, steps: seq<Step>, k: nat, i: Item) {
    && Run(hook, states, steps) && k < |states| && i in states[k].places
    && RecordOf(states[k], i).executed + RecordOf(states[k], i).cancelled > 1
  }

  /** Some run both executes and cancels an item, or does one of them twice, exactly if a worker may start in a
      QueueTask that OnTaskCancelled makes; whether anything can be posted there does not matter. */
  lemma SettlesTwiceIff(hook: Hook)
    ensures (exists states: seq<State>, steps: seq<Step>, k: nat, i: Item :: SettlesTwice(hook, states, steps, k, i))
            <==> hook.starts
  {
    if hook.starts {
      var states, steps := RefusedRun(hook);
      assert SettlesTwice(hook, states, steps, |steps|, 1);
    } else {
      forall states: seq<State>, steps: seq<Step>, k: nat, i: Item | SettlesTwice(hook, states, steps, k, i)
        ensures false
      {
        assert Run(hook, states, steps);
        AtMostOnce(hook, states, steps, k, i);
        assert false;
      }
    }
  }
}
