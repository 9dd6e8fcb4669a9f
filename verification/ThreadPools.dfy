/** The thread pool of Source/Threads.cpp: work items are executed by worker threads, or cancelled when the pool
    is finalized. Each critical section and each operation on the completion port is one step. The mutex is
    recursive: OnTaskCancelled, which Finalize calls under it, may call the pool again. */
module ThreadPools {
  import opened Sequences

  type Item = nat
  type Worker = nat

  /** Where the thread is that owns cMtx: in QueueTask, or in Finalize (or Initialize, which finalizes first). */
  datatype Caller =
    | Nobody
    | Preparing                 // QueueTask: checks, and adds workers
    | Ready                     // has found enough of them
    | Made(item: Item)
    | Linked(item: Item)        // in the list; owns its lock until the item is posted
    | Stopping                  // Finalize: looks whether there are workers
    | Nudging                   // posts a packet without an item
    | Sweeping                  // takes the items that are left
    | Cancelling(item: Item)    // in OnTaskCancelled
    | Cancelled(item: Item)
    | Closing

  /** Where a worker is in WorkerThreadProc. fresh_ means that it waits without a timeout. */
  datatype Labour =
    | Waiting(fresh_: bool)
    | Dequeued(item: Item)
    | Unlinked(item: Item)
    | Running(item: Item)
    | Ran(item: Item)
    | Ending

  /** Where a work item is. */
  datatype Place = ByCaller | InPort | By(worker: Worker) | Freed

  /** What has been done with an item. accepted says that QueueTask has returned TRUE for it. */
  datatype Record = Record(accepted: bool, executed: nat, cancelled: nat, freed: nat)

  datatype State = State(
    open: bool,                 // hIOCP != NULL
    list: seq<Item>,            // sWorkItems
    port: set<Item>,            // the packets in the completion port that carry an item
    nulls: nat,                 // and those that do not
    count: nat,                 // sActiveThreads.nCount
    workers: map<Worker, Labour>,
    caller: Caller,
    held: seq<Item>,            // the items whose OnTaskCancelled has called the pool again, innermost first
    places: map<Item, Place>,
    records: map<Item, Record>)

  datatype Step =
    | LockQueue | Refuse | AddWorker(worker: Worker) | Enough | Make(item: Item) | Link | Post(ok: bool)
    | LockFinalize | CheckWorkers | Nudge | Sweep | CancelItem | FreeCancelled | Close(reopen: bool)
    | Dequeue(worker: Worker, item: Item) | DequeueNull(worker: Worker) | TimeOut(worker: Worker)
    | Unlink(worker: Worker) | Begin(worker: Worker) | End(worker: Worker) | FreeExecuted(worker: Worker)
    | Leave(worker: Worker)

  predicate At(s: State, w: Worker) {
    w in s.workers
  }

  predicate Enabled(s: State, step: Step) {
    match step
    case LockQueue => s.caller == Nobody || s.caller.Cancelling?
    case Refuse => s.caller == Preparing || s.caller == Ready
    case AddWorker(w) => s.caller == Preparing && s.open && !At(s, w)
    case Enough => s.caller == Preparing && s.open && s.count > 0
    case Make(i) => s.caller == Ready && i !in s.places
    case Link => s.caller.Made?
    case Post(_) => s.caller.Linked?
    case LockFinalize => s.caller == Nobody || s.caller.Cancelling?
    case CheckWorkers => s.caller == Stopping
    case Nudge => s.caller == Nudging
    case Sweep => s.caller == Sweeping
    case CancelItem => s.caller.Cancelling?
    case FreeCancelled => s.caller.Cancelled?
    case Close(_) => s.caller == Closing
    case Dequeue(w, i) => At(s, w) && s.workers[w].Waiting? && i in s.port
    case DequeueNull(w) => At(s, w) && s.workers[w].Waiting? && s.nulls > 0
    case TimeOut(w) => At(s, w) && s.workers[w] == Waiting(false)
    case Unlink(w) => At(s, w) && s.workers[w].Dequeued? && !s.caller.Linked?
    case Begin(w) => At(s, w) && s.workers[w].Unlinked?
    case End(w) => At(s, w) && s.workers[w].Running?
    case FreeExecuted(w) => At(s, w) && s.workers[w].Ran?
    case Leave(w) => At(s, w) && s.workers[w] == Ending
  }

  function RecordOf(s: State, i: Item): Record {
    if i in s.records then s.records[i] else Record(false, 0, 0, 0)
  }

  function Put(s: State, i: Item, place: Place, r: Record): State {
    s.(places := s.places[i := place], records := s.records[i := r])
  }

  /** A call enters the mutex: from outside, or from an OnTaskCancelled. */
  function Entered(s: State, c: Caller): State {
    s.(caller := c, held := if s.caller.Cancelling? then [s.caller.item] + s.held else s.held)
  }

  /** And leaves it. */
  function Returned(s: State): State {
    if s.held == [] then s.(caller := Nobody) else s.(caller := Cancelling(s.held[0]), held := s.held[1..])
  }

  function Do(s: State, step: Step): State
    requires Enabled(s, step)
  {
    match step
    case LockQueue => Entered(s, Preparing)
    case Refuse => Returned(s)
    case AddWorker(w) => s.(workers := s.workers[w := Waiting(true)], count := s.count + 1)
    case Enough => s.(caller := Ready)
    case Make(i) => Put(s, i, ByCaller, Record(false, 0, 0, 0)).(caller := Made(i))
    case Link => s.(caller := Linked(s.caller.item), list := s.list + [s.caller.item])
    case Post(ok) =>
      var i := s.caller.item;
      var r := RecordOf(s, i);
      if ok then Returned(Put(s, i, InPort, r.(accepted := true)).(port := s.port + {i}))
      else Returned(Put(s, i, Freed, r.(freed := r.freed + 1)).(list := Without(s.list, i)))
    case LockFinalize => Entered(s, if s.open then Stopping else Sweeping)
    case CheckWorkers => s.(caller := if s.count > 0 then Nudging else Sweeping)
    case Nudge => s.(caller := Stopping, nulls := s.nulls + 1)
    case Sweep =>
      if s.list == [] then s.(caller := Closing)
      else
        var i := s.list[0];
        Put(s, i, ByCaller, RecordOf(s, i)).(caller := Cancelling(i), list := Without(s.list, i))
    case CancelItem =>
      var i := s.caller.item;
      var r := RecordOf(s, i);
      Put(s, i, ByCaller, r.(cancelled := r.cancelled + 1)).(caller := Cancelled(i))
    case FreeCancelled =>
      var i := s.caller.item;
      var r := RecordOf(s, i);
      Put(s, i, Freed, r.(freed := r.freed + 1)).(caller := Sweeping)
    case Close(reopen) => Returned(s.(open := reopen, port := {}, nulls := 0))
    case Dequeue(w, i) =>
      Put(s, i, By(w), RecordOf(s, i)).(workers := s.workers[w := Dequeued(i)], port := s.port - {i})
    case DequeueNull(w) => s.(workers := s.workers[w := Ending], nulls := s.nulls - 1)
    case TimeOut(w) => s.(workers := s.workers[w := Ending])
    case Unlink(w) => s.(workers := s.workers[w := Unlinked(s.workers[w].item)],
           list := Without(s.list, s.workers[w].item))
    case Begin(w) => s.(workers := s.workers[w := Running(s.workers[w].item)])
    case End(w) =>
      var i := s.workers[w].item;
      var r := RecordOf(s, i);
      Put(s, i, By(w), r.(executed := r.executed + 1)).(workers := s.workers[w := Ran(i)])
    case FreeExecuted(w) =>
      var i := s.workers[w].item;
      var r := RecordOf(s, i);
      Put(s, i, Freed, r.(freed := r.freed + 1)).(workers := s.workers[w := Waiting(false)])
    case Leave(w) => s.(workers := s.workers - {w}, count := if s.count > 0 then s.count - 1 else 0)
  }

  /** Finalize has seen that there are no workers. */
  predicate Sweeps(c: Caller) {
    c.Sweeping? || c.Cancelling? || c.Cancelled? || c.Closing?
  }

  /** So has a Finalize on the thread that owns the mutex. */
  predicate Swept(s: State) {
    Sweeps(s.caller) || s.held != []
  }

  predicate HasItem(c: Caller) {
    c.Made? || c.Linked? || c.Cancelling? || c.Cancelled?
  }

  predicate Owns(s: State, i: Item) {
    HasItem(s.caller) && s.caller.item == i
  }

  ghost predicate WorkerOk(s: State, w: Worker)
    requires w in s.workers
  {
    var l := s.workers[w];
    l.Dequeued? || l.Unlinked? || l.Running? || l.Ran? ==> l.item in s.places && s.places[l.item] == By(w)
  }

  /** Where an item is says what has been done with it, and whether it is linked. */
  ghost predicate ItemOk(s: State, i: Item)
    requires i in s.places
  {
    var r := RecordOf(s, i);
    && (i in s.port ==> s.places[i] == InPort || Swept(s))
    && match s.places[i]
       case ByCaller =>
         if i in s.held then i !in s.list && r == Record(true, 0, 0, 0)
         else
           && Owns(s, i) && (i in s.list <==> s.caller.Linked?)
           && r == Record(Sweeps(s.caller), 0, if s.caller.Cancelled? then 1 else 0, 0)
       case InPort => i in s.list && r == Record(true, 0, 0, 0)
       case By(w) =>
         && w in s.workers && (i in s.list <==> s.workers[w].Dequeued?)
         && (s.workers[w].Dequeued? || s.workers[w].Unlinked? || s.workers[w].Running? || s.workers[w].Ran?)
         && s.workers[w].item == i && r == Record(true, if s.workers[w].Ran? then 1 else 0, 0, 0)
       case Freed =>
         i !in s.list && r.freed == 1 && r.executed + r.cancelled == (if r.accepted then 1 else 0)
  }

  /** The items of the thread that owns the mutex: one for each call of OnTaskCancelled it is in, none twice. */
  ghost predicate CallerOk(s: State) {
    && (HasItem(s.caller) ==> s.caller.item in s.places && s.places[s.caller.item] == ByCaller)
    && (forall k :: 0 <= k < |s.held| ==> s.held[k] in s.places && s.places[s.held[k]] == ByCaller)
    && Distinct(s.held) && (HasItem(s.caller) ==> s.caller.item !in s.held)
    && (s.held != [] ==> s.caller == Preparing || s.caller == Stopping || Sweeps(s.caller))
    && (s.caller.Closing? ==> s.list == [])
  }

  ghost predicate Inv(s: State) {
    && Distinct(s.list) && s.count == |s.workers| && s.port <= s.places.Keys && CallerOk(s)
    && (Swept(s) || !s.open ==> s.workers == map[])
    && (forall i :: i in s.list ==> i in s.places)
    && (forall w {:trigger WorkerOk(s, w)} :: w in s.workers ==> WorkerOk(s, w))
    && (forall i {:trigger ItemOk(s, i)} :: i in s.places ==> ItemOk(s, i))
  }

  ghost predicate Initial(s: State) {
    s == State(false, [], {}, 0, 0, map[], Nobody, [], map[], map[])
  }

  ghost predicate SameItem(s: State, s': State, i: Item) {
    && (i in s'.places <==> i in s.places) && (i in s.places ==> s'.places[i] == s.places[i])
    && RecordOf(s', i) == RecordOf(s, i) && (i in s'.list <==> i in s.list) && (i in s'.port ==> i in s.port)
    && (i in s'.held <==> i in s.held) && (Owns(s, i) ==> s'.caller == s.caller)
  }

  ghost predicate SameWorker(s: State, s': State, w: Worker) {
    (w in s'.workers <==> w in s.workers) && (w in s.workers ==> s'.workers[w] == s.workers[w])
  }

  predicate Busy(l: Labour) {
    l.Dequeued? || l.Unlinked? || l.Running? || l.Ran?
  }

  /** The step from s to s' is about one worker and the items of js, which no other worker is busy with. */
  ghost predicate Local(s: State, s': State, w: Worker, js: set<Item>) {
    && (forall v {:trigger SameWorker(s, s', v)} :: v != w ==> SameWorker(s, s', v))
    && (forall i {:trigger SameItem(s, s', i)} :: i !in js ==> SameItem(s, s', i))
    && (Swept(s) ==> Swept(s') || s'.port == {})
    && (SameWorker(s, s', w) || (w in s.workers && Busy(s.workers[w]) ==> s.workers[w].item in js))
    && (forall i :: i in js && i in s.places && s.places[i].By? ==> s.places[i] == By(w) && !SameWorker(s, s', w))
  }

  lemma LocalKeeps(s: State, s': State, w: Worker, js: set<Item>)
    requires Inv(s) && Local(s, s', w, js) && (w in s'.workers ==> SameWorker(s, s', w) || WorkerOk(s', w))
    requires forall i :: i in js && i in s'.places ==> ItemOk(s', i)
    requires Distinct(s'.list) && s'.count == |s'.workers| && s'.port <= s'.places.Keys && CallerOk(s')
    requires Swept(s') || !s'.open ==> s'.workers == map[]
    requires forall i :: i in s'.list ==> i in s'.places
    ensures Inv(s')
  {
    forall v | v in s'.workers ensures WorkerOk(s', v) {
      if v != w || SameWorker(s, s', w) {
        assert SameWorker(s, s', v) && WorkerOk(s, v);
        if Busy(s.workers[v]) && s.workers[v].item !in js {
          assert SameItem(s, s', s.workers[v].item);
        }
      }
    }
    forall i | i in s'.places ensures ItemOk(s', i) {
      if i !in js {
        assert SameItem(s, s', i) && ItemOk(s, i);
        if s.places[i].By? && (s.places[i].worker != w || SameWorker(s, s', w)) {
          assert SameWorker(s, s', s.places[i].worker);
        }
      }
    }
  }

  /** A call that OnTaskCancelled makes keeps what Finalize relies on. */
  lemma EnterKeeps(s: State, step: Step)
    requires Inv(s) && Enabled(s, step) && (step.LockQueue? || step.LockFinalize?)
    ensures Inv(Do(s, step))
  {
    var js := if s.caller.Cancelling? then {s.caller.item} else {};
    assert s.caller.Cancelling? ==> ItemOk(s, s.caller.item);
    LocalKeeps(s, Do(s, step), 0, js);
  }

  lemma ReturnKeeps(s: State, step: Step)
    requires Inv(s) && Enabled(s, step) && (step.Refuse? || step.Close?)
    ensures Inv(Do(s, step))
  {
    var js := if s.held != [] then {s.held[0]} else {};
    assert s.held != [] ==> ItemOk(s, s.held[0]);
    assert s.held != [] ==> s.held == [s.held[0]] + s.held[1..];
    LocalKeeps(s, Do(s, step), 0, js);
  }

  /** Steps of QueueTask before it has an item. */
  lemma PrepareKeeps(s: State, step: Step)
    requires Inv(s) && Enabled(s, step) && (step.AddWorker? || step.Enough? || step.Make?)
    requires step.AddWorker? ==> s.held == []
    ensures Inv(Do(s, step))
  {
    var w := if step.AddWorker? then step.worker else 0;
    var js := if step.Make? then {step.item} else {};
    LocalKeeps(s, Do(s, step), w, js);
  }

  /** A worker that QueueTask starts keeps the invariant exactly if no OnTaskCancelled has called it. */
  lemma StartKeepsIff(s: State, w: Worker)
    requires Inv(s) && Enabled(s, AddWorker(w))
    ensures Inv(Do(s, AddWorker(w))) <==> s.held == []
  {
    if s.held == [] {
      PrepareKeeps(s, AddWorker(w));
    } else {
      assert w in Do(s, AddWorker(w)).workers;
    }
  }

  lemma LinkKeeps(s: State)
    requires Inv(s) && Enabled(s, Link)
    ensures Inv(Do(s, Link))
  {
    assert ItemOk(s, s.caller.item);
    LocalKeeps(s, Do(s, Link), 0, {s.caller.item});
  }

  lemma PostedKeeps(s: State)
    requires Inv(s) && Enabled(s, Post(true))
    ensures Inv(Do(s, Post(true)))
  {
    assert ItemOk(s, s.caller.item);
    LocalKeeps(s, Do(s, Post(true)), 0, {s.caller.item});
  }

  lemma NotPostedKeeps(s: State)
    requires Inv(s) && Enabled(s, Post(false))
    ensures Inv(Do(s, Post(false)))
  {
    assert ItemOk(s, s.caller.item);
    WithoutIs(s.list, s.caller.item);
    LocalKeeps(s, Do(s, Post(false)), 0, {s.caller.item});
  }

  lemma PostKeeps(s: State, ok: bool)
    requires Inv(s) && Enabled(s, Post(ok))
    ensures Inv(Do(s, Post(ok)))
  {
    if ok {
      PostedKeeps(s);
    } else {
      NotPostedKeeps(s);
    }
  }

  lemma FinalizeKeeps(s: State, step: Step)
    requires Inv(s) && Enabled(s, step) && (step.CheckWorkers? || step.Nudge?)
    ensures Inv(Do(s, step))
  {
    LocalKeeps(s, Do(s, step), 0, {});
  }

  lemma CancelKeeps(s: State, step: Step)
    requires Inv(s) && Enabled(s, step) && (step.CancelItem? || step.FreeCancelled?)
    ensures Inv(Do(s, step))
  {
    assert ItemOk(s, s.caller.item);
    LocalKeeps(s, Do(s, step), 0, {s.caller.item});
  }

  lemma SweepKeeps(s: State)
    requires Inv(s) && Enabled(s, Sweep)
    ensures Inv(Do(s, Sweep))
  {
    if s.list == [] {
      LocalKeeps(s, Do(s, Sweep), 0, {});
    } else {
      var i := s.list[0];
      assert i in s.list && ItemOk(s, i);
      WithoutIs(s.list, i);
      LocalKeeps(s, Do(s, Sweep), 0, {i});
    }
  }

  lemma WorkKeeps(s: State, step: Step)
    requires Inv(s) && Enabled(s, step) && (step.Unlink? || step.Begin? || step.End? || step.FreeExecuted?)
    ensures Inv(Do(s, step))
  {
    var i := s.workers[step.worker].item;
    assert WorkerOk(s, step.worker) && ItemOk(s, i);
    WithoutIs(s.list, i);
    LocalKeeps(s, Do(s, step), step.worker, {i});
  }

  lemma DequeueKeeps(s: State, w: Worker, i: Item)
    requires Inv(s) && Enabled(s, Dequeue(w, i))
    ensures Inv(Do(s, Dequeue(w, i)))
  {
    assert ItemOk(s, i);
    LocalKeeps(s, Do(s, Dequeue(w, i)), w, {i});
  }

  lemma EndKeeps(s: State, step: Step)
    requires Inv(s) && Enabled(s, step) && (step.DequeueNull? || step.TimeOut?)
    ensures Inv(Do(s, step))
  {
    LocalKeeps(s, Do(s, step), step.worker, {});
  }

  lemma OneLess(m: map<Worker, Labour>, w: Worker)
    requires w in m
    ensures |m| == |m - {w}| + 1
  {
    assert m.Keys == (m - {w}).Keys + {w};
  }

  lemma LeaveKeeps(s: State, w: Worker)
    requires Inv(s) && Enabled(s, Leave(w))
    ensures Inv(Do(s, Leave(w)))
  {
    OneLess(s.workers, w);
    LocalKeeps(s, Do(s, Leave(w)), w, {});
  }

  lemma StepKeeps(s: State, step: Step)
    requires Inv(s) && Enabled(s, step) && (step.AddWorker? ==> s.held == [])
    ensures Inv(Do(s, step))
  {
    match step
    case LockQueue => EnterKeeps(s, step);
    case LockFinalize => EnterKeeps(s, step);
    case Refuse => ReturnKeeps(s, step);
    case Close(_) => ReturnKeeps(s, step);
    case Link => LinkKeeps(s);
    case Post(ok) => PostKeeps(s, ok);
    case Sweep => SweepKeeps(s);
    case CheckWorkers => FinalizeKeeps(s, step);
    case Nudge => FinalizeKeeps(s, step);
    case CancelItem => CancelKeeps(s, step);
    case FreeCancelled => CancelKeeps(s, step);
    case Unlink(_) => WorkKeeps(s, step);
    case Begin(_) => WorkKeeps(s, step);
    case End(_) => WorkKeeps(s, step);
    case FreeExecuted(_) => WorkKeeps(s, step);
    case Dequeue(w, i) => DequeueKeeps(s, w, i);
    case DequeueNull(_) => EndKeeps(s, step);
    case TimeOut(_) => EndKeeps(s, step);
    case Leave(w) => LeaveKeeps(s, w);
    case _ => PrepareKeeps(s, step);
  }

  /** What is granted to a QueueTask that OnTaskCancelled makes: that a worker starts, that the item is posted. */
  datatype Hook = Hook(starts: bool, posts: bool)

  predicate Grants(hook: Hook, s: State, step: Step) {
    s.held != [] ==> (step.AddWorker? ==> hook.starts) && (step == Post(true) ==> hook.posts)
  }

  ghost predicate Run(hook: Hook, states: seq<State>, steps: seq<Step>) {
    && |states| == |steps| + 1 && Initial(states[0])
    && (forall i :: 0 <= i < |steps| ==> Enabled(states[i], steps[i]) && states[i + 1] == Do(states[i], steps[i]))
    && forall i :: 0 <= i < |steps| ==> Grants(hook, states[i], steps[i])
  }

  lemma {:induction false} RunKeeps(hook: Hook, states: seq<State>, steps: seq<Step>, k: nat)
    requires Run(hook, states, steps) && !hook.starts && k < |states|
    ensures Inv(states[k])
    decreases k
  {
    if k > 0 {
      RunKeeps(hook, states, steps, k - 1);
      StepKeeps(states[k - 1], steps[k - 1]);
    }
  }

  /** In every reachable state an item has been executed or cancelled at most once, and never both; it has been
      freed at most once, and only after that. Whatever a worker takes from the port has not been freed. */
  lemma AtMostOnce(hook: Hook, states: seq<State>, steps: seq<Step>, k: nat, i: Item)
    requires Run(hook, states, steps) && !hook.starts && k < |states| && i in states[k].places
    ensures var r := RecordOf(states[k], i);
            && r.executed + r.cancelled <= (if r.accepted then 1 else 0) && r.freed <= 1
            && (r.freed == 1 && r.accepted ==> r.executed + r.cancelled == 1)
    ensures k < |steps| && steps[k].Dequeue? && steps[k].item == i ==> RecordOf(states[k], i) == Record(true, 0, 0, 0)
    ensures forall w :: w in states[k].workers && Busy(states[k].workers[w]) && states[k].workers[w].item == i ==>
              RecordOf(states[k], i).freed == 0
  {
    var s := states[k];
    RunKeeps(hook, states, steps, k);
    assert ItemOk(s, i);
    forall w | w in s.workers && Busy(s.workers[w]) && s.workers[w].item == i ensures RecordOf(s, i).freed == 0 {
      assert WorkerOk(s, w);
    }
  }

  /** When Finalize is through, every item for which QueueTask has returned TRUE has been either executed or
      cancelled, exactly once, every item has been freed exactly once, and there are no workers. If OnTaskCancelled
      has called Finalize, that is so but for the items that are being cancelled. */
  lemma AllSettled(hook: Hook, states: seq<State>, steps: seq<Step>, k: nat, i: Item)
    requires Run(hook, states, steps) && !hook.starts && k < |steps| && steps[k].Close?
    ensures states[k + 1].workers == map[] && states[k + 1].list == [] && states[k + 1].port == {}
    ensures i in states[k + 1].places && i !in states[k].held ==>
              var r := RecordOf(states[k + 1], i);
              r.freed == 1 && r.executed + r.cancelled == (if r.accepted then 1 else 0)
  {
    RunKeeps(hook, states, steps, k);
    if i in states[k].places {
      assert ItemOk(states[k], i);
    }
  }

  /** If no worker starts in OnTaskCancelled, a QueueTask made there comes to nothing, whatever could be posted. */
  lemma NothingQueued(hook: Hook, states: seq<State>, steps: seq<Step>, k: nat)
    requires Run(hook, states, steps) && !hook.starts && k < |steps| && states[k].held != []
    ensures !steps[k].Enough? && !steps[k].Make? && !steps[k].Post?
  {
    RunKeeps(hook, states, steps, k);
  }

  /** The port is closed, and no QueueTask is past the check that finds out. */
  predicate Closed(s: State) {
    !s.open && !s.caller.Ready? && !s.caller.Made? && !s.caller.Linked?
  }

  lemma ClosedStays(s: State, step: Step, i: Item)
    requires Closed(s) && Enabled(s, step) && step != Close(true)
    ensures Closed(Do(s, step)) && (RecordOf(Do(s, step), i).accepted <==> RecordOf(s, i).accepted)
  {
  }

  /** After Finalize no QueueTask returns TRUE, until Initialize opens the port again. */
  lemma {:induction false} RefusedWhenClosed(hook: Hook, states: seq<State>, steps: seq<Step>, k: nat, j: nat, i: Item)
    requires Run(hook, states, steps) && k < j < |states| && steps[k] == Close(false)
    requires forall m :: k < m < j ==> steps[m] != Close(true)
    ensures Closed(states[j]) && (RecordOf(states[j], i).accepted <==> RecordOf(states[k + 1], i).accepted)
    decreases j
  {
    if j > k + 1 {
      RefusedWhenClosed(hook, states, steps, k, j - 1, i);
      ClosedStays(states[j - 1], steps[j - 1], i);
    }
  }
}
