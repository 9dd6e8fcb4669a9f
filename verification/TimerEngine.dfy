/** The timer handler of Source/TimedEvent.cpp as a state machine: callers add and
    remove timers while the timer thread fires those that are due. Each interlocked
    operation and each critical section is one step. */
module TimerEngine {
  import opened Sequences

  type Thread = nat
  type Block = nat       // the address of a CTimer
  type Id = nat          // a timer id; 0 stands for none
  type Callback = nat    // a callback with its user data
  type Variable = nat    // where a caller keeps the id of its timer

  const TIMER_THREAD: Thread := 0
  const MAX_TIMERS_IN_FREE_LIST := 128
  const UNITS_PER_MS: nat := 10000   // the system time counts units of 100 ns

  /** Due times and timeouts count milliseconds: a system time is truncated. */
  function Millis(time: nat): nat {
    time / UNITS_PER_MS
  }

  datatype Flags = Flags(running: bool, canceled: bool, oneShot: bool, canceledInCallback: bool)

  /** A timer block. stamp numbers its insertions into the queue. */
  datatype Timer = Timer(id: Id, timeout: nat, due: nat, flags: Flags, stamp: nat, callback: Callback)

  /** Who answers for a block: the free list, the queue, a thread that adds it, the thread
      that removes it, or the timer thread, when the callback has removed its own timer. */
  datatype Role = Pooled | Queued | Adding(adder: Thread) | Removing(remover: Thread) | SelfRemoved

  /** An id is known to the variable it was stored in, or to the RemoveTimer that took it from there. */
  datatype Holder = InVariable(variable: Variable) | InCall(thread: Thread)

  /** Where a thread is in AddTimer or RemoveTimer. */
  datatype Call =
    | Allocated(block: Block, target: Variable)
    | Numbered(block: Block, target: Variable)
    | Dated(block: Block, target: Variable)
    | Took(taken: Id)
    | Stopped(block: Block, taken: Id, awaited: bool)

  /** Where the timer thread is in ProcessQueue. */
  datatype Loop =
    | Resting
    | Sampled(now: nat)
    | Claimed(block: Block, now: nat)
    | Running(block: Block, now: nat)
    | Returned(block: Block, now: nat, cancel: bool)

  datatype State = State(
    timers: map<Block, Timer>,
    byId: seq<Block>,
    queue: seq<Block>,
    pool: seq<Block>,
    lastId: Id,
    lastStamp: nat,
    variables: map<Variable, Id>,
    calls: map<Thread, Call>,
    loop: Loop,
    clock: nat,
    // what follows only records what happens
    roles: map<Block, Role>,
    ledger: map<Id, Block>,   // the timers that have an id and have not been released
    tokens: map<Id, Holder>,  // who knows the id
    freed: multiset<Id>,      // every release of a block, by the id it had
    settled: set<Id>)         // the ids whose RemoveTimer has returned on another thread
  {
    /** The block the timer thread has claimed, if any. */
    predicate Holds(b: Block) {
      !loop.Resting? && !loop.Sampled? && loop.block == b
    }
  }

  datatype Step =
    | Tick(delay: nat)
    | AddRefused(thread: Thread, target: Variable)
    | AddAllocate(thread: Thread, target: Variable, timeout: nat, oneShot: bool, callback: Callback, block: Block)
    | AddNumber(thread: Thread)
    | AddDate(thread: Thread)
    | AddInsert(thread: Thread)
    | AddInsertFails(thread: Thread)
    | RemoveTake(thread: Thread, source: Variable)
    | RemoveCancel(thread: Thread)
    | RemoveAwait(thread: Thread)
    | RemoveFree(thread: Thread)
    | LoopSample
    | LoopPick
    | CallbackStart
    | CallbackEnd(cancel: bool)
    | LoopSettle

  /** A thread may enter the handler if it is not inside already; the timer thread only from a callback. */
  predicate MayEnter(s: State, t: Thread) {
    t !in s.calls && (t == TIMER_THREAD ==> s.loop.Running?)
  }

  predicate Enabled(s: State, step: Step) {
    match step
    case Tick(_) => true
    case AddRefused(t, _) => MayEnter(s, t)
    case AddAllocate(t, _, _, _, _, b) => MayEnter(s, t) && (s.pool == [] ==> b !in s.timers)
    case AddNumber(t) => t in s.calls && s.calls[t].Allocated?
    case AddDate(t) => t in s.calls && s.calls[t].Numbered?
    case AddInsert(t) => t in s.calls && s.calls[t].Dated?
    case AddInsertFails(t) => t in s.calls && s.calls[t].Dated?
    case RemoveTake(t, _) => MayEnter(s, t)
    case RemoveCancel(t) => t in s.calls && s.calls[t].Took?
    case RemoveAwait(t) => t in s.calls && s.calls[t].Stopped? && s.calls[t].awaited
                           && (s.calls[t].block in s.timers ==> !s.timers[s.calls[t].block].flags.running)
    case RemoveFree(t) => t in s.calls && s.calls[t].Stopped? && !s.calls[t].awaited
    case LoopSample => s.loop.Resting?
    case LoopPick => s.loop.Sampled?
    case CallbackStart => s.loop.Claimed?
    case CallbackEnd(cancel) => s.loop.Running? && TIMER_THREAD !in s.calls
                                && (cancel ==> s.loop.block in s.timers && !s.timers[s.loop.block].flags.oneShot)
    case LoopSettle => s.loop.Returned?
  }

  function IdOf(timers: map<Block, Timer>, b: Block): Id {
    if b in timers then timers[b].id else 0
  }

  function DueOf(timers: map<Block, Timer>, b: Block): nat {
    if b in timers then timers[b].due else 0
  }

  /** The comparison of ids with id, and of due times with due. */
  function ById(timers: map<Block, Timer>, id: Id): Block -> int {
    (x: Block) => id - IdOf(timers, x)
  }

  function ByDue(timers: map<Block, Timer>, due: nat): Block -> int {
    (x: Block) => due - DueOf(timers, x)
  }

  /** FreeTimer: the block goes to the free list, or is deleted if the list is full. */
  function FreeTimer(s: State, b: Block): State
    requires b in s.timers
  {
    var id := s.timers[b].id;
    var s1 := s.(freed := s.freed + multiset{id}, ledger := s.ledger - {id});
    if |s.pool| < MAX_TIMERS_IN_FREE_LIST then s1.(pool := [b] + s.pool, roles := s.roles[b := Pooled])
    else s1.(timers := s.timers - {b}, roles := s.roles - {b})
  }

  /** The part of the queue from place k on, scanned for a timer to fire: canceled ones are skipped. */
  function PickFrom(s: State, k: nat, now: nat): (r: int)
    decreases |s.queue| - k
  {
    if k >= |s.queue| then -1
    else if s.queue[k] !in s.timers || s.timers[s.queue[k]].due > now then -1
    else if s.timers[s.queue[k]].flags.canceled then PickFrom(s, k + 1, now)
    else k
  }

  function SetFlags(s: State, b: Block, f: Flags): State
    requires b in s.timers
  {
    s.(timers := s.timers[b := s.timers[b].(flags := f)])
  }

  ghost function DoAllocate(s: State, t: Thread, v: Variable, timeout: nat, oneShot: bool, callback: Callback,
                            block: Block): State {
    var b := if s.pool == [] then block else s.pool[0];
    var timer := Timer(0, timeout, 0, Flags(false, false, oneShot, false), 0, callback);
    s.(pool := if s.pool == [] then [] else s.pool[1..],
       timers := s.timers[b := timer], roles := s.roles[b := Adding(t)], calls := s.calls[t := Allocated(b, v)])
  }

  function DoNumber(s: State, t: Thread): State
    requires t in s.calls && s.calls[t].Allocated?
  {
    var b := s.calls[t].block;
    if b !in s.timers then s else
      s.(timers := s.timers[b := s.timers[b].(id := s.lastId + 1)], lastId := s.lastId + 1,
        ledger := s.ledger[s.lastId + 1 := b],
         calls := s.calls[t := Numbered(b, s.calls[t].target)])
  }

  function DoDate(s: State, t: Thread): State
    requires t in s.calls && s.calls[t].Numbered?
  {
    var b := s.calls[t].block;
    if b !in s.timers then s else
      s.(timers := s.timers[b := s.timers[b].(due := Millis(s.clock) + s.timers[b].timeout)],
         calls := s.calls[t := Dated(b, s.calls[t].target)])
  }

  /** Who knows which id once the variable v is overwritten. */
  function Forgotten(s: State, v: Variable): map<Id, Holder> {
    if v in s.variables then s.tokens - {s.variables[v]} else s.tokens
  }

  function Clear(s: State, v: Variable): State {
    s.(variables := s.variables[v := 0], tokens := Forgotten(s, v))
  }

  /** The critical section of AddTimer: in the queue, the timer comes behind all that are due no later. */
  ghost function DoInsert(s: State, t: Thread): State
    requires t in s.calls && s.calls[t].Dated?
  {
    var b, w := s.calls[t].block, s.calls[t].target;
    if b !in s.timers then s else
      var timer := s.timers[b];
      s.(timers := s.timers[b := timer.(stamp := s.lastStamp + 1)], lastStamp := s.lastStamp + 1,
         byId := InsertAt(s.byId, LowerBound(s.byId, ById(s.timers, timer.id)), b),
         queue := InsertAt(s.queue, UpperBound(s.queue, ByDue(s.timers, timer.due)), b),
         roles := s.roles[b := Queued], calls := s.calls - {t},
         variables := s.variables[w := timer.id], tokens := Forgotten(s, w)[timer.id := InVariable(w)])
  }

  ghost function DoInsertFails(s: State, t: Thread): State
    requires t in s.calls && s.calls[t].Dated?
  {
    var b := s.calls[t].block;
    var id := IdOf(s.timers, b);
    Clear(s, s.calls[t].target).(
      timers := s.timers - {b}, roles := s.roles - {b}, calls := s.calls - {t},
      freed := s.freed + multiset{id}, ledger := s.ledger - {id})
  }

  ghost function DoTake(s: State, t: Thread, v: Variable): State {
    var id := if v in s.variables then s.variables[v] else 0;
    if id == 0 then s
    else s.(variables := s.variables[v := 0], tokens := s.tokens[id := InCall(t)], calls := s.calls[t := Took(id)])
  }

  /** RemoveTimer returns; on any thread but the timer thread the id is settled. */
  function Leave(s: State, t: Thread, id: Id): State {
    s.(calls := s.calls - {t}, settled := if t == TIMER_THREAD then s.settled else s.settled + {id})
  }

  /** The critical section of RemoveTimer once the search has found b. */
  function DoCancelFound(s: State, t: Thread, b: Block): State
    requires t in s.calls && s.calls[t].Took? && b in s.timers
  {
    var id := s.calls[t].taken;
    var f := s.timers[b].flags;
    var inside := t == TIMER_THREAD;
    var s1 := SetFlags(s, b, f.(canceled := true, canceledInCallback := f.canceledInCallback || inside)).(
                byId := Without(s.byId, b), queue := Without(s.queue, b), tokens := s.tokens - {id});
    if f.running && inside then Leave(s1, t, id).(roles := s.roles[b := SelfRemoved])
    else s1.(roles := s.roles[b := Removing(t)], calls := s.calls[t := Stopped(b, id, f.running)])
  }

  /** The binary search by id in the critical section of RemoveTimer. */
  ghost predicate Finds(s: State, id: Id, b: Block) {
    b in s.byId && b in s.timers && s.timers[b].id == id
  }

  ghost function DoCancel(s: State, t: Thread): State
    requires t in s.calls && s.calls[t].Took?
  {
    var id := s.calls[t].taken;
    if b :| Finds(s, id, b) then DoCancelFound(s, t, b) else Leave(s, t, id).(tokens := s.tokens - {id})
  }

  function DoFree(s: State, t: Thread): State
    requires t in s.calls && s.calls[t].Stopped?
  {
    var b, id := s.calls[t].block, s.calls[t].taken;
    if b in s.timers then Leave(FreeTimer(s, b), t, id) else s
  }

  function DoClaim(s: State, b: Block): State
    requires s.loop.Sampled? && b in s.timers
  {
    SetFlags(s, b, s.timers[b].flags.(running := true)).(loop := Claimed(b, s.loop.now))
  }

  function DoPick(s: State): State
    requires s.loop.Sampled?
  {
    var i := PickFrom(s, 0, Millis(s.loop.now));
    if i < 0 || i >= |s.queue| || s.queue[i] !in s.timers then s.(loop := Resting)
    else DoClaim(s, s.queue[i])
  }

  /** What becomes of a timer that is to fire again. */
  function Again(s: State): Timer
    requires s.loop.Returned? && s.loop.block in s.timers
  {
    var timer := s.timers[s.loop.block];
    timer.(due := Millis(s.loop.now) + timer.timeout, stamp := s.lastStamp + 1, flags := timer.flags.(running := false))
  }

  /** The place of that timer in the queue, which it has left. */
  ghost function AgainAt(s: State): (k: nat)
    requires s.loop.Returned? && s.loop.block in s.timers
    ensures k <= |Without(s.queue, s.loop.block)|
  {
    var b := s.loop.block;
    UpperBound(Without(s.queue, b), ByDue(s.timers[b := s.timers[b].(due := Again(s).due)], Again(s).due))
  }

  /** What ProcessQueue does under the lock once the callback has returned. */
  ghost function DoSettle(s: State): State
    requires s.loop.Returned?
  {
    var b := s.loop.block;
    var s0 := s.(loop := Resting);
    if b !in s.timers then s0 else
      var timer := s.timers[b];
      var f := timer.flags;
      if f.canceled then
        var s1 := SetFlags(s0, b, f.(running := false));
        if f.canceledInCallback then FreeTimer(s1, b) else s1
      else if s.loop.cancel || f.oneShot then
        FreeTimer(s0.(queue := Without(s.queue, b), byId := Without(s.byId, b)), b)
      else s0.(timers := s.timers[b := Again(s)], lastStamp := s.lastStamp + 1,
               queue := InsertAt(Without(s.queue, b), AgainAt(s), b))
  }

  ghost function Do(s: State, step: Step): State
    requires Enabled(s, step)
  {
    match step
    case Tick(d) => s.(clock := s.clock + d)
    case AddRefused(_, v) => Clear(s, v)
    case AddAllocate(t, v, timeout, oneShot, callback, b) => DoAllocate(s, t, v, timeout, oneShot, callback, b)
    case AddNumber(t) => DoNumber(s, t)
    case AddDate(t) => DoDate(s, t)
    case AddInsert(t) => DoInsert(s, t)
    case AddInsertFails(t) => DoInsertFails(s, t)
    case RemoveTake(t, v) => DoTake(s, t, v)
    case RemoveCancel(t) => DoCancel(s, t)
    case RemoveAwait(t) => s.(calls := s.calls[t := s.calls[t].(awaited := false)])
    case RemoveFree(t) => DoFree(s, t)
    case LoopSample => s.(loop := Sampled(s.clock))
    case LoopPick => DoPick(s)
    case CallbackStart => s.(loop := Running(s.loop.block, s.loop.now))
    case CallbackEnd(cancel) => s.(loop := Returned(s.loop.block, s.loop.now, cancel))
    case LoopSettle => DoSettle(s)
  }

  ghost predicate Initial(s: State) {
    s == State(map[], [], [], [], 0, 0, map[], map[], Resting, s.clock, map[], map[], map[], multiset{}, {})
  }

  /** The three lists hold the blocks whose roles say so, each once. */
  ghost predicate Listed(roles: map<Block, Role>, byId: seq<Block>, queue: seq<Block>, pool: seq<Block>) {
    && Distinct(byId) && Distinct(queue) && Distinct(pool) && |pool| <= MAX_TIMERS_IN_FREE_LIST
    && (forall b :: b in byId <==> b in roles && roles[b] == Queued)
    && (forall b :: b in queue <==> b in roles && roles[b] == Queued)
    && (forall b :: b in pool <==> b in roles && roles[b] == Pooled)
  }

  /** The flags of a timer fit its role; held says that the timer thread has claimed it. */
  ghost predicate FlagsOk(f: Flags, role: Role, held: bool) {
    match role
    case Pooled => !held
    case Queued => !f.canceled && !f.canceledInCallback && (f.running <==> held)
    case Adding(_) => !f.running && !f.canceled && !f.canceledInCallback && !held
    case Removing(t) => f.canceled && (f.running <==> held) && (f.canceledInCallback ==> !held)
    case SelfRemoved => f.canceled && f.canceledInCallback && f.running && held
  }

  /** A block that a call is busy with. */
  ghost predicate Attended(s: State, b: Block)
    requires b in s.roles && b in s.timers
  {
    match s.roles[b]
    case Adding(t) =>
      && t in s.calls && (s.calls[t].Allocated? || s.calls[t].Numbered? || s.calls[t].Dated?) && s.calls[t].block == b
      && (s.timers[b].id == 0 <==> s.calls[t].Allocated?)
    case Removing(t) =>
      && t in s.calls && s.calls[t].Stopped? && s.calls[t].block == b && s.calls[t].taken == s.timers[b].id
      && (s.timers[b].flags.running ==> s.calls[t].awaited) && (t == TIMER_THREAD ==> !s.calls[t].awaited)
    case _ => true
  }

  /** A timer in use is in the ledger, and only the id of a queued one may be known. */
  ghost predicate IdFits(s: State, b: Block)
    requires b in s.roles && b in s.timers
  {
    var id := s.timers[b].id;
    && s.timers[b].stamp <= s.lastStamp
    && (s.roles[b] != Pooled && id != 0 ==> id in s.ledger && s.ledger[id] == b)
    && (s.roles[b] != Queued && s.roles[b] != Pooled ==> id !in s.tokens)
    && (id == 0 ==> s.roles[b].Adding? || s.roles[b].Pooled?)
  }

  ghost predicate BlockOk(s: State, b: Block) {
    b in s.roles && b in s.timers && FlagsOk(s.timers[b].flags, s.roles[b], s.Holds(b))
    && Attended(s, b) && IdFits(s, b)
  }

  ghost predicate CallOk(s: State, t: Thread)
    requires t in s.calls
  {
    match s.calls[t]
    case Took(id) => id in s.tokens && s.tokens[id] == InCall(t)
    case Stopped(b, _, _) => b in s.roles && s.roles[b] == Removing(t)
    case _ => s.calls[t].block in s.roles && s.roles[s.calls[t].block] == Adding(t)
  }

  ghost predicate VariableOk(s: State, v: Variable)
    requires v in s.variables
  {
    s.variables[v] != 0 ==> s.variables[v] in s.tokens && s.tokens[s.variables[v]] == InVariable(v)
  }

  /** What is known of an id. */
  ghost predicate IdOk(s: State, id: Id) {
    && (id in s.tokens || id in s.ledger || id in s.settled || id in s.freed ==> 0 < id <= s.lastId)
    && (id in s.tokens ==> match s.tokens[id]
          case InVariable(v) => v in s.variables && s.variables[v] == id
          case InCall(t) => t in s.calls && s.calls[t] == Took(id))
    && (id in s.ledger ==>
          (s.ledger[id] in s.timers && s.timers[s.ledger[id]].id == id
           && s.ledger[id] in s.roles && s.roles[s.ledger[id]] != Pooled && id !in s.freed))
    && (id in s.settled ==> id !in s.ledger && id !in s.tokens)
    && s.freed[id] <= 1 && (0 < id <= s.lastId ==> id in s.ledger || s.freed[id] == 1)
  }

  /** a is due before b, or at the same time and was queued before it. */
  ghost predicate Earlier(timers: map<Block, Timer>, a: Block, b: Block) {
    && a in timers && b in timers
    && (timers[a].due < timers[b].due || (timers[a].due == timers[b].due && timers[a].stamp < timers[b].stamp))
  }

  ghost predicate SortedByDue(timers: map<Block, Timer>, q: seq<Block>) {
    forall i, j :: 0 <= i < j < |q| ==> Earlier(timers, q[i], q[j])
  }

  ghost predicate LowerId(timers: map<Block, Timer>, a: Block, b: Block) {
    a in timers && b in timers && timers[a].id < timers[b].id
  }

  ghost predicate SortedById(timers: map<Block, Timer>, q: seq<Block>) {
    forall i, j :: 0 <= i < j < |q| ==> LowerId(timers, q[i], q[j])
  }

  ghost predicate LoopOk(s: State) {
    && (!s.loop.Resting? ==> s.loop.now <= s.clock)
    && (TIMER_THREAD in s.calls ==> s.loop.Running?)
    && (!s.loop.Resting? && !s.loop.Sampled? ==>
          (s.loop.block in s.timers && s.loop.block in s.roles
           && s.timers[s.loop.block].flags.running && s.timers[s.loop.block].due <= Millis(s.loop.now)))
    && (s.loop.Returned? && s.loop.cancel ==> !s.timers[s.loop.block].flags.oneShot)
  }

  ghost predicate Inv(s: State) {
    && s.roles.Keys == s.timers.Keys
    && (forall b {:trigger BlockOk(s, b)} :: b in s.timers ==> BlockOk(s, b))
    && (forall t {:trigger CallOk(s, t)} :: t in s.calls ==> CallOk(s, t))
    && (forall v {:trigger VariableOk(s, v)} :: v in s.variables ==> VariableOk(s, v))
    && (forall id {:trigger IdOk(s, id)} :: IdOk(s, id))
    && Listed(s.roles, s.byId, s.queue, s.pool)
    && SortedById(s.timers, s.byId) && SortedByDue(s.timers, s.queue)
    && LoopOk(s)
  }
}
