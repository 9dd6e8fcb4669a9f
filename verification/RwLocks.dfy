/** The reader/writer lock that Source/WaitableObjects.cpp falls back to, SlimRWL_* without the locks of
    the system, with the guards of Include/WaitableObjects.h. Each interlocked operation is one step. */
module RwLocks {
  import opened LockWords

  /** Where a guard is: seen is the value its compare-and-exchange loop goes on with. */
  datatype Guard =
    | Outside
    | WantShared
    | TryShared(seen: Word)
    | Shared
    | Dropping(seen: Word, upgrade: bool)   // releases the shared lock, to go on for the exclusive one or not
    | WantExclusive
    | TryExclusive(seen: Word)
    | Draining                              // has set the high bit, and waits for the readers
    | Exclusive

  datatype State = State(word: Word, guards: seq<Guard>)

  datatype Step =
    | BeginShared(guard: nat)
    | BeginExclusive(guard: nat)
    | Read(guard: nat)
    | Swap(guard: nat)
    | Fail(guard: nat)                      // a TryAcquire returns FALSE
    | Drain(guard: nat)
    | Drop(guard: nat, upgrade: bool)
    | ReleaseExclusive(guard: nat, downgrade: bool)

  predicate Enabled(s: State, step: Step) {
    && step.guard < |s.guards|
    && var g := s.guards[step.guard];
       match step
       case BeginShared(_) => g.Outside?
       case BeginExclusive(_) => g.Outside?
       case Read(_) => g.WantShared? || g.WantExclusive?
       case Swap(_) => g.TryShared? || g.TryExclusive? || g.Dropping?
       case Fail(_) => (g.TryShared? || g.TryExclusive?) && High(g.seen)
       case Drain(_) => g.Draining?
       case Drop(_, _) => g.Shared?
       case ReleaseExclusive(_, _) => g.Exclusive?
  }

  /** The compare-and-exchange of a guard: what becomes of the word and of the guard. */
  function Swapped(word: Word, g: Guard): (Word, Guard)
    requires g.TryShared? || g.TryExclusive? || g.Dropping?
  {
    match g
    case TryShared(seen) =>
      if High(seen) then (word, WantShared)
      else if word == seen then (Incremented(word), Shared) else (word, TryShared(word))
    case TryExclusive(seen) =>
      if High(seen) then (word, WantExclusive)
      else if word == seen then (Raised(word), Draining) else (word, TryExclusive(word))
    case Dropping(seen, upgrade) =>
      if word == seen then (Decremented(word), if upgrade then WantExclusive else Outside)
      else (word, Dropping(word, upgrade))
  }

  function Do(s: State, step: Step): State
    requires Enabled(s, step)
  {
    var i := step.guard;
    match step
    case BeginShared(_) => s.(guards := s.guards[i := WantShared])
    case BeginExclusive(_) => s.(guards := s.guards[i := WantExclusive])
    case Read(_) =>
      s.(guards := s.guards[i := if s.guards[i].WantShared? then TryShared(s.word) else TryExclusive(s.word)])
    case Swap(_) => var r := Swapped(s.word, s.guards[i]); State(r.0, s.guards[i := r.1])
    case Fail(_) => s.(guards := s.guards[i := Outside])
    case Drain(_) => if Low(s.word) == 0 then s.(guards := s.guards[i := Exclusive]) else s
    case Drop(_, upgrade) => s.(guards := s.guards[i := Dropping(s.word, upgrade)])
    case ReleaseExclusive(_, downgrade) => State(0, s.guards[i := if downgrade then WantShared else Outside])
  }

  predicate Reads(g: Guard) {
    g.Shared? || g.Dropping?
  }

  predicate Writes(g: Guard) {
    g.Draining? || g.Exclusive?
  }

  /** The low bits count the readers, the high bit the writer; while one is exclusive there are no readers. */
  ghost predicate Inv(s: State) {
    && Low(s.word) == Count(s.guards, Reads)
    && Count(s.guards, Writes) == (if High(s.word) then 1 else 0)
    && (Exclusive in s.guards ==> Low(s.word) == 0)
  }

  ghost predicate Initial(s: State) {
    s.word == 0 && forall i :: 0 <= i < |s.guards| ==> s.guards[i] == Outside
  }

  /** A reader that enters keeps the count exactly if there are fewer than 0x7FFFFFFF others. */
  lemma EnterKeepsIff(s: State, i: nat)
    requires Inv(s) && Enabled(s, Swap(i)) && s.guards[i] == TryShared(s.word) && !High(s.word)
    ensures Inv(Do(s, Swap(i))) <==> Count(s.guards, Reads) < HIGH - 1
  {
    CountUpdate(s.guards, i, Shared, Reads);
    CountUpdate(s.guards, i, Shared, Writes);
    if Exclusive in Do(s, Swap(i)).guards {
      ExclusiveIs(s);
    }
  }

  /** While a guard is exclusive the high bit is set. */
  lemma ExclusiveIs(s: State)
    requires Inv(s) && Exclusive in s.guards
    ensures s.word == HIGH
  {
    var k :| 0 <= k < |s.guards| && s.guards[k] == Exclusive;
    CountBound(s.guards, k, Writes);
  }

  /** An exclusive guard has the lock to itself, and sees exactly the high bit. */
  lemma ExclusiveAlone(s: State, i: nat, j: nat)
    requires Inv(s) && i < |s.guards| && s.guards[i] == Exclusive && j < |s.guards| && j != i
    ensures s.word == HIGH && !Reads(s.guards[j]) && !Writes(s.guards[j])
  {
    ExclusiveIs(s);
    CountBound(s.guards, j, Reads);
    if Writes(s.guards[j]) {
      if i < j {
        CountTwo(s.guards, i, j, Writes);
      } else {
        CountTwo(s.guards, j, i, Writes);
      }
    }
  }

  /** Only Drain makes a guard exclusive, so elsewhere an exclusive guard was exclusive before. */
  lemma StillExclusive(s: State, step: Step)
    requires Inv(s) && Enabled(s, step) && Exclusive in Do(s, step).guards
             && Do(s, step).guards[step.guard] != Exclusive
    ensures s.word == HIGH && !Reads(s.guards[step.guard]) && !Writes(s.guards[step.guard]) && Exclusive in s.guards
  {
    var s' := Do(s, step);
    var k :| 0 <= k < |s'.guards| && s'.guards[k] == Exclusive;
    ExclusiveAlone(s, k, step.guard);
  }

  lemma SwapCounts(s: State, step: Step)
    requires Inv(s) && |s.guards| < HIGH && Enabled(s, step) && step.Swap?
    ensures var s' := Do(s, step);
            Low(s'.word) == Count(s'.guards, Reads) && Count(s'.guards, Writes) == if High(s'.word) then 1 else 0
  {
    var i, s' := step.guard, Do(s, step);
    CountUpdate(s.guards, i, s'.guards[i], Reads);
    CountUpdate(s.guards, i, s'.guards[i], Writes);
    CountBound(s.guards, i, Reads);
  }

  lemma SwapKeeps(s: State, step: Step)
    requires Inv(s) && |s.guards| < HIGH && Enabled(s, step) && step.Swap?
    ensures Inv(Do(s, step))
  {
    SwapCounts(s, step);
    if Exclusive in Do(s, step).guards {
      StillExclusive(s, step);
    }
  }

  lemma StepKeeps(s: State, step: Step)
    requires Inv(s) && |s.guards| < HIGH && Enabled(s, step)
    ensures Inv(Do(s, step))
  {
    var i, s' := step.guard, Do(s, step);
    if step.Swap? {
      SwapKeeps(s, step);
    } else {
      CountUpdate(s.guards, i, s'.guards[i], Reads);
      CountUpdate(s.guards, i, s'.guards[i], Writes);
      CountBound(s.guards, i, Writes);
      if Exclusive in s'.guards && s'.guards[i] != Exclusive {
        StillExclusive(s, step);
      }
    }
  }

  ghost predicate Run(states: seq<State>, steps: seq<Step>) {
    && |states| == |steps| + 1 && Initial(states[0])
    && forall i :: 0 <= i < |steps| ==> Enabled(states[i], steps[i]) && states[i + 1] == Do(states[i], steps[i])
  }

  /** In every run of up to 0x7FFFFFFF guards the invariant holds in every state. */
  lemma {:induction false} RunKeeps(states: seq<State>, steps: seq<Step>, i: nat)
    requires Run(states, steps) && i < |states| && |states[0].guards| < HIGH
    ensures Inv(states[i]) && |states[i].guards| == |states[0].guards|
    decreases i
  {
    if i == 0 {
      CountNone(states[0].guards, Reads);
      CountNone(states[0].guards, Writes);
    } else {
      RunKeeps(states, steps, i - 1);
      StepKeeps(states[i - 1], steps[i - 1]);
    }
  }

  lemma Extend(states: seq<State>, steps: seq<Step>, step: Step) returns (states': seq<State>, steps': seq<Step>)
    requires Run(states, steps) && Enabled(states[|steps|], step)
    ensures states' == states + [Do(states[|steps|], step)] && steps' == steps + [step] && Run(states', steps')
  {
    states', steps' := states + [Do(states[|steps|], step)], steps + [step];
  }

  /** One more reader enters. */
  lemma OneReads(states: seq<State>, steps: seq<Step>, k: nat) returns (states': seq<State>, steps': seq<Step>)
    requires Run(states, steps) && states[|steps|].word == k == Count(states[|steps|].guards, Reads) && k < HIGH
    requires k < |states[|steps|].guards| && states[|steps|].guards[k] == Outside
    ensures Run(states', steps') && states'[0] == states[0]
    ensures states'[|steps'|] == State(k + 1, states[|steps|].guards[k := Shared])
    ensures Count(states'[|steps'|].guards, Reads) == k + 1
  {
    var guards := states[|steps|].guards;
    CountUpdate(guards, k, Shared, Reads);
    states', steps' := Extend(states, steps, BeginShared(k));
    states', steps' := Extend(states', steps', Read(k));
    states', steps' := Extend(states', steps', Swap(k));
    assert guards[k := WantShared][k := TryShared(k)][k := Shared] == guards[k := Shared];
  }

  /** A run in which the first k of n guards become readers one after another. */
  lemma {:induction false} AllRead(n: nat, k: nat) returns (states: seq<State>, steps: seq<Step>)
    requires k <= n && k <= HIGH
    ensures Run(states, steps) && |states[0].guards| == n
    ensures var s := states[|steps|];
            && s.word == k == Count(s.guards, Reads) && |s.guards| == n
            && forall i :: 0 <= i < n ==> s.guards[i] == if i < k then Shared else Outside
  {
    if k == 0 {
      states, steps := [State(0, seq(n, _ => Outside))], [];
      CountNone(states[0].guards, Reads);
    } else {
      states, steps := AllRead(n, k - 1);
      states, steps := OneReads(states, steps, k - 1);
    }
  }

  /** With 0x80000000 guards or more there is a run in which the word comes to say that a writer has the lock,
      and no reader, though all those guards are readers. */
  lemma Overflow(n: nat) returns (states: seq<State>, steps: seq<Step>)
    requires n >= HIGH
    ensures Run(states, steps) && |states[0].guards| == n
    ensures var s := states[|steps|]; s.word == HIGH == Count(s.guards, Reads)
    ensures forall g :: g in states[|steps|].guards ==> !Writes(g)
  {
    states, steps := AllRead(n, HIGH);
  }

  ghost predicate BreaksIn(states: seq<State>, steps: seq<Step>, i: nat, n: nat) {
    Run(states, steps) && i < |states| && |states[0].guards| == n && !Inv(states[i])
  }

  /** Some run of n guards breaks the invariant exactly if there are 0x80000000 of them or more. */
  lemma BreaksIff(n: nat)
    ensures (exists states: seq<State>, steps: seq<Step>, i: nat :: BreaksIn(states, steps, i, n)) <==> n >= HIGH
  {
    if n >= HIGH {
      var states, steps := Overflow(n);
      assert BreaksIn(states, steps, |steps|, n);
    } else {
      forall states: seq<State>, steps: seq<Step>, i: nat | Run(states, steps) && i < |states|
        && |states[0].guards| == n
        ensures Inv(states[i])
      {
        RunKeeps(states, steps, i);
      }
    }
  }

  /** Whoever is exclusive excludes all others, and no reader enters while a writer has the lock or waits for it. */
  lemma Exclusion(states: seq<State>, steps: seq<Step>, i: nat, w: nat)
    requires Run(states, steps) && i < |states| && |states[0].guards| < HIGH && w < |states[i].guards|
    ensures states[i].guards[w] == Exclusive ==>
              && states[i].word == HIGH
              && forall j :: 0 <= j < |states[i].guards| && j != w ==>
                  !Reads(states[i].guards[j])
                  && !Writes(states[i].guards[j])
    ensures Writes(states[i].guards[w]) && i < |steps| ==>
              forall j :: 0 <= j < |states[i].guards| && states[i + 1].guards[j] == Shared ==>
                states[i].guards[j] == Shared
  {
    var s := states[i];
    RunKeeps(states, steps, i);
    CountBound(s.guards, w, Writes);
    if s.guards[w] == Exclusive {
      forall j | 0 <= j < |s.guards| && j != w ensures s.word == HIGH && !Reads(s.guards[j]) && !Writes(s.guards[j]) {
        ExclusiveAlone(s, w, j);
      }
      ExclusiveIs(s);
    }
  }

  /** A writer that waits gets the lock as soon as no reader is left. */
  lemma DrainSucceedsIff(s: State, i: nat)
    requires Inv(s) && Enabled(s, Drain(i))
    ensures Do(s, Drain(i)).guards[i] == Exclusive <==> Count(s.guards, Reads) == 0
  {
  }

  /** The guard is on its way to the lock that it wants, or has it. */
  predicate Heads(g: Guard, exclusive: bool) {
    if exclusive then (g.Dropping? && g.upgrade) || g.WantExclusive? || g.TryExclusive? || g.Draining? || g.Exclusive?
    else g.WantShared? || g.TryShared? || g.Shared?
  }

  lemma HeadsOn(s: State, step: Step, i: nat, exclusive: bool)
    requires Enabled(s, step) && step != Fail(i) && i < |s.guards| && Heads(s.guards[i], exclusive)
    requires s.guards[i] != Exclusive && s.guards[i] != Shared
    ensures i < |Do(s, step).guards| && Heads(Do(s, step).guards[i], exclusive)
  {
  }

  /** A guard that gives up one lock for the other comes to have that, and not the one it had or none. */
  lemma {:induction false} ChangesOver(states: seq<State>, steps: seq<Step>, k: nat, j: nat, i: nat, exclusive: bool)
    requires Run(states, steps) && k < j < |states|
    requires steps[k] == if exclusive then Drop(i, true) else ReleaseExclusive(i, true)
    requires forall m :: k < m < j ==>
               steps[m] != Fail(i) && (i < |states[m].guards| ==> states[m].guards[i] !in {Shared, Exclusive})
    ensures i < |states[j].guards| && Heads(states[j].guards[i], exclusive)
    decreases j
  {
    if j > k + 1 {
      ChangesOver(states, steps, k, j - 1, i, exclusive);
      HeadsOn(states[j - 1], steps[j - 1], i, exclusive);
    }
  }
}
