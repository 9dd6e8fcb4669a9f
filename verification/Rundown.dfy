/** Rundown protection, RundownProt_* in Source/WaitableObjects.cpp: holders come and go until someone
    closes the protection and waits for the last to leave. Each interlocked operation is one step. */
module Rundown {
  import opened LockWords

  /** Where a CAutoRundownProtection is: seen is the value its loop goes on with. */
  datatype User = Outside | Entering(seen: Word) | Inside | Leaving(seen: Word)

  /** Where a call of RundownProt_WaitForRelease is. */
  datatype Closer = Idle | Waiting | Done

  datatype State = State(word: Word, users: seq<User>, closers: seq<Closer>)

  datatype Step =
    | ReadToEnter(user: nat)      // Acquire reads the word
    | TryEnter(user: nat)         // Acquire gives up, or compares and exchanges
    | ReadToLeave(user: nat)
    | TryLeave(user: nat)
    | Raise(closer: nat)          // WaitForRelease sets the high bit
    | Check(closer: nat)          // WaitForRelease reads the word, and returns if nobody is inside

  predicate Enabled(s: State, step: Step) {
    match step
    case ReadToEnter(u) => u < |s.users| && s.users[u].Outside?
    case TryEnter(u) => u < |s.users| && s.users[u].Entering?
    case ReadToLeave(u) => u < |s.users| && s.users[u].Inside?
    case TryLeave(u) => u < |s.users| && s.users[u].Leaving?
    case Raise(c) => c < |s.closers| && s.closers[c].Idle?
    case Check(c) => c < |s.closers| && s.closers[c].Waiting?
  }

  function Do(s: State, step: Step): State
    requires Enabled(s, step)
  {
    match step
    case ReadToEnter(u) => s.(users := s.users[u := Entering(s.word)])
    case TryEnter(u) =>
      if High(s.users[u].seen) then s.(users := s.users[u := Outside])
      else if s.word == s.users[u].seen then s.(word := Incremented(s.word), users := s.users[u := Inside])
      else s.(users := s.users[u := Entering(s.word)])
    case ReadToLeave(u) => s.(users := s.users[u := Leaving(s.word)])
    case TryLeave(u) =>
      if s.word == s.users[u].seen then s.(word := Decremented(s.word), users := s.users[u := Outside])
      else s.(users := s.users[u := Leaving(s.word)])
    case Raise(c) => s.(word := Raised(s.word), closers := s.closers[c := Waiting])
    case Check(c) => if s.word == HIGH then s.(closers := s.closers[c := Done]) else s
  }

  predicate Holds(u: User) {
    u.Inside? || u.Leaving?
  }

  function Holders(s: State): nat {
    Count(s.users, Holds)
  }

  ghost predicate Closing(s: State) {
    exists c :: 0 <= c < |s.closers| && s.closers[c] != Idle
  }

  /** The low bits count the holders, the high bit says that the protection is closing, and once a
      closer is done nobody holds it. */
  ghost predicate Inv(s: State) {
    && Low(s.word) == Holders(s) && (High(s.word) <==> Closing(s))
    && (Done in s.closers ==> Holders(s) == 0)
  }

  ghost predicate Initial(s: State) {
    s.word == 0 && (forall u :: 0 <= u < |s.users| ==> s.users[u] == Outside)
    && (forall c :: 0 <= c < |s.closers| ==> s.closers[c] == Idle)
  }

  /** Entering is the one step that can break the count: exactly when 0x7FFFFFFF hold already. */
  lemma EnterKeepsIff(s: State, u: nat)
    requires Inv(s) && Enabled(s, TryEnter(u)) && !High(s.users[u].seen) && s.word == s.users[u].seen
    ensures Inv(Do(s, TryEnter(u))) <==> Holders(s) < HIGH - 1
  {
    CountUpdate(s.users, u, Inside, Holds);
    assert Do(s, TryEnter(u)).closers == s.closers;
  }

  lemma EnterKeeps(s: State, step: Step)
    requires Inv(s) && |s.users| < HIGH && Enabled(s, step) && (step.ReadToEnter? || step.TryEnter?)
    ensures Inv(Do(s, step))
  {
    CountUpdate(s.users, step.user, Do(s, step).users[step.user], Holds);
    CountBound(s.users, step.user, Holds);
    assert Do(s, step).closers == s.closers;
  }

  lemma LeaveKeeps(s: State, step: Step)
    requires Inv(s) && Enabled(s, step) && (step.ReadToLeave? || step.TryLeave?)
    ensures Inv(Do(s, step))
  {
    CountUpdate(s.users, step.user, Do(s, step).users[step.user], Holds);
    CountBound(s.users, step.user, Holds);
    assert Do(s, step).closers == s.closers;
  }

  lemma StepKeeps(s: State, step: Step)
    requires Inv(s) && |s.users| < HIGH && Enabled(s, step)
    ensures Inv(Do(s, step))
  {
    var s' := Do(s, step);
    match step
    case Raise(c) =>
      assert s'.closers[c] == Waiting;
      if Done in s'.closers {
        var d :| 0 <= d < |s'.closers| && s'.closers[d] == Done;
        assert s.closers[d] == Done;
      }
    case Check(c) =>
      if s.word == HIGH {
        assert s'.closers[c] == Done && s.closers[c] == Waiting;
      }
    case ReadToEnter(_) => EnterKeeps(s, step);
    case TryEnter(_) => EnterKeeps(s, step);
    case ReadToLeave(_) => LeaveKeeps(s, step);
    case TryLeave(_) => LeaveKeeps(s, step);
  }

  ghost predicate Run(states: seq<State>, steps: seq<Step>) {
    && |states| == |steps| + 1 && Initial(states[0])
    && forall i :: 0 <= i < |steps| ==> Enabled(states[i], steps[i]) && states[i + 1] == Do(states[i], steps[i])
  }

  lemma {:induction false} RunKeeps(states: seq<State>, steps: seq<Step>, i: nat)
    requires Run(states, steps) && i < |states| && |states[0].users| < HIGH
    ensures Inv(states[i]) && |states[i].users| == |states[0].users| && |states[i].closers| == |states[0].closers|
    decreases i
  {
    if i == 0 {
      CountNone(states[0].users, Holds);
    } else {
      RunKeeps(states, steps, i - 1);
      StepKeeps(states[i - 1], steps[i - 1]);
    }
  }

  lemma Extend(states: seq<State>, steps: seq<Step>, step: Step) returns (states': seq<State>, steps': seq<Step>)
    requires Run(states, steps) && Enabled(states[|steps|], step)
    ensures states' == states + [Do(states[|steps|], step)] && steps' == steps + [step] && Run(states', steps')
  {
    states', steps' := states + [Do(states[|steps|], step)], steps + [step];
  }

  /** A run in which the first k of n users come in one after another, and nobody closes the protection. */
  lemma {:induction false} AllEnter(n: nat, k: nat) returns (states: seq<State>, steps: seq<Step>)
    requires k <= n && k <= HIGH
    ensures Run(states, steps) && |states[0].users| == n
    ensures var s := states[|steps|];
            && s.word == k == Holders(s) && s.closers == [] && |s.users| == n
            && forall u :: 0 <= u < n ==> s.users[u] == if u < k then Inside else Outside
  {
    if k == 0 {
      states, steps := [State(0, seq(n, _ => Outside), [])], [];
      CountNone(states[0].users, Holds);
    } else {
      states, steps := AllEnter(n, k - 1);
      CountUpdate(states[|steps|].users, k - 1, Entering(k - 1), Holds);
      states, steps := Extend(states, steps, ReadToEnter(k - 1));
      CountUpdate(states[|steps|].users, k - 1, Inside, Holds);
      states, steps := Extend(states, steps, TryEnter(k - 1));
    }
  }

  /** With 0x80000000 users or more there is a run in which the word comes to look closed, and free, though
      nobody closes it and all those users are inside. */
  lemma Overflow(n: nat) returns (states: seq<State>, steps: seq<Step>)
    requires n >= HIGH
    ensures Run(states, steps) && |states[0].users| == n
    ensures var s := states[|steps|]; s.word == HIGH == Holders(s) && !Closing(s)
  {
    states, steps := AllEnter(n, HIGH);
  }

  ghost predicate BreaksIn(states: seq<State>, steps: seq<Step>, i: nat, n: nat) {
    Run(states, steps) && i < |states| && |states[0].users| == n && !Inv(states[i])
  }

  /** Some run of n users breaks the invariant exactly if there are 0x80000000 of them or more. */
  lemma BreaksIff(n: nat)
    ensures (exists states: seq<State>, steps: seq<Step>, i: nat :: BreaksIn(states, steps, i, n)) <==> n >= HIGH
  {
    if n >= HIGH {
      var states, steps := Overflow(n);
      assert BreaksIn(states, steps, |steps|, n);
    } else {
      forall states: seq<State>, steps: seq<Step>, i: nat | Run(states, steps) && i < |states| && |states[0].users| == n
        ensures Inv(states[i])
      {
        RunKeeps(states, steps, i);
      }
    }
  }

  lemma DoneStays(s: State, step: Step)
    requires Enabled(s, step) && Done in s.closers
    ensures Done in Do(s, step).closers
  {
    var d :| 0 <= d < |s.closers| && s.closers[d] == Done;
    assert Do(s, step).closers[d] == Done;
  }

  lemma {:induction false} StaysDone(states: seq<State>, steps: seq<Step>, i: nat, j: nat)
    requires Run(states, steps) && i <= j < |states| && Done in states[i].closers
    ensures Done in states[j].closers
    decreases j - i
  {
    if i < j {
      StaysDone(states, steps, i, j - 1);
      DoneStays(states[j - 1], steps[j - 1]);
    }
  }

  /** Once a call of WaitForRelease has returned, nobody is inside, and nobody ever gets in again. */
  lemma ClosedForGood(states: seq<State>, steps: seq<Step>, i: nat, j: nat)
    requires Run(states, steps) && i <= j < |states| && |states[0].users| < HIGH && Done in states[i].closers
    ensures Holders(states[j]) == 0 && states[j].word == HIGH
    ensures forall u :: 0 <= u < |states[j].users| ==> !Holds(states[j].users[u])
  {
    StaysDone(states, steps, i, j);
    RunKeeps(states, steps, j);
    var s := states[j];
    var d :| 0 <= d < |s.closers| && s.closers[d] == Done;
    assert Closing(s);
    forall u | 0 <= u < |s.users| ensures !Holds(s.users[u]) {
      CountBound(s.users, u, Holds);
    }
  }

  /** Until someone closes the protection, every attempt to enter that is not disturbed succeeds. */
  lemma OpenUntilClosed(states: seq<State>, steps: seq<Step>, i: nat, u: nat)
    requires Run(states, steps) && i < |steps| && |states[0].users| < HIGH
    requires steps[i] == TryEnter(u) && states[i].users[u].seen == states[i].word && !Closing(states[i])
    ensures states[i + 1].users[u] == Inside
  {
    RunKeeps(states, steps, i);
  }
}
