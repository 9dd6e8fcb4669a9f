/** The reader/writer lock of Source/WaitableObjects.cpp never gets stuck: whoever wants it can still have it, if those
    that have it let go. */
module RwProgress {
  import opened Paths
  import opened LockWords
  import opened RwLocks

  /** A state that comes after s, of fewer than 0x80000000 guards, and is in order. */
  ghost predicate On(s: State, t: State) {
    Leads(Do, s, t) && Inv(t) && |t.guards| == |s.guards| < HIGH
  }

  lemma Take(s: State, t: State, step: Step) returns (t': State)
    requires On(s, t) && Enabled(t, step)
    ensures t' == Do(t, step) && On(s, t')
  {
    LeadsOn(Do, s, t, step);
    StepKeeps(t, step);
    t' := Do(t, step);
  }

  /** A reader lets go, for good or to become a writer. */
  lemma ReaderLeaves(s: State, t: State, g: nat) returns (t': State)
    requires On(s, t) && g < |t.guards| && Reads(t.guards[g])
    ensures On(s, t') && Count(t'.guards, Reads) < Count(t.guards, Reads)
    ensures t'.guards[g] in {Outside, WantExclusive} && t'.guards == t.guards[g := t'.guards[g]]
  {
    CountBound(t.guards, g, Reads);
    if t.guards[g] == Shared {
      t' := Take(s, t, Drop(g, false));
    } else if t.guards[g].seen != t.word {
      t' := Take(s, t, Swap(g));
    } else {
      t' := t;
    }
    t' := Take(s, t', Swap(g));
    CountUpdate(t.guards, g, t'.guards[g], Reads);
    assert t'.guards == t.guards[g := t'.guards[g]];
  }

  lemma {:induction false} ReadersLeave(s: State, t: State) returns (t': State)
    requires On(s, t)
    ensures On(s, t') && Count(t'.guards, Reads) == 0
    decreases Count(t.guards, Reads)
  {
    t' := t;
    if Count(t.guards, Reads) > 0 {
      var g := SomeoneCounts(t.guards, Reads);
      t' := ReaderLeaves(s, t, g);
      t' := ReadersLeave(s, t');
    }
  }

  /** The writer, if there is one, gets the lock and lets go. */
  lemma WriterLeaves(s: State, t: State) returns (t': State)
    requires On(s, t) && Count(t.guards, Reads) == 0
    ensures On(s, t') && t'.word == 0
  {
    t' := t;
    if High(t.word) {
      var g := SomeoneCounts(t.guards, Writes);
      if t.guards[g] == Draining {
        t' := Take(s, t, Drain(g));
      }
      t' := Take(s, t', ReleaseExclusive(g, false));
    }
  }

  /** Nobody has the lock. */
  lemma AllLeave(s: State) returns (t: State)
    requires Inv(s) && |s.guards| < HIGH
    ensures On(s, t) && t.word == 0
  {
    LeadsSelf<State, Step>(Do, s);
    t := ReadersLeave(s, s);
    t := WriterLeaves(s, t);
  }

  lemma FreeIsOut(t: State, i: nat)
    requires Inv(t) && t.word == 0 && i < |t.guards|
    ensures !Reads(t.guards[i]) && !Writes(t.guards[i])
  {
    CountBound(t.guards, i, Reads);
    CountBound(t.guards, i, Writes);
  }

  /** A guard that wants to read a free lock gets it. */
  lemma Enters(s: State, t: State, i: nat) returns (t': State)
    requires On(s, t) && t.word == 0 && i < |t.guards| && (t.guards[i].WantShared? || t.guards[i].TryShared?)
    ensures On(s, t') && t'.guards[i] == Shared && t'.word == 1
  {
    t' := t;
    if t.guards[i].TryShared? && t.guards[i].seen != 0 {
      t' := Take(s, t', Swap(i));
    }
    if t'.guards[i].WantShared? {
      t' := Take(s, t', Read(i));
    }
    t' := Take(s, t', Swap(i));
  }

  /** One that wants to write. */
  lemma Seizes(s: State, t: State, i: nat) returns (t': State)
    requires On(s, t) && t.word == 0 && i < |t.guards| && (t.guards[i].WantExclusive? || t.guards[i].TryExclusive?)
    ensures On(s, t') && t'.guards[i] == Exclusive
  {
    t' := t;
    if t.guards[i].TryExclusive? && t.guards[i].seen != 0 {
      t' := Take(s, t', Swap(i));
    }
    if t'.guards[i].WantExclusive? {
      t' := Take(s, t', Read(i));
    }
    t' := Take(s, t', Swap(i));
    t' := Take(s, t', Drain(i));
  }

  /** The guard has given up what it wanted, and the lock is free. */
  lemma StartsAnew(s: State, i: nat) returns (t: State)
    requires Inv(s) && |s.guards| < HIGH && i < |s.guards|
    ensures On(s, t) && t.word == 0 && t.guards[i] == Outside
  {
    t := AllLeave(s);
    FreeIsOut(t, i);
    if t.guards[i].WantShared? || t.guards[i].TryShared? {
      t := Enters(s, t, i);
      t := Take(s, t, Drop(i, false));
      t := Take(s, t, Swap(i));
    } else if t.guards[i] != Outside {
      t := Seizes(s, t, i);
      t := Take(s, t, ReleaseExclusive(i, false));
    }
  }

  /** From every reachable state some steps lead to one in which a given guard has the lock: for reading, or for
      writing. */
  lemma NeverStuck(states: seq<State>, steps: seq<Step>, k: nat, i: nat) returns (reading: State, writing: State)
    requires Run(states, steps) && k < |states| && |states[0].guards| < HIGH && i < |states[0].guards|
    ensures Leads(Do, states[k], reading) && |reading.guards| == |states[0].guards| && reading.guards[i] == Shared
    ensures Leads(Do, states[k], writing) && |writing.guards| == |states[0].guards| && writing.guards[i] == Exclusive
  {
    RunKeeps(states, steps, k);
    var s := states[k];
    var t := StartsAnew(s, i);
    reading := Take(s, t, BeginShared(i));
    reading := Enters(s, reading, i);
    writing := Take(s, t, BeginExclusive(i));
    writing := Seizes(s, writing, i);
  }
}
