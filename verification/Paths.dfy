/** Where the steps of a state machine can lead. */
module Paths {

  /** These steps can be taken one after another. */
  ghost predicate Goes<S, A>(next: (S, A) --> S, s: S, path: seq<A>)
    decreases |path|
  {
    path == [] || (next.requires(s, path[0]) && Goes(next, next(s, path[0]), path[1..]))
  }

  ghost function After<S, A>(next: (S, A) --> S, s: S, path: seq<A>): S
    requires Goes(next, s, path)
    decreases |path|
  {
    if path == [] then s else After(next, next(s, path[0]), path[1..])
  }

  /** Some steps lead from s to t. */
  ghost predicate Leads<S, A(!new)>(next: (S, A) --> S, s: S, t: S) {
    exists path: seq<A> :: Goes(next, s, path) && After(next, s, path) == t
  }

  lemma LeadsSelf<S, A(!new)>(next: (S, A) --> S, s: S)
    ensures Leads(next, s, s)
  {
    var none: seq<A> := [];
    assert Goes(next, s, none) && After(next, s, none) == s;
  }

  lemma {:induction false} GoesOn<S, A>(next: (S, A) --> S, s: S, path: seq<A>, step: A)
    requires Goes(next, s, path) && next.requires(After(next, s, path), step)
    ensures Goes(next, s, path + [step]) && After(next, s, path + [step]) == next(After(next, s, path), step)
    decreases |path|
  {
    if path != [] {
      GoesOn(next, next(s, path[0]), path[1..], step);
      assert (path + [step])[1..] == path[1..] + [step];
    } else {
      assert (path + [step])[1..] == [];
    }
  }

  lemma LeadsOn<S, A(!new)>(next: (S, A) --> S, s: S, t: S, step: A)
    requires Leads(next, s, t) && next.requires(t, step)
    ensures Leads(next, s, next(t, step))
  {
    var path: seq<A> :| Goes(next, s, path) && After(next, s, path) == t;
    GoesOn(next, s, path, step);
    assert Goes(next, s, path + [step]);
  }
}
