/** Runs of any system that moves in steps, and what they can reach. */
module Paths {
  import opened Octets

  /** `move` gives the state after a step, if the step is allowed. */
  predicate Runnable<T, N>(move: (T, N) -> Option<T>, s: T, steps: seq<N>)
    decreases |steps|
  {
    steps == [] || (move(s, steps[0]).Some? && Runnable(move, move(s, steps[0]).value, steps[1..]))
  }

  function AfterAll<T, N>(move: (T, N) -> Option<T>, s: T, steps: seq<N>): T
    requires Runnable(move, s, steps)
    decreases |steps|
  {
    if steps == [] then s else AfterAll(move, move(s, steps[0]).value, steps[1..])
  }

  ghost predicate CanReach<T, N(!new)>(move: (T, N) -> Option<T>, goal: T -> bool, s: T) {
    exists steps: seq<N> :: Runnable(move, s, steps) && goal(AfterAll(move, s, steps))
  }

  lemma PathTo<T, N(!new)>(move: (T, N) -> Option<T>, goal: T -> bool, s: T) returns (steps: seq<N>)
    requires CanReach(move, goal, s)
    ensures Runnable(move, s, steps) && goal(AfterAll(move, s, steps))
  {
    steps :| Runnable(move, s, steps) && goal(AfterAll(move, s, steps));
  }

  lemma AlreadyThere<T, N(!new)>(move: (T, N) -> Option<T>, goal: T -> bool, s: T)
    requires goal(s)
    ensures CanReach(move, goal, s)
  {
    assert Runnable(move, s, []) && AfterAll(move, s, []) == s;
  }

  lemma OneMoreStep<T, N(!new)>(move: (T, N) -> Option<T>, goal: T -> bool, s: T, n: N)
    requires move(s, n).Some? && CanReach(move, goal, move(s, n).value)
    ensures CanReach(move, goal, s)
  {
    var t := move(s, n).value;
    var rest: seq<N> :| Runnable(move, t, rest) && goal(AfterAll(move, t, rest));
    assert ([n] + rest)[1..] == rest;
    assert Runnable(move, s, [n] + rest) && AfterAll(move, s, [n] + rest) == AfterAll(move, t, rest);
  }
}
