/** Runs of a state machine, one step after the other. */
module Steps {
  /** The state after these steps. */
  ghost function On<S, A>(step: (S, A) -> S, s: S, ops: seq<A>): S
    decreases |ops|
  {
    if ops == [] then s else On(step, step(s, ops[0]), ops[1..])
  }

  lemma OneByOne<S, A>(step: (S, A) -> S, s: S, ops: seq<A>, a: A, rest: seq<A>)
    requires ops == [a] + rest
    ensures On(step, s, ops) == On(step, step(s, a), rest)
  {
    assert ops[1..] == rest;
  }

  lemma {:induction false} OnAppend<S, A>(step: (S, A) -> S, s: S, ops: seq<A>, more: seq<A>)
    ensures On(step, s, ops + more) == On(step, On(step, s, ops), more)
    decreases |ops|
  {
    if ops == [] {
      assert ops + more == more;
    } else {
      assert (ops + more)[1..] == ops[1..] + more;
      OnAppend(step, step(s, ops[0]), ops[1..], more);
    }
  }

  /** One step more at the end. */
  lemma {:induction false} OnLast<S, A>(step: (S, A) -> S, s: S, ops: seq<A>)
    requires ops != []
    ensures On(step, s, ops) == step(On(step, s, ops[..|ops| - 1]), ops[|ops| - 1])
  {
    var k := |ops| - 1;
    assert ops == ops[..k] + [ops[k]];
    OnAppend(step, s, ops[..k], [ops[k]]);
    OneByOne(step, On(step, s, ops[..k]), [ops[k]], ops[k], []);
  }
}
