/**
 * The counter's state and its reducer: the pure transition function that the
 * store applies on every dispatch.
 */
module Counter {

  /** The state object `{ count }`; the count is unbounded. */
  datatype State = State(count: int)

  /** An action object `{ type }`; the reducer reads nothing but its type. */
  datatype Action = Action(kind: string)

  const INCREMENT: string := "INCREMENT"
  const DECREMENT: string := "DECREMENT"

  /** The state the store is created with. */
  const InitialState: State := State(0)

  /** True of the two action types the reducer's switch has a case for. */
  predicate Recognized(a: Action) {
    a.kind == INCREMENT || a.kind == DECREMENT
  }

  /**
   * The reducer. One step moves the count by at most one, and the state comes
   * back unchanged exactly when the action type is not one the switch knows.
   */
  function Reduce(s: State, a: Action): (r: State)
    ensures s.count - 1 <= r.count <= s.count + 1
    ensures r == s <==> !Recognized(a)
  {
    if a.kind == INCREMENT then State(s.count + 1)
    else if a.kind == DECREMENT then State(s.count - 1)
    else s
  }

  lemma ReduceIncrement(s: State)
    ensures Reduce(s, Action(INCREMENT)).count == s.count + 1
  {
  }

  lemma ReduceDecrement(s: State)
    ensures Reduce(s, Action(DECREMENT)).count == s.count - 1
  {
  }

  lemma ReduceUnrecognized(s: State, a: Action)
    requires !Recognized(a)
    ensures Reduce(s, a) == s
  {
  }

  /** Incrementing and decrementing undo each other, in either order. */
  lemma IncrementDecrementRoundTrip(s: State)
    ensures Reduce(Reduce(s, Action(INCREMENT)), Action(DECREMENT)) == s
    ensures Reduce(Reduce(s, Action(DECREMENT)), Action(INCREMENT)) == s
  {
  }

  /**
   * The state reached by dispatching `actions` one after another, starting
   * from `s`. Each dispatch moves the count by at most one.
   */
  function ReduceAll(s: State, actions: seq<Action>): (r: State)
    ensures s.count - |actions| <= r.count <= s.count + |actions|
    decreases |actions|
  {
    if actions == [] then s else ReduceAll(Reduce(s, actions[0]), actions[1..])
  }

  /** The number of actions in `actions` whose type is `kind`. */
  function Occurrences(actions: seq<Action>, kind: string): (n: nat)
    ensures n <= |actions|
  {
    if actions == [] then 0
    else (if actions[0].kind == kind then 1 else 0) + Occurrences(actions[1..], kind)
  }

  /** `n` copies of the action `a`. */
  function Repeat(a: Action, n: nat): (r: seq<Action>)
    ensures |r| == n
    ensures forall i :: 0 <= i < n ==> r[i] == a
  {
    seq(n, _ => a)
  }

  /**
   * The final count is the initial count plus the number of INCREMENT actions
   * minus the number of DECREMENT actions; every other action counts for nothing.
   */
  lemma {:induction false} ReduceAllNet(s: State, actions: seq<Action>)
    ensures ReduceAll(s, actions).count
         == s.count + Occurrences(actions, INCREMENT) - Occurrences(actions, DECREMENT)
    decreases |actions|
  {
    if actions != [] {
      ReduceAllNet(Reduce(s, actions[0]), actions[1..]);
    }
  }

  /** Dispatching `a` and then `b` is dispatching their concatenation. */
  lemma {:induction false} ReduceAllAppend(s: State, a: seq<Action>, b: seq<Action>)
    ensures ReduceAll(s, a + b) == ReduceAll(ReduceAll(s, a), b)
    decreases |a|
  {
    if a != [] {
      assert (a + b)[0] == a[0];
      assert (a + b)[1..] == a[1..] + b;
      ReduceAllAppend(Reduce(s, a[0]), a[1..], b);
    } else {
      assert a + b == b;
    }
  }

  /** `n` INCREMENT dispatches raise the count by exactly `n`. */
  lemma {:induction false} RepeatedIncrement(s: State, n: nat)
    ensures ReduceAll(s, Repeat(Action(INCREMENT), n)) == State(s.count + n)
    decreases n
  {
    if n > 0 {
      assert Repeat(Action(INCREMENT), n)[1..] == Repeat(Action(INCREMENT), n - 1);
      RepeatedIncrement(Reduce(s, Action(INCREMENT)), n - 1);
    }
  }

  /** `n` DECREMENT dispatches lower the count by exactly `n`. */
  lemma {:induction false} RepeatedDecrement(s: State, n: nat)
    ensures ReduceAll(s, Repeat(Action(DECREMENT), n)) == State(s.count - n)
    decreases n
  {
    if n > 0 {
      assert Repeat(Action(DECREMENT), n)[1..] == Repeat(Action(DECREMENT), n - 1);
      RepeatedDecrement(Reduce(s, Action(DECREMENT)), n - 1);
    }
  }

  /** Dispatching only unrecognised actions leaves the state as it was. */
  lemma {:induction false} UnrecognizedOnly(s: State, actions: seq<Action>)
    requires forall i :: 0 <= i < |actions| ==> !Recognized(actions[i])
    ensures ReduceAll(s, actions) == s
    decreases |actions|
  {
    if actions != [] {
      UnrecognizedOnly(Reduce(s, actions[0]), actions[1..]);
    }
  }
}
