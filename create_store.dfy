/**
 * The store built by `createStore(reducer, initialState)`: one mutable state
 * cell, an ordered array of listeners, and the operations getState, dispatch,
 * subscribe and the unsubscribe closure that subscribe hands back.
 */
module CreateStore {

  /**
   * A listener function. Listeners are compared by reference (`!==`), so the
   * model keeps only their identity; calling one is recorded in a trace.
   */
  type ListenerId = nat

  /**
   * `listeners.filter(l => l !== listener)`: every entry identical to `l` is
   * dropped, every other entry is kept.
   */
  function Without(listeners: seq<ListenerId>, l: ListenerId): (r: seq<ListenerId>)
    ensures l !in r
    ensures forall x :: x in r <==> x in listeners && x != l
    ensures |r| <= |listeners|
  {
    if listeners == [] then []
    else if listeners[0] == l then Without(listeners[1..], l)
    else [listeners[0]] + Without(listeners[1..], l)
  }

  /**
   * Each listener other than `l` keeps exactly as many entries as it had;
   * `l` keeps none, however many times it was subscribed.
   */
  lemma {:induction false} WithoutMultiset(listeners: seq<ListenerId>, l: ListenerId)
    ensures multiset(Without(listeners, l)) == multiset(listeners)[l := 0]
    decreases |listeners|
  {
    if listeners != [] {
      assert listeners == [listeners[0]] + listeners[1..];
      WithoutMultiset(listeners[1..], l);
    }
  }

  /**
   * Filtering distributes over concatenation, so the entries that remain keep
   * their relative order.
   */
  lemma {:induction false} WithoutAppend(a: seq<ListenerId>, b: seq<ListenerId>, l: ListenerId)
    ensures Without(a + b, l) == Without(a, l) + Without(b, l)
    decreases |a|
  {
    if a == [] {
      assert a + b == b;
    } else {
      assert (a + b)[0] == a[0];
      assert (a + b)[1..] == a[1..] + b;
      WithoutAppend(a[1..], b, l);
    }
  }

  /** Dropping a listener that is not registered changes nothing. */
  lemma {:induction false} WithoutAbsent(listeners: seq<ListenerId>, l: ListenerId)
    requires l !in listeners
    ensures Without(listeners, l) == listeners
    decreases |listeners|
  {
    if listeners != [] {
      assert listeners[1..] + [] == listeners[1..];
      WithoutAbsent(listeners[1..], l);
    }
  }

  /** Unsubscribing twice is the same as unsubscribing once. */
  lemma WithoutIdempotent(listeners: seq<ListenerId>, l: ListenerId)
    ensures Without(Without(listeners, l), l) == Without(listeners, l)
  {
    WithoutAbsent(Without(listeners, l), l);
  }

  /** Two unsubscriptions give the same listener array in either order. */
  lemma {:induction false} WithoutCommutes(listeners: seq<ListenerId>, l: ListenerId, m: ListenerId)
    ensures Without(Without(listeners, l), m) == Without(Without(listeners, m), l)
    decreases |listeners|
  {
    if listeners != [] {
      WithoutCommutes(listeners[1..], l, m);
    }
  }

  /**
   * Unsubscribing undoes subscribing: the appended entry goes, and when the
   * listener was not registered before, the array is back to what it was.
   */
  lemma SubscribeUnsubscribe(listeners: seq<ListenerId>, l: ListenerId)
    ensures Without(listeners + [l], l) == Without(listeners, l)
    ensures l !in listeners ==> Without(listeners + [l], l) == listeners
  {
    WithoutAppend(listeners, [l], l);
    assert Without([l], l) == [];
    if l !in listeners {
      WithoutAbsent(listeners, l);
    }
  }

  /**
   * `listeners.forEach(listener => listener())`: calls every entry of the
   * array once, first to last, while the store holds `current`. The result is
   * the trace of calls made, each paired with the state that listener reads
   * through `getState()`.
   */
  method Notify<S>(snapshot: seq<ListenerId>, current: S) returns (calls: seq<(ListenerId, S)>)
    ensures |calls| == |snapshot|
    ensures forall i :: 0 <= i < |calls| ==> calls[i] == (snapshot[i], current)
  {
    calls := [];
    for i := 0 to |snapshot|
      invariant |calls| == i
      invariant forall k :: 0 <= k < i ==> calls[k] == (snapshot[k], current)
    {
      calls := calls + [(snapshot[i], current)];
    }
  }

  /**
   * The unsubscribe closure returned by `subscribe`: it belongs to the store
   * that made it and remembers its listener.
   */
  datatype Subscription<S, A> = Subscription(store: Store<S, A>, listener: ListenerId)

  /** A store over states `S` and actions `A`, driven by `reducer`. */
  class Store<S, A> {
    const reducer: (S, A) -> S
    var state: S
    var listeners: seq<ListenerId>

    /** `createStore(reducer, initialState)`. */
    constructor (reducer: (S, A) -> S, initialState: S)
      ensures this.reducer == reducer
      ensures state == initialState && listeners == []
    {
      this.reducer := reducer;
      state := initialState;
      listeners := [];
    }

    /** `getState()`: the current state, with no side effect. */
    method GetState() returns (s: S)
      ensures s == state
    {
      s := state;
    }

    /**
     * `dispatch(action)`: replaces the state by the reducer's result, then
     * calls each registered listener once per entry, in registration order;
     * every listener called already reads the new state.
     */
    method Dispatch(action: A) returns (calls: seq<(ListenerId, S)>)
      modifies this
      ensures state == reducer(old(state), action)
      ensures listeners == old(listeners)
      ensures |calls| == |old(listeners)|
      ensures forall i :: 0 <= i < |calls| ==> calls[i] == (old(listeners)[i], state)
    {
      state := reducer(state, action);
      calls := Notify(listeners, state);
    }

    /**
     * `subscribe(listener)`: appends the listener (a second subscription of
     * the same listener adds a second entry) and returns its unsubscribe.
     */
    method Subscribe(listener: ListenerId) returns (unsubscribe: Subscription<S, A>)
      modifies this
      ensures listeners == old(listeners) + [listener]
      ensures state == old(state)
      ensures unsubscribe == Subscription(this, listener)
    {
      listeners := listeners + [listener];
      unsubscribe := Subscription(this, listener);
    }

    /**
     * Calling the closure returned by this store's `subscribe`: replaces the
     * array by a filtered copy without any entry of that listener.
     */
    method Unsubscribe(unsubscribe: Subscription<S, A>)
      requires unsubscribe.store == this
      modifies this
      ensures listeners == Without(old(listeners), unsubscribe.listener)
      ensures state == old(state)
    {
      listeners := Without(listeners, unsubscribe.listener);
    }
  }
}
