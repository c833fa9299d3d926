/**
 * The wiring of the counter: a store created from the counter reducer and its
 * initial state, driven by the Increment and Decrement buttons.
 */
module App {
  import opened Counter
  import opened CreateStore

  /**
   * A session with one view listener and one listener subscribed twice:
   * three increments, one decrement and one unrecognised action leave the
   * count at 2; both copies of the doubly subscribed listener are notified
   * until one unsubscribe drops them both, and after every unsubscription
   * (one of them repeated) nobody is notified. Every listener called reads the
   * state its dispatch produced.
   */
  method CounterSession() returns (first: seq<(ListenerId, State)>,
                                   afterDrop: seq<(ListenerId, State)>,
                                   last: seq<(ListenerId, State)>, final: State)
    ensures first == [(1, State(1)), (2, State(1)), (2, State(1))]
    ensures afterDrop == [(1, State(2))]
    ensures last == []
    ensures final == State(2)
  {
    var store := new Store(Reduce, InitialState);
    var view := store.Subscribe(1);
    var twiceA := store.Subscribe(2);
    var twiceB := store.Subscribe(2);
    assert store.listeners == [1, 2, 2] && store.state == State(0);
    first := store.Dispatch(Action(INCREMENT));
    assert store.listeners == [1, 2, 2] && store.state == State(1);
    assert first == [(1, State(1)), (2, State(1)), (2, State(1))];
    assert Without([2], 2) == [];
    assert Without([2, 2], 2) == [];
    store.Unsubscribe(twiceA);
    assert store.listeners == [1];
    afterDrop := store.Dispatch(Action(INCREMENT));
    assert store.state == State(2);
    assert afterDrop == [(1, State(2))];
    var calls := store.Dispatch(Action(INCREMENT));
    assert store.state == State(3);
    calls := store.Dispatch(Action(DECREMENT));
    assert store.state == State(2);
    store.Unsubscribe(view);
    assert store.listeners == [];
    store.Unsubscribe(view);
    store.Unsubscribe(twiceB);
    assert store.listeners == [];
    last := store.Dispatch(Action("RESET"));
    final := store.GetState();
  }
}
