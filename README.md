# createStore counter: a verified model

The repository is a React counter whose state lives in a small hand-written
store. This project models the two pieces of logic in it, both in
`src/App.js`:

- the **reducer**: a pure, total transition function over a state `{ count }`.
  `INCREMENT` adds one. `DECREMENT` subtracts one. Any other action type
  returns the state unchanged. It is module `Counter` (`counter.dfy`).
- the **store** made by `createStore(reducer, initialState)`: a mutable state
  cell and an ordered array of listeners, with `getState`, `dispatch`,
  `subscribe` and the unsubscribe closure that `subscribe` returns. It is the
  class `CreateStore.Store` (`create_store.dfy`). The class is generic in the
  state and action types, and the reducer is a constructor argument, as in the
  source.

Module `App` (`app.dfy`) wires the two together the way the component does.
It creates a store from the counter reducer and the initial state `{ count: 0 }`,
then runs a session of dispatches, subscriptions and unsubscriptions.

Modelling choices:

- Listeners are compared by reference in the source (`!==`). The model
  therefore represents them as opaque identities (`ListenerId`).
- Calling a listener is recorded in a returned trace. `Dispatch` returns the
  listeners it called, in the order it called them. Each listener is paired
  with the state it reads through `getState()` when it runs.
- The unsubscribe closure is the value `Subscription(store, listener)` returned
  by `Subscribe`. Calling it is the method `Unsubscribe` of the store that made
  it.
- `Without` is the `filter(l => l !== listener)` expression.
- `ReduceAll` folds the reducer over a sequence of actions. It is used to
  state properties of repeated dispatches.
- An action keeps the source's string `type`, as the field `kind`, because
  `type` is a Dafny keyword. An "other" action is any action whose type is
  neither `"INCREMENT"` nor `"DECREMENT"`.

## Model

| member | source | states |
|---|---|---|
| `Counter.Reduce` | src/App.js:11-20 | one step moves the count by at most one, and the state is returned unchanged exactly when the action type is neither INCREMENT nor DECREMENT |
| `Counter.ReduceIncrement` | src/App.js:13-14 | INCREMENT yields a count exactly one more than the input's |
| `Counter.ReduceDecrement` | src/App.js:15-16 | DECREMENT yields a count exactly one less than the input's |
| `Counter.ReduceUnrecognized` | src/App.js:17-18 | any other action type returns the input state unchanged |
| `Counter.IncrementDecrementRoundTrip` | src/App.js:13-16 | INCREMENT then DECREMENT, and DECREMENT then INCREMENT, both give back the original state |
| `Counter.ReduceAll` | src/App.js:29 | after a sequence of dispatches the count has moved by at most the number of actions |
| `Counter.ReduceAllNet` | src/App.js:11-20 | after a sequence of dispatches the count is the initial count plus the number of INCREMENTs minus the number of DECREMENTs |
| `Counter.ReduceAllAppend` | src/App.js:29 | dispatching two action sequences one after the other equals dispatching their concatenation |
| `Counter.RepeatedIncrement` | src/App.js:13-14 | n INCREMENT dispatches raise the count by exactly n |
| `Counter.RepeatedDecrement` | src/App.js:15-16 | n DECREMENT dispatches lower the count by exactly n |
| `Counter.UnrecognizedOnly` | src/App.js:17-18 | dispatching only unrecognised action types leaves the state as it was |
| `CreateStore.Without` | src/App.js:38 | the filtered array holds no entry of the dropped listener, holds every other registered listener and nothing else, and is no longer than the original |
| `CreateStore.WithoutMultiset` | src/App.js:38 | every other listener keeps exactly its number of entries, and all copies of the dropped listener go, however many times it was subscribed |
| `CreateStore.WithoutAppend` | src/App.js:38 | filtering distributes over concatenation, so the remaining listeners keep their relative order |
| `CreateStore.WithoutAbsent` | src/App.js:38 | dropping a listener that is not registered leaves the array unchanged |
| `CreateStore.WithoutIdempotent` | src/App.js:37-39 | calling an unsubscribe twice has the same effect as calling it once |
| `CreateStore.WithoutCommutes` | src/App.js:37-39 | two unsubscriptions give the same array whichever runs first |
| `CreateStore.SubscribeUnsubscribe` | src/App.js:33-39 | unsubscribing removes the entry subscribing appended, and restores the original array when the listener was not registered before |
| `CreateStore.Notify` | src/App.js:30 | the listeners are called once per array entry, in array order, and each call sees the store's current state: entry i of the trace is the i-th listener paired with that state |
| `CreateStore.Store.constructor` | src/App.js:22-24 | a new store holds the given reducer and initial state and has no listeners |
| `CreateStore.Store.GetState` | src/App.js:26 | returns the current state |
| `CreateStore.Store.Dispatch` | src/App.js:28-31 | the new state is the reducer applied to the old state and the action, the listener array is unchanged, and the listeners called are exactly those registered at call time, in registration order; the state is replaced before any listener runs, so each listener reads the new state |
| `CreateStore.Store.Subscribe` | src/App.js:33-35 | the listener is appended after the earlier entries (a second subscription adds a second entry), the state is unchanged, and the returned unsubscribe belongs to this store and refers to that listener |
| `CreateStore.Store.Unsubscribe` | src/App.js:37-39 | for an unsubscribe made by this store, the array becomes its filtered copy without any entry of that listener, and the state is unchanged |
| `App.CounterSession` | src/App.js:64-66 | from count 0, three INCREMENTs, one DECREMENT and one unknown action leave count 2; a listener subscribed twice is notified twice per dispatch until one unsubscribe drops both copies; once every listener has unsubscribed (one of them twice), nobody is notified; every listener called reads the state its dispatch produced, starting from the initial count 0 of src/App.js:4-6 |

## Left out

- The React side of the component is framework behaviour, not store logic, so it is not modelled. This covers `StoreContext` (src/App.js:45), the `useStore` hook (src/App.js:47-61), `StoreProvider` (src/App.js:68-74), the `Counter` markup and its button handlers (src/App.js:76-86) and the render tree (src/App.js:88-92). `App.CounterSession` plays the part of the button clicks.
- A listener that throws is not modelled. In the source the exception stops the `forEach` at src/App.js:30, so later listeners are not called, and it leaves `dispatch` after the state was already replaced at src/App.js:29. `CreateStore.Store.Dispatch` always calls every registered listener.
- A `dispatch` with a null or undefined action is not modelled. In the source it throws at src/App.js:12 before the state changes; `Counter.Action` always has a type.
- The bodies of the listener closures are not modelled. A listener is an identity whose call is recorded in a trace. In particular, a listener that itself calls `dispatch`, `subscribe` or an unsubscribe during a notification is not modelled.
- `count` is a JavaScript number, which is an IEEE double. The model uses an unbounded integer, so precision loss beyond 2^53 is not modelled.
- The reducer's default branch returns the very same state object. The model compares states by value, so object identity is not modelled.
- An action type that is not a string (for example a missing `type`) is not modelled. Such a value matches neither case of the switch, exactly like an unrecognised string, so the reducer behaves the same.
