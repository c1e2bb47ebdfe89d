# Event registry with publish-before-subscribe buffering

This project models `Event()` from Event.js, a small in-memory publish/subscribe
registry. Each call to `Event()` creates a registry that owns three private
dictionaries keyed by event name:

- `list`: the persistent listeners of each name, in registration order;
- `oncelist`: the one-shot listeners of each name, in registration order;
- `offline`: the argument tuples emitted for a name while it had no entry in
  either listener dictionary, in emission order.

`emit` buffers into `offline` while a name has no entry in `list` or `oncelist`.
Otherwise it calls the persistent listeners, then the one-shot listeners, and
empties the one-shot group. `on` always registers and replays any buffer to the
new listener. `once` replays a buffer without registering, or registers when
there is no buffer. `removeListener` takes a listener out by identity, or
empties both groups of a name. Entries are emptied and never deleted. So once a
name has an entry, even an empty one, later emissions for it are dispatched
and never buffered.

The registry is the class `EventRegistry.Registry` (event_registry.dfy). Its
fields `list`, `oncelist` and `offline` are maps that the methods reassign.
Listeners are opaque identities (`ListenerId`). Argument values are opaque
strings. Each listener invocation is recorded by appending a `Call` to the
field `trace`, so the contracts state exactly which calls happen and in what
order. An absent key in `offline` stands for JavaScript's `null`/`undefined`:
both are falsy at Event.js:57, 64 and 87, and a buffer is never empty.
`Registry.Valid()` is the invariant every public method keeps. It says that
a buffer is non-empty and exists only for a name with no entry in `list` or
`oncelist`.

The specifications of the calls are three recursive functions:
- `Dispatch(fns, args)` is one emission's calls;
- `Replay(fn, buffered)` is one replay's calls;
- `Without(fns, fn)` is removal by identity.

Lemmas state what each function means: one call per entry in order,
concatenation, and multiset and order preservation. The loops of `_doOffline`,
`_trigger` and `_remove` are methods proved equal to those functions.
event_examples.dfy replays the usage walk-through in the header comment of
Event.js (lines 9-34) against the contracts alone. For any registry, name,
listeners and arguments, it also states when the buffering window closes and
when it reopens, and that two registries are independent.

Where the documentation and the code disagree, the model follows the code:

- Note 4 of the header comment (Event.js:7) says that after one
  publish-then-subscribe, buffering never reopens for that name. In the code,
  `on` and a `once` that finds no buffer both create a listener entry
  (Event.js:51, 56, 69). That entry is only ever emptied (Event.js:96, 107),
  so buffering is closed for good. A `once` that drains a buffer creates no
  entry (Event.js:64-66), so the next `emit` buffers again and the next
  subscriber gets that emission replayed (`EventExamples.OnceReopensBuffering`).
  The walk-through at Event.js:20 agrees with the code: the emission there is
  buffered silently.

## Model

| member | source | states |
|---|---|---|
| `EventRegistry.Registry.constructor` | Event.js:36-40 | a new registry starts with empty `list`, `oncelist` and `offline`, has made no calls, and satisfies the invariant |
| `EventRegistry.Appended` | Event.js:50-53 | `_listen`: the key is now present; its sequence is the old one (empty if absent) with the listener appended at the end; every other key is unchanged |
| `EventRegistry.Registry.DoOffline` | Event.js:42-49 | `_doOffline`: the listener is called once per buffered tuple, in emission order (`Replay`); then the buffer is dropped; the listener dictionaries are unchanged |
| `EventRegistry.Registry.On` | Event.js:55-61 | `on`: the listener is always appended to `list[key]`; any buffer is replayed to it and dropped; `oncelist` is unchanged; the invariant is kept; listener keys only grow |
| `EventRegistry.Registry.Once` | Event.js:63-71 | `once`: with a buffer, replays it to the listener and drops it, leaving both listener dictionaries unchanged; without one, appends the listener to `oncelist[key]` and calls nothing |
| `EventRegistry.Registry.Invoke` | Event.js:72-80 | `_trigger`: every listener of the array is called with the arguments, in order, duplicates included (`Dispatch`); the dictionaries are unchanged |
| `EventRegistry.Registry.Emit` | Event.js:82-99 | `emit`: with no entry in `list` or `oncelist`, appends the tuple to the name's buffer and calls nothing. Otherwise it calls `list[key]`, then `oncelist[key]`, in order, and empties `oncelist[key]`. It never touches `list` or `offline` there, and it keeps the invariant |
| `EventRegistry.RemoveFrom` | Event.js:100-115 | `_remove` on one array: with no listener it empties the array; otherwise the reverse splice loop leaves exactly `Without(fns, fn)` |
| `EventRegistry.Registry.RemoveListener` | Event.js:117-120 | `removeListener`: both groups of the name lose every occurrence of the listener, or are emptied when none is given; keys stay present; other names, buffers and calls are unchanged |
| `EventRegistry.DispatchLength` | Event.js:77-79 | an emission makes exactly as many calls as there are registered entries, duplicates included, for every listener array including the empty one |
| `EventRegistry.DispatchAt` | Event.js:77-79 | an emission makes exactly one call per registered entry, the i-th to the i-th listener, all with the emitted arguments |
| `EventRegistry.DispatchConcat` | Event.js:91-97 | dispatching to two groups in turn is dispatching to their concatenation: persistent calls come first, then one-shot calls |
| `EventRegistry.ReplayLength` | Event.js:44-47 | a replay makes exactly as many calls as there are buffered tuples, for every buffer including the empty one |
| `EventRegistry.ReplayAt` | Event.js:44-47 | a replay makes exactly one call per buffered tuple, the i-th with the i-th emitted tuple, all to the subscribing listener |
| `EventRegistry.ReplayConcat` | Event.js:44-47 | replaying a buffer that grew by later emissions replays the earlier emissions first |
| `EventRegistry.WithoutConcat` | Event.js:110-113 | removal by identity keeps the relative order of the remaining listeners |
| `EventRegistry.WithoutMultiset` | Event.js:110-113 | removal drops every occurrence of the listener and keeps every other listener with its multiplicity |
| `EventRegistry.WithoutAbsent` | Event.js:110-113 | removing a listener that is not registered changes nothing |
| `EventRegistry.WithoutIdempotent` | Event.js:110-113 | removing the same listener twice is the same as removing it once |
| `EventExamples.EmitEarly` | Event.js:15-16 | four emissions on two unsubscribed names are buffered per name, in order, and call nothing |
| `EventExamples.SubscribeLate` | Event.js:17-18 | `on` replays its buffer and registers; `once` replays its buffer without registering; both buffers are gone |
| `EventExamples.EmitAfterSubscribe` | Event.js:19-20 | the name with a persistent listener dispatches to it; the name drained by `once` buffers the emission again |
| `EventExamples.RemoveAndResubscribe` | Event.js:21-24 | after removal an emission is dropped; a new `on` replays nothing; the next emission reaches the new listener only |
| `EventExamples.PublishThenSubscribe` | Event.js:14-24 | the exact call sequence of the publish-before-subscribe walk-through, and the buffer it leaves behind |
| `EventExamples.SubscribeEarly` | Event.js:26-30 | two one-shot and three persistent registrations are kept in registration order, duplicates included |
| `EventExamples.EmitFirst` | Event.js:31 | the first emission calls the three persistent entries, then both one-shot listeners, and empties the one-shot group |
| `EventExamples.EmitSecond` | Event.js:32 | the second emission calls only the persistent entries |
| `EventExamples.RemoveAndEmit` | Event.js:33-34 | removing a listener by identity takes out both of its copies; the next emission calls only the remaining listener |
| `EventExamples.SubscribeThenPublish` | Event.js:25-34 | the exact call sequence of the subscribe-before-publish walk-through |
| `EventExamples.RegistriesIndependent` | Event.js:9-10 | for any two distinct registries and any name unsubscribed in the first: an emission on the first is neither seen nor consumed by a subscriber of the second, which gets exactly its own registry's buffer replayed; the first registry's next subscriber gets the emission replayed after anything buffered earlier |
| `EventExamples.OnceReopensBuffering` | Event.js:63-67 | for any registry and unsubscribed name: emit, `once`, emit, `on` replays the first emission (after any earlier buffer) to the `once` listener, buffers the second, and replays it to the `on` listener; `oncelist` is unchanged |
| `EventExamples.OnClosesBuffering` | Event.js:85-88 | for any registry and name: after `on`, whatever `removeListener` takes out, a later emission is not buffered, and with every listener removed it calls nothing; a later `once` registers (its group is exactly that listener) instead of replaying |

## Left out

- Listener bodies and re-entrancy. Listeners are inert identities whose calls are recorded in `trace`. In the source, a listener that calls `on`, `emit` or `removeListener` on the same registry would change what happens next. `_trigger` iterates the live array (Event.js:77), while the model dispatches to the sequence as it stood when `emit` began; the two agree because listeners are inert. `on` registers before replaying (Event.js:56-59). Neither effect of re-entrancy is modelled.
- Exceptions thrown by listeners. The source does not catch them, so they abort the rest of the dispatch and propagate to the caller of `emit`.
- The early stop of the dispatch loop at a falsy array entry (Event.js:77). Listener arrays only ever hold the functions passed to `on` and `once`.
- JavaScript argument handling: `arguments` shifting and slicing, `apply`, and the `this` binding (Event.js:46, 73-84, 92, 95). An emission's arguments are a plain sequence.
- Plain-object quirks of the three dictionaries, such as inherited keys like `constructor` or `__proto__`. Names are plain map keys.
- The aliases `trigger` and `addListener` (Event.js:121-128). They are the same functions as `emit` and `on`, modelled once as `Emit` and `On`.
- The `return false` of `_remove` (Event.js:102). `remove` calls `_remove` only for a non-empty array, so that line never runs.
- `removeListener` with a falsy argument that is not a function, for example `0`. It behaves like omitting the listener, which `RemoveListener` models as `None`.
- The listener arrays are JavaScript arrays mutated in place. Here they are sequence values that the methods store back into the maps. Nothing outside the closure can hold one of those arrays, so no aliasing is lost.
