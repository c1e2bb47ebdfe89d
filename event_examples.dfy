/**
 Client walk-throughs checked against the registry's contracts alone: the
 usage walk-through in the header comment of Event.js, the independence of two
 registries, and when the buffering window of a name closes or reopens.
 */
module EventExamples {
  import opened EventRegistry

  const Fn1: ListenerId := 1
  const Fn2: ListenerId := 2
  const Fn3: ListenerId := 3

  /** The state of `r`, field by field. */
  ghost predicate Holds(r: Registry, list: map<Key, seq<ListenerId>>, oncelist: map<Key, seq<ListenerId>>,
                        offline: map<Key, seq<Args>>, trace: seq<Call>)
    reads r
  {
    r.list == list && r.oncelist == oncelist && r.offline == offline && r.trace == trace
  }

  /** Four emissions on two names nobody listens to are buffered per name. */
  method EmitEarly(event: Registry)
    requires Holds(event, map[], map[], map[], [])
    modifies event
    ensures event.Valid()
    ensures Holds(event, map[], map[], map["jk-b" := [["2四川"], ["4成都"]], "jk-c" := [["3四川"], ["6成都"]]], [])
  {
    assert Entry(event.offline, "jk-b") + [["2四川"]] == [["2四川"]];
    event.Emit("jk-b", ["2四川"]);
    assert Entry(event.offline, "jk-b") + [["4成都"]] == [["2四川"], ["4成都"]];
    event.Emit("jk-b", ["4成都"]);
    assert Entry(event.offline, "jk-c") + [["3四川"]] == [["3四川"]];
    event.Emit("jk-c", ["3四川"]);
    assert Entry(event.offline, "jk-c") + [["6成都"]] == [["3四川"], ["6成都"]];
    event.Emit("jk-c", ["6成都"]);
  }

  /** `on` and `once` each replay their name's buffer; only `on` registers. */
  method SubscribeLate(event: Registry)
    requires event.Valid()
    requires Holds(event, map[], map[], map["jk-b" := [["2四川"], ["4成都"]], "jk-c" := [["3四川"], ["6成都"]]], [])
    modifies event
    ensures event.Valid()
    ensures Holds(event, map["jk-b" := [Fn1]], map[], map[],
                  [Call(Fn1, ["2四川"]), Call(Fn1, ["4成都"]), Call(Fn2, ["3四川"]), Call(Fn2, ["6成都"])])
  {
    ghost var b: seq<Args> := [["2四川"], ["4成都"]];
    assert b[1..] == [["4成都"]] && b[1..][1..] == [];
    ghost var c: seq<Args> := [["3四川"], ["6成都"]];
    assert c[1..] == [["6成都"]] && c[1..][1..] == [];
    event.On("jk-b", Fn1);
    event.Once("jk-c", Fn2);
  }

  /** The name with a persistent listener dispatches; the name whose buffer a
      `once` drained buffers again. */
  method EmitAfterSubscribe(event: Registry, t: seq<Call>)
    requires event.Valid() && Holds(event, map["jk-b" := [Fn1]], map[], map[], t)
    modifies event
    ensures event.Valid()
    ensures Holds(event, map["jk-b" := [Fn1]], map[], map["jk-c" := [["jk3"]]], t + [Call(Fn1, ["jk2"])])
  {
    event.Emit("jk-b", ["jk2"]);
    assert Entry(event.offline, "jk-c") + [["jk3"]] == [["jk3"]];
    event.Emit("jk-c", ["jk3"]);
  }

  /** After `removeListener` empties the name, an emission is dropped, a new
      `on` replays nothing, and the next emission reaches the new listener. */
  method RemoveAndResubscribe(event: Registry, t: seq<Call>)
    requires event.Valid() && Holds(event, map["jk-b" := [Fn1]], map[], map["jk-c" := [["jk3"]]], t)
    modifies event
    ensures Holds(event, map["jk-b" := [Fn2]], map[], map["jk-c" := [["jk3"]]], t + [Call(Fn2, ["jk4"])])
  {
    event.RemoveListener("jk-b", None);
    event.Emit("jk-b", ["jk4"]);
    event.On("jk-b", Fn2);
    event.Emit("jk-b", ["jk4"]);
  }

  /** Publish before subscribe: buffered emissions are replayed to the first
      subscriber; `on` stays registered, a replaying `once` does not; after
      `removeListener` an emission is dropped and a new `on` gets no replay. */
  method PublishThenSubscribe() returns (t: seq<Call>, pending: map<Key, seq<Args>>)
    ensures t == [Call(Fn1, ["2四川"]), Call(Fn1, ["4成都"]),
                  Call(Fn2, ["3四川"]), Call(Fn2, ["6成都"]),
                  Call(Fn1, ["jk2"]),
                  Call(Fn2, ["jk4"])]
    ensures pending == map["jk-c" := [["jk3"]]]
  {
    var event := new Registry();
    EmitEarly(event);
    SubscribeLate(event);
    EmitAfterSubscribe(event, event.trace);
    RemoveAndResubscribe(event, event.trace);
    t, pending := event.trace, event.offline;
  }

  /** Two one-shot and three persistent registrations, one of them twice. */
  method SubscribeEarly(event1: Registry)
    requires Holds(event1, map[], map[], map[], [])
    modifies event1
    ensures event1.Valid()
    ensures Holds(event1, map["jk-b" := [Fn2, Fn1, Fn1]], map["jk-b" := [Fn1, Fn3]], map[], [])
  {
    assert Entry(event1.oncelist, "jk-b") + [Fn1] == [Fn1];
    event1.Once("jk-b", Fn1);
    assert Entry(event1.oncelist, "jk-b") + [Fn3] == [Fn1, Fn3];
    event1.Once("jk-b", Fn3);
    assert Entry(event1.list, "jk-b") + [Fn2] == [Fn2];
    event1.On("jk-b", Fn2);
    assert Entry(event1.list, "jk-b") + [Fn1] == [Fn2, Fn1];
    event1.On("jk-b", Fn1);
    assert Entry(event1.list, "jk-b") + [Fn1] == [Fn2, Fn1, Fn1];
    event1.On("jk-b", Fn1);
  }

  /** The first emission fires the persistent listeners, then the one-shot ones. */
  method EmitFirst(event1: Registry)
    requires event1.Valid()
    requires Holds(event1, map["jk-b" := [Fn2, Fn1, Fn1]], map["jk-b" := [Fn1, Fn3]], map[], [])
    modifies event1
    ensures event1.Valid()
    ensures Holds(event1, map["jk-b" := [Fn2, Fn1, Fn1]], map["jk-b" := []], map[],
                  [Call(Fn2, ["执行1"]), Call(Fn1, ["执行1"]), Call(Fn1, ["执行1"]),
                   Call(Fn1, ["执行1"]), Call(Fn3, ["执行1"])])
  {
    ghost var fns: seq<ListenerId> := [Fn2, Fn1, Fn1];
    assert fns[1..] == [Fn1, Fn1] && fns[1..][1..] == [Fn1] && fns[1..][1..][1..] == [];
    assert Dispatch(fns[1..][1..], ["执行1"]) == [Call(Fn1, ["执行1"])];
    assert Dispatch(fns[1..], ["执行1"]) == [Call(Fn1, ["执行1"]), Call(Fn1, ["执行1"])];
    ghost var ones: seq<ListenerId> := [Fn1, Fn3];
    assert ones[1..] == [Fn3] && ones[1..][1..] == [];
    event1.Emit("jk-b", ["执行1"]);
  }

  /** The second emission fires only the persistent listeners. */
  method EmitSecond(event1: Registry)
    requires event1.Valid()
    requires Holds(event1, map["jk-b" := [Fn2, Fn1, Fn1]], map["jk-b" := []], map[], event1.trace)
    modifies event1
    ensures event1.Valid()
    ensures Holds(event1, map["jk-b" := [Fn2, Fn1, Fn1]], map["jk-b" := []], map[],
                  old(event1.trace) + [Call(Fn2, ["执行2"]), Call(Fn1, ["执行2"]), Call(Fn1, ["执行2"])])
  {
    ghost var fns: seq<ListenerId> := [Fn2, Fn1, Fn1];
    assert fns[1..] == [Fn1, Fn1] && fns[1..][1..] == [Fn1] && fns[1..][1..][1..] == [];
    assert Dispatch(fns[1..][1..], ["执行2"]) == [Call(Fn1, ["执行2"])];
    assert Dispatch(fns[1..], ["执行2"]) == [Call(Fn1, ["执行2"]), Call(Fn1, ["执行2"])];
    event1.Emit("jk-b", ["执行2"]);
  }

  /** Removing `Fn1` by identity takes out both of its copies. */
  method RemoveAndEmit(event1: Registry)
    requires event1.Valid()
    requires Holds(event1, map["jk-b" := [Fn2, Fn1, Fn1]], map["jk-b" := []], map[], event1.trace)
    modifies event1
    ensures Holds(event1, map["jk-b" := [Fn2]], map["jk-b" := []], map[],
                  old(event1.trace) + [Call(Fn2, ["执行3"])])
  {
    ghost var fns: seq<ListenerId> := [Fn2, Fn1, Fn1];
    assert fns[1..] == [Fn1, Fn1] && fns[1..][1..] == [Fn1] && fns[1..][1..][1..] == [];
    assert Without(fns[1..][1..], Fn1) == [];
    assert Without(fns[1..], Fn1) == [];
    assert Without(fns, Fn1) == [Fn2];
    event1.RemoveListener("jk-b", Some(Fn1));
    event1.Emit("jk-b", ["执行3"]);
  }

  /** Subscribe before publish: persistent listeners fire in registration
      order (duplicates included), then one-shot listeners, which fire once;
      removal by identity takes out every copy of the listener. */
  method SubscribeThenPublish() returns (t: seq<Call>)
    ensures t == [Call(Fn2, ["执行1"]), Call(Fn1, ["执行1"]), Call(Fn1, ["执行1"]),
                  Call(Fn1, ["执行1"]), Call(Fn3, ["执行1"]),
                  Call(Fn2, ["执行2"]), Call(Fn1, ["执行2"]), Call(Fn1, ["执行2"]),
                  Call(Fn2, ["执行3"])]
  {
    var event1 := new Registry();
    SubscribeEarly(event1);
    EmitFirst(event1);
    EmitSecond(event1);
    RemoveAndEmit(event1);
    t := event1.trace;
  }

  /** Two registries share nothing: an emission buffered by one is neither
      seen nor consumed by a subscriber of the other, which gets only its own
      registry's buffer; the emission is replayed, after anything buffered
      earlier, to the first subscriber of its own registry. */
  method RegistriesIndependent(r1: Registry, r2: Registry, key: Key, args: Args, f1: ListenerId, f2: ListenerId)
    requires r1 != r2 && r1.Valid() && r2.Valid()
    requires !r1.Subscribed(key)
    modifies r1, r2
    ensures r1.trace == old(r1.trace) + Replay(f1, Entry(old(r1.offline), key) + [args])
    ensures r1.offline == old(r1.offline) - {key}
    ensures r2.trace == old(r2.trace) + Replay(f2, Entry(old(r2.offline), key))
    ensures r2.offline == old(r2.offline) - {key}
  {
    r1.Emit(key, args);
    r2.On(key, f2);
    r1.On(key, f1);
  }

  /** A `once` that drains a buffer leaves no listener entry behind, so the
      next emission is buffered again and replayed to the next subscriber. */
  method OnceReopensBuffering(r: Registry, key: Key, a: Args, b: Args, f: ListenerId, g: ListenerId)
    requires r.Valid() && !r.Subscribed(key)
    modifies r
    ensures r.trace == old(r.trace) + Replay(f, Entry(old(r.offline), key) + [a]) + [Call(g, b)]
    ensures r.list == Appended(old(r.list), key, g) && r.oncelist == old(r.oncelist)
    ensures r.offline == old(r.offline) - {key}
  {
    r.Emit(key, a);
    r.Once(key, f);
    assert !r.Subscribed(key) && key !in r.offline;
    r.Emit(key, b);
    assert r.offline[key] == [b];
    assert [b][1..] == [];
    r.On(key, g);
  }

  /** After `on` the buffering window of a name is closed for good: whatever
      is removed, a later emission is not buffered (and calls nothing when
      every listener was removed), and a later `once` registers instead of
      replaying. */
  method OnClosesBuffering(r: Registry, key: Key, fn: ListenerId, removed: Option<ListenerId>,
                           args: Args, g: ListenerId)
    requires r.Valid()
    modifies r
    ensures r.offline == old(r.offline) - {key}
    ensures removed.None? ==> r.trace == old(r.trace) + Replay(fn, Entry(old(r.offline), key))
    ensures key in r.list && key in r.oncelist && r.oncelist[key] == [g]
  {
    r.On(key, fn);
    ghost var replayed := r.trace;
    r.RemoveListener(key, removed);
    assert removed.None? ==> Entry(r.list, key) == [] && Entry(r.oncelist, key) == [];
    r.Emit(key, args);
    assert removed.None? ==> r.trace == replayed;
    assert Entry(r.oncelist, key) == [];
    r.Once(key, g);
  }
}
