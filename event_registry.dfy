/**
 A model of the publish/subscribe registry returned by `Event()` in Event.js.

 Each registry owns three dictionaries keyed by event name:
 - `list`: persistent listeners, in registration order;
 - `oncelist`: one-shot listeners, in registration order;
 - `offline`: argument tuples emitted while nobody listened, in emission order.

 Listeners are opaque identities. Calling a listener is recorded by appending
 a `Call` to `trace`, so contracts can say which calls happen and in what order.
 */
module EventRegistry {

  /** An event name. */
  type Key = string

  /** The identity of a listener function; removal compares identities. */
  type ListenerId = nat

  /** An argument value passed through to listeners; the registry never inspects it. */
  type Value = string

  /** The argument tuple of one emission (everything after the event name). */
  type Args = seq<Value>

  /** One invocation of a listener with an argument tuple. */
  datatype Call = Call(listener: ListenerId, args: Args)

  datatype Option<T> = None | Some(value: T)

  /** The sequence stored under `key`, or the empty sequence when there is none. */
  function Entry<T>(m: map<Key, seq<T>>, key: Key): seq<T>
  {
    if key in m then m[key] else []
  }

  /** `_listen`: the dictionary after appending `x` to the sequence under `key`,
      creating that sequence when it is absent. */
  function Appended<T>(cache: map<Key, seq<T>>, key: Key, x: T): (r: map<Key, seq<T>>)
    ensures r.Keys == cache.Keys + {key}
    ensures |r[key]| == |Entry(cache, key)| + 1
    ensures r[key][..|r[key]| - 1] == Entry(cache, key) && r[key][|r[key]| - 1] == x
    ensures forall k :: k in cache && k != key ==> r[k] == cache[k]
  {
    cache[key := Entry(cache, key) + [x]]
  }

  // ---------------------------------------------------------------------------
  // Specification of the calls made by one dispatch and by one replay
  // ---------------------------------------------------------------------------

  /** The calls made when every listener of `fns` is invoked, in order, with `args`. */
  function Dispatch(fns: seq<ListenerId>, args: Args): seq<Call>
  {
    if fns == [] then [] else [Call(fns[0], args)] + Dispatch(fns[1..], args)
  }

  /** The calls made when `fn` is invoked once per buffered tuple, in order. */
  function Replay(fn: ListenerId, buffered: seq<Args>): seq<Call>
  {
    if buffered == [] then [] else [Call(fn, buffered[0])] + Replay(fn, buffered[1..])
  }

  /** Dispatch makes exactly one call per listener entry, duplicates included. */
  lemma {:induction false} DispatchLength(fns: seq<ListenerId>, args: Args)
    ensures |Dispatch(fns, args)| == |fns|
  {
    if fns != [] {
      DispatchLength(fns[1..], args);
    }
  }

  /** Dispatch makes exactly one call per listener entry (duplicates included),
      the i-th one to the i-th listener, each with the emitted arguments. */
  lemma {:induction false} DispatchAt(fns: seq<ListenerId>, args: Args, i: nat)
    requires i < |fns|
    ensures |Dispatch(fns, args)| == |fns|
    ensures Dispatch(fns, args)[i] == Call(fns[i], args)
  {
    if i > 0 {
      DispatchAt(fns[1..], args, i - 1);
    } else if |fns| > 1 {
      DispatchAt(fns[1..], args, 0);
    }
  }

  /** Dispatching to a concatenation makes the first group's calls, then the second's. */
  lemma {:induction false} DispatchConcat(a: seq<ListenerId>, b: seq<ListenerId>, args: Args)
    ensures Dispatch(a + b, args) == Dispatch(a, args) + Dispatch(b, args)
  {
    if a != [] {
      assert (a + b)[1..] == a[1..] + b;
      DispatchConcat(a[1..], b, args);
    } else {
      assert a + b == b;
    }
  }

  /** Replay makes exactly one call per buffered tuple. */
  lemma {:induction false} ReplayLength(fn: ListenerId, buffered: seq<Args>)
    ensures |Replay(fn, buffered)| == |buffered|
  {
    if buffered != [] {
      ReplayLength(fn, buffered[1..]);
    }
  }

  /** Replay makes exactly one call per buffered tuple, the i-th one with the
      i-th tuple emitted, all to the same listener. */
  lemma {:induction false} ReplayAt(fn: ListenerId, buffered: seq<Args>, i: nat)
    requires i < |buffered|
    ensures |Replay(fn, buffered)| == |buffered|
    ensures Replay(fn, buffered)[i] == Call(fn, buffered[i])
  {
    if i > 0 {
      ReplayAt(fn, buffered[1..], i - 1);
    } else if |buffered| > 1 {
      ReplayAt(fn, buffered[1..], 0);
    }
  }

  /** Replaying a concatenation replays the earlier emissions first. */
  lemma {:induction false} ReplayConcat(fn: ListenerId, a: seq<Args>, b: seq<Args>)
    ensures Replay(fn, a + b) == Replay(fn, a) + Replay(fn, b)
  {
    if a != [] {
      assert (a + b)[1..] == a[1..] + b;
      ReplayConcat(fn, a[1..], b);
    } else {
      assert a + b == b;
    }
  }

  // ---------------------------------------------------------------------------
  // Specification of removal by identity
  // ---------------------------------------------------------------------------

  /** `fns` with every entry equal to `fn` taken out, the others kept in order. */
  function Without(fns: seq<ListenerId>, fn: ListenerId): seq<ListenerId>
  {
    if fns == [] then []
    else (if fns[0] == fn then [] else [fns[0]]) + Without(fns[1..], fn)
  }

  /** Removal works piecewise: it keeps the relative order of what remains. */
  lemma {:induction false} WithoutConcat(a: seq<ListenerId>, b: seq<ListenerId>, fn: ListenerId)
    ensures Without(a + b, fn) == Without(a, fn) + Without(b, fn)
  {
    if a != [] {
      assert (a + b)[1..] == a[1..] + b;
      WithoutConcat(a[1..], b, fn);
    } else {
      assert a + b == b;
    }
  }

  /** Removal drops every occurrence of `fn` and keeps every other listener
      with its multiplicity. */
  lemma {:induction false} WithoutMultiset(fns: seq<ListenerId>, fn: ListenerId)
    ensures multiset(Without(fns, fn)) == multiset(fns)[fn := 0]
  {
    if fns != [] {
      WithoutMultiset(fns[1..], fn);
      assert fns == [fns[0]] + fns[1..];
    }
  }

  /** Removing a listener that is not registered changes nothing. */
  lemma {:induction false} WithoutAbsent(fns: seq<ListenerId>, fn: ListenerId)
    requires fn !in fns
    ensures Without(fns, fn) == fns
  {
    if fns != [] {
      assert fn !in fns[1..];
      WithoutAbsent(fns[1..], fn);
      assert fns == [fns[0]] + fns[1..];
    }
  }

  /** Removing the same listener twice is the same as removing it once. */
  lemma WithoutIdempotent(fns: seq<ListenerId>, fn: ListenerId)
    ensures Without(Without(fns, fn), fn) == Without(fns, fn)
  {
    WithoutMultiset(fns, fn);
    assert fn !in multiset(Without(fns, fn));
    WithoutAbsent(Without(fns, fn), fn);
  }

  /** `_remove` on one listener array: with no listener given the array is
      emptied; otherwise a reverse index loop splices out every entry equal to
      the given listener. */
  method RemoveFrom(fns: seq<ListenerId>, fn: Option<ListenerId>) returns (r: seq<ListenerId>)
    ensures fn.None? ==> r == []
    ensures fn.Some? ==> r == Without(fns, fn.value)
  {
    if fn.None? {
      r := [];
      return;
    }
    r := fns;
    var l := |fns|;
    while l > 0
      invariant 0 <= l <= |fns|
      invariant r == fns[..l] + Without(fns[l..], fn.value)
    {
      l := l - 1;
      assert fns[l..] == [fns[l]] + fns[l + 1..];
      assert r[..l] == fns[..l];
      if r[l] == fn.value {
        r := r[..l] + r[l + 1..];
      }
    }
  }

  // ---------------------------------------------------------------------------
  // The registry
  // ---------------------------------------------------------------------------

  class Registry {
    /** Persistent listeners per event name. */
    var list: map<Key, seq<ListenerId>>
    /** One-shot listeners per event name. */
    var oncelist: map<Key, seq<ListenerId>>
    /** Buffered emissions per event name; an absent key stands for JS `null`. */
    var offline: map<Key, seq<Args>>
    /** Every listener invocation so far, oldest first. */
    var trace: seq<Call>

    /** Whether `key` has an entry (possibly emptied) in `list` or `oncelist`;
        from then on `emit` dispatches instead of buffering. */
    ghost predicate Subscribed(key: Key)
      reads this
    {
      key in list || key in oncelist
    }

    /** A buffer is never empty and exists only for names nobody subscribed to. */
    ghost predicate Valid()
      reads this
    {
      forall k :: k in offline ==> offline[k] != [] && !Subscribed(k)
    }

    /** `Event()`: a registry with three fresh, empty dictionaries. */
    constructor ()
      ensures Valid()
      ensures list == map[] && oncelist == map[] && offline == map[] && trace == []
    {
      list, oncelist, offline, trace := map[], map[], map[], [];
    }

    /** `_doOffline`: calls `fn` once per buffered tuple of `key`, in emission
        order, then drops the buffer. */
    method DoOffline(key: Key, fn: ListenerId)
      requires key in offline
      modifies this
      ensures trace == old(trace) + Replay(fn, old(offline[key]))
      ensures offline == old(offline) - {key}
      ensures list == old(list) && oncelist == old(oncelist)
    {
      var buffered := offline[key];
      var i := 0;
      while i < |buffered|
        invariant 0 <= i <= |buffered|
        invariant trace == old(trace) + Replay(fn, buffered[..i])
        invariant list == old(list) && oncelist == old(oncelist) && offline == old(offline)
      {
        assert buffered[..i + 1] == buffered[..i] + [buffered[i]];
        ReplayConcat(fn, buffered[..i], [buffered[i]]);
        trace := trace + [Call(fn, buffered[i])];
        i := i + 1;
      }
      assert buffered[..i] == buffered;
      offline := offline - {key};
    }

    /** `_trigger`: calls every listener of `fns`, in order, with `args`. */
    method Invoke(fns: seq<ListenerId>, args: Args)
      modifies this
      ensures trace == old(trace) + Dispatch(fns, args)
      ensures list == old(list) && oncelist == old(oncelist) && offline == old(offline)
    {
      var i := 0;
      while i < |fns|
        invariant 0 <= i <= |fns|
        invariant trace == old(trace) + Dispatch(fns[..i], args)
        invariant list == old(list) && oncelist == old(oncelist) && offline == old(offline)
      {
        assert fns[..i + 1] == fns[..i] + [fns[i]];
        DispatchConcat(fns[..i], [fns[i]], args);
        trace := trace + [Call(fns[i], args)];
        i := i + 1;
      }
      assert fns[..i] == fns;
    }

    /** `on` / `listen`: registers `fn` as a persistent listener of `key`;
        if emissions were buffered, replays them to `fn` and drops the buffer. */
    method On(key: Key, fn: ListenerId)
      requires Valid()
      modifies this
      ensures Valid() && old(list.Keys) <= list.Keys && old(oncelist.Keys) <= oncelist.Keys
      ensures list == Appended(old(list), key, fn) && oncelist == old(oncelist)
      ensures offline == old(offline) - {key}
      ensures trace == old(trace) + Replay(fn, Entry(old(offline), key))
    {
      list := Appended(list, key, fn);
      if key in offline {
        DoOffline(key, fn);
      }
    }

    /** `once`: if emissions were buffered for `key`, replays them to `fn` and
        drops the buffer without registering `fn`; otherwise registers `fn` as
        a one-shot listener and calls nothing. */
    method Once(key: Key, fn: ListenerId)
      requires Valid()
      modifies this
      ensures Valid() && old(list.Keys) <= list.Keys && old(oncelist.Keys) <= oncelist.Keys
      ensures list == old(list)
      ensures key in old(offline) ==>
        && oncelist == old(oncelist)
        && offline == old(offline) - {key}
        && trace == old(trace) + Replay(fn, old(offline[key]))
      ensures key !in old(offline) ==>
        && oncelist == Appended(old(oncelist), key, fn)
        && offline == old(offline)
        && trace == old(trace)
    {
      if key in offline {
        DoOffline(key, fn);
      } else {
        oncelist := Appended(oncelist, key, fn);
      }
    }

    /** `emit` / `trigger`: with no entry for `key` in either listener
        dictionary, buffers `args` and calls nothing; otherwise calls the
        persistent listeners, then the one-shot listeners, each group in
        registration order, and empties the one-shot group. */
    method Emit(key: Key, args: Args)
      requires Valid()
      modifies this
      ensures Valid() && old(list.Keys) <= list.Keys && old(oncelist.Keys) <= oncelist.Keys
      ensures list == old(list)
      ensures !old(Subscribed(key)) ==>
        && offline == old(offline)[key := Entry(old(offline), key) + [args]]
        && oncelist == old(oncelist)
        && trace == old(trace)
      ensures old(Subscribed(key)) ==>
        && offline == old(offline)
        && oncelist == (if key in old(oncelist) then old(oncelist)[key := []] else old(oncelist))
        && trace == old(trace) + Dispatch(Entry(old(list), key), args)
                               + Dispatch(Entry(old(oncelist), key), args)
    {
      if key !in list && key !in oncelist {
        offline := offline[key := Entry(offline, key) + [args]];
      } else {
        if key in list && |list[key]| > 0 {
          Invoke(list[key], args);
        }
        if key in oncelist && |oncelist[key]| > 0 {
          Invoke(oncelist[key], args);
          oncelist := oncelist[key := []];
        }
      }
    }

    /** `removeListener` / `remove`: with `fn` given, takes every occurrence of
        it out of both listener groups of `key`; without, empties both. Keys
        stay present and buffers are untouched. */
    method RemoveListener(key: Key, fn: Option<ListenerId>)
      requires Valid()
      modifies this
      ensures Valid()
      ensures list.Keys == old(list.Keys) && oncelist.Keys == old(oncelist.Keys)
      ensures forall k :: k in list && k != key ==> list[k] == old(list[k])
      ensures forall k :: k in oncelist && k != key ==> oncelist[k] == old(oncelist[k])
      ensures key in list ==> list[key] == (if fn.None? then [] else Without(old(list[key]), fn.value))
      ensures key in oncelist ==>
        oncelist[key] == (if fn.None? then [] else Without(old(oncelist[key]), fn.value))
      ensures offline == old(offline) && trace == old(trace)
    {
      if key in list && |list[key]| > 0 {
        var fns := RemoveFrom(list[key], fn);
        list := list[key := fns];
      }
      if key in oncelist && |oncelist[key]| > 0 {
        var fns := RemoveFrom(oncelist[key], fn);
        oncelist := oncelist[key := fns];
      }
    }
  }
}
