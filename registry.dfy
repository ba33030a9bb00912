/**
 * The per-event-name callback registry: a `Map` from event name to a `Set` of
 * callbacks, as both `EventsHandler` and the Area keep it. A JavaScript `Set`
 * iterates in insertion order and holds no duplicates, so it is a
 * duplicate-free sequence here.
 */
module Registry {
  /** The identity of a callback function object. */
  type Callback = nat

  type Listeners = map<string, seq<Callback>>

  predicate NoDuplicates(s: seq<Callback>) {
    forall i, j :: 0 <= i < j < |s| ==> s[i] != s[j]
  }

  ghost predicate WellFormed(r: Listeners) {
    forall n :: n in r ==> NoDuplicates(r[n])
  }

  /** `map.get(name)`, an absent set read as empty (the `if (listeners)` guard). */
  function Lookup(r: Listeners, name: string): seq<Callback> {
    if name in r then r[name] else []
  }

  /**
   * `on(name, cb)`: create the set for `name` if absent, then add `cb`.
   */
  function On(r: Listeners, name: string, cb: Callback): (r': Listeners)
    ensures r'.Keys == r.Keys + {name}
    ensures forall c :: c in r'[name] <==> c in Lookup(r, name) || c == cb
    ensures Lookup(r, name) <= r'[name]
    ensures forall n :: n in r && n != name ==> r'[n] == r[n]
    ensures WellFormed(r) ==> WellFormed(r')
  {
    var s := Lookup(r, name);
    r[name := if cb in s then s else s + [cb]]
  }

  /** Registering the same callback twice is the same as registering it once. */
  lemma OnIdempotent(r: Listeners, name: string, cb: Callback)
    ensures On(On(r, name, cb), name, cb) == On(r, name, cb)
  {
  }

  /** A call of a registered callback with the event it was given. */
  datatype Invocation<E> = Invocation(callback: Callback, event: E)

  /** `listeners.forEach(callback => callback(event))`: each callback once, in set order. */
  function Deliver<E>(cbs: seq<Callback>, ev: E): (r: seq<Invocation<E>>)
    ensures |r| == |cbs|
    ensures forall i :: 0 <= i < |r| ==> r[i] == Invocation(cbs[i], ev)
  {
    if cbs == [] then [] else [Invocation(cbs[0], ev)] + Deliver(cbs[1..], ev)
  }

  /** Delivering to a set that gained a callback delivers to the old ones first, then the new. */
  lemma {:induction false} DeliverAppend<E>(a: seq<Callback>, b: seq<Callback>, ev: E)
    ensures Deliver(a + b, ev) == Deliver(a, ev) + Deliver(b, ev)
  {
    if a != [] {
      assert (a + b)[1..] == a[1..] + b;
      DeliverAppend(a[1..], b, ev);
    }
  }

  /** Delivering to one more callback of a set appends that one call. */
  lemma DeliverPrefixStep<E>(cbs: seq<Callback>, i: nat, ev: E)
    requires i < |cbs|
    ensures Deliver(cbs[..i + 1], ev) == Deliver(cbs[..i], ev) + [Invocation(cbs[i], ev)]
  {
    assert cbs[..i + 1] == cbs[..i] + [cbs[i]];
    DeliverAppend(cbs[..i], [cbs[i]], ev);
  }
}
