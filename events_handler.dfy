/** `src/models/events-handler.ts`: a reusable callback registry object. */
module EventsHandlers {
  import opened Registry

  class EventsHandler {
    var listeners: Listeners

    ghost predicate Valid()
      reads this
    {
      WellFormed(listeners)
    }

    /** A new handler has an empty registry. */
    constructor ()
      ensures Valid()
      ensures listeners == map[]
    {
      listeners := map[];
    }

    /** `on`: registers `cb` under `name`, every other name unchanged. */
    method On(name: string, cb: Callback)
      requires Valid()
      modifies this
      ensures Valid()
      ensures listeners == Registry.On(old(listeners), name, cb)
      ensures cb in listeners[name]
    {
      listeners := Registry.On(listeners, name, cb);
    }

    /** `off`, as written: it reads the set for `name` and removes nothing. */
    method Off(name: string, cb: Callback)
      ensures listeners == old(listeners)
    {
      var s := Lookup(listeners, name);
    }

    /** `getlisteners`. */
    function GetListeners(): (r: Listeners)
      reads this
      ensures forall n :: n in r <==> n in listeners
      ensures forall n :: n in r ==> r[n] == listeners[n]
    {
      listeners
    }
  }

  /** `createEventHandler`. */
  method CreateEventHandler() returns (h: EventsHandler)
    ensures fresh(h) && h.Valid() && h.listeners == map[]
  {
    h := new EventsHandler();
  }
}
