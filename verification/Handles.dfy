/** Handles as the wait-set code sees them. What ofc_handle_get_type and the
    core's constant accessors would return is read off the handle value itself. */
module Handles {

  datatype Option<+T> = None | Some(value: T)

  /** Null is OFC_HANDLE_NULL. An event's type is fixed when it is created, and a
      wait queue or an overlapped operation keeps one event for life. */
  datatype Handle =
    | Null
    | Event(id: nat, auto: bool)
    | WaitQueue(id: nat, event: Handle)
    | Overlapped(id: nat, event: Handle)
    | Socket(id: nat)
    | Timer(id: nat)
    | Other(id: nat)

  /** Handles whose readiness reaches a waiter through an event and the pipe. */
  predicate Listens(h: Handle) {
    h.Event? || h.WaitQueue? || h.Overlapped?
  }

  predicate WellFormed(h: Handle) {
    h != Null && (h.WaitQueue? || h.Overlapped? ==> h.event.Event?)
  }

  function EventOf(h: Handle): Handle {
    match h
    case Event(_, _) => h
    case WaitQueue(_, e) => e
    case Overlapped(_, e) => e
    case _ => Null
  }

  predicate Auto(h: Handle) {
    h.Event? && h.auto
  }

  /** A non-blocking write of one token: dropped when the pipe is full. */
  function Push(capacity: nat, pipe: seq<Handle>, token: Handle): seq<Handle> {
    if |pipe| < capacity then pipe + [token] else pipe
  }

  /** The first listed handle that waits on event e, or Null. */
  function FirstListed(list: seq<Handle>, e: Handle): (h: Handle)
    ensures h != Null ==> h in list && EventOf(h) == e
  {
    if list == [] then Null
    else if EventOf(list[0]) == e then list[0]
    else FirstListed(list[1..], e)
  }
}
