/** The wait set of src/waitset_darwin.c as the source writes it: a pipe, a handle
    queue, an event queue and two arrays that grow together, with loops over all
    of them; and the thread block of src/thread_darwin.c that wakes it. */
module WaitSets {
  import opened Handles
  import opened EventMonitor
  import opened Sockets
  import opened WaitSpec
  import opened WaitLaws

  /** What the core knows about live handles: a handle that is absent cannot be
      locked. No handle is created or destroyed by the calls below. */
  class Core {
    const events: map<Handle, DarwinEvent>
    const sockets: map<Handle, SocketImpl>
    var content: multiset<Handle>          // entries on each wait queue
    var waitSets: map<Handle, WaitSet>     // the wait set a handle is associated with

    constructor (events: map<Handle, DarwinEvent>, sockets: map<Handle, SocketImpl>)
      ensures this.events == events && this.sockets == sockets
      ensures content == multiset{} && waitSets == map[]
    {
      this.events, this.sockets := events, sockets;
      content, waitSets := multiset{}, map[];
    }

    ghost function EventObjects(): set<DarwinEvent> {
      set h | h in events :: events[h]
    }

    ghost function SocketObjects(): set<SocketImpl> {
      set h | h in sockets :: sockets[h]
    }

    /** Distinct handles are distinct objects, and each event keeps its monitor
        invariant. */
    ghost predicate Valid()
      reads EventObjects()
    {
      && (forall h | h in events :: h.Event? && events[h].auto == h.auto && events[h].Valid())
      && (forall g, h | g in events && h in events && g != h :: events[g] != events[h])
      && (forall g, h | g in sockets && h in sockets && g != h :: sockets[g] != sockets[h])
    }

    ghost function Flags(): map<Handle, bool>
      reads EventObjects()
    {
      map h | h in events :: events[h].signalled
    }

    ghost function Revents(): map<Handle, set<PollFlag>>
      reads SocketObjects()
    {
      map h | h in sockets :: sockets[h].revents
    }

    function Asked(): map<Handle, set<PollFlag>>
      reads SocketObjects()
    {
      map h | h in sockets :: sockets[h].events
    }

    /** The poll entry of a socket handle: descriptor and wanted conditions. */
    method FdFor(h: Handle) returns (entry: PollFd)
      ensures entry == SocketEntry(Asked(), h)
    {
      entry := PollFd(NoFd, {}, {});
      if h in sockets {
        entry := PollFd(SocketFd(h), sockets[h].events, {});
      }
    }

    /** ofc_socket_impl_set_event. */
    method SocketSetEvent(h: Handle, revents: set<PollFlag>)
      requires Valid()
      modifies SocketObjects()
      ensures Valid() && Flags() == old(Flags())
      ensures Revents() == if h in sockets then old(Revents())[h := revents] else old(Revents())
    {
      if h in sockets {
        sockets[h].SetEvent(revents);
      }
    }

    method EventTest(h: Handle) returns (up: bool)
      requires Valid()
      ensures up == TestFlag(Flags(), h)
    {
      up := true;
      if h in events {
        up := events[h].Test();
      }
    }

    method EventReset(h: Handle)
      requires Valid()
      modifies EventObjects()
      ensures Valid() && Asked() == old(Asked()) && Revents() == old(Revents())
      ensures Flags() == LowerFlag(old(Flags()), h)
    {
      if h in events {
        events[h].Reset();
      }
    }

    /** An event that cannot be locked counts as AUTO. */
    method EventIsAuto(h: Handle) returns (auto: bool)
      requires Valid()
      ensures auto == IsAuto(Flags(), h)
    {
      auto := true;
      if h in events {
        auto := events[h].auto;
      }
    }

    /** A test, and if it is up and the event is AUTO, a reset: two mutex sections. */
    method EventTake(h: Handle) returns (up: bool)
      requires Valid()
      modifies EventObjects()
      ensures Valid() && Asked() == old(Asked()) && Revents() == old(Revents())
      ensures up == TestFlag(old(Flags()), h)
      ensures Flags() == TakeFlag(old(Flags()), h)
    {
      up := EventTest(h);
      if up {
        var auto := EventIsAuto(h);
        if auto {
          EventReset(h);
        }
      }
    }

    /** Sets of these events by other threads: their condition variables empty too. */
    method RaiseAll(raised: set<Handle>)
      requires Valid()
      modifies EventObjects()
      ensures Valid() && Flags() == map h | h in events :: old(Flags())[h] || h in raised
      ensures Asked() == old(Asked()) && Revents() == old(Revents())
    {
      var objects := set h | h in events && h in raised :: events[h];
      forall e | e in objects {
        e.signalled := true;
      }
      forall e | e in objects {
        e.parked := {};
      }
    }

    /** Resets of these events by other threads. */
    method LowerAll(lowered: set<Handle>)
      requires Valid()
      modifies EventObjects()
      ensures Valid() && Flags() == map h | h in events :: old(Flags())[h] && h !in lowered
      ensures Asked() == old(Asked()) && Revents() == old(Revents())
    {
      var objects := set h | h in events && h in lowered :: events[h];
      forall e | e in objects {
        e.signalled := false;
      }
    }

    /** What other threads leave behind in the events. */
    method ChangeAll(changed: map<Handle, bool>)
      requires Valid()
      modifies EventObjects()
      ensures Valid() && Flags() == ChangeFlags(old(Flags()), changed)
      ensures Asked() == old(Asked()) && Revents() == old(Revents())
    {
      RaiseAll(set h | h in changed && changed[h]);
      LowerAll(set h | h in changed && !changed[h]);
    }

    /** ofc_event_set_impl. */
    method EventSet(h: Handle)
      requires Valid()
      modifies EventObjects(), set g | g in waitSets :: waitSets[g]
      ensures Valid()
      ensures Flags() == if h in events then old(Flags())[h := true] else old(Flags())
      ensures forall w: WaitSet | old(allocated(w)) ::
        w.pipe == if h in events && h in waitSets && w == waitSets[h]
                  then Push(w.capacity, old(w.pipe), h) else old(w.pipe)
      ensures forall w: WaitSet | old(allocated(w)) :: w.handleQueue == old(w.handleQueue)
      ensures forall w: WaitSet | old(allocated(w)) :: old(|w.pipe|) <= w.capacity ==> |w.pipe| <= w.capacity
    {
      if h in events {
        events[h].Set();
        if h in waitSets {
          waitSets[h].Signal(h);
        }
      }
    }
  }

  /** The first element of the event queue for an event, or the length. */
  method Find(eventQueue: seq<EventElement>, hEvent: Handle) returns (k: nat)
    ensures k == FirstElement(eventQueue, hEvent)
  {
    k := 0;
    while k < |eventQueue| && eventQueue[k].hEvent != hEvent
      invariant 0 <= k <= |eventQueue|
      invariant forall j | 0 <= j < k :: eventQueue[j].hEvent != hEvent
    {
      k := k + 1;
    }
    FirstElementIs(eventQueue, hEvent, k);
  }

  /** realloc by one element, which the caller's value fills. */
  method Grow<T>(a: array<T>, last: T) returns (b: array<T>)
    ensures fresh(b) && b[..] == a[..] + [last]
  {
    b := new T[a.Length + 1](i requires 0 <= i <= a.Length reads a => if i < a.Length then a[i] else last);
  }

  class WaitSet {
    const core: Core
    const capacity: nat       // tokens the pipe can hold
    const maxWait: nat        // OFC_MAX_SCHED_WAIT
    var pipe: seq<Handle>
    var handleQueue: seq<Handle>

    constructor (core: Core, capacity: nat, maxWait: nat)
      requires capacity >= 1
      ensures this.core == core && this.capacity == capacity && this.maxWait == maxWait
      ensures pipe == [] && handleQueue == []
    {
      this.core, this.capacity, this.maxWait := core, capacity, maxWait;
      pipe, handleQueue := [], [];
    }

    ghost predicate Valid()
      reads this, core.EventObjects()
    {
      core.Valid() && forall h | h in handleQueue :: WellFormed(h)
    }

    /** ofc_waitset_signal_impl: the result of the write is not looked at. */
    method Signal(hEvent: Handle)
      modifies this
      ensures pipe == Push(capacity, old(pipe), hEvent) && handleQueue == old(handleQueue)
      ensures pipe == if old(|pipe|) < capacity then old(pipe) + [hEvent] else old(pipe)
      ensures old(|pipe|) <= capacity ==> |pipe| <= capacity
    {
      if |pipe| < capacity {
        pipe := pipe + [hEvent];
      }
    }

    /** ofc_waitset_wake_impl. */
    method Wake()
      modifies this
      ensures pipe == Push(capacity, old(pipe), Null) && handleQueue == old(handleQueue)
      ensures pipe == if old(|pipe|) < capacity then old(pipe) + [Null] else old(pipe)
      ensures old(|pipe|) <= capacity ==> |pipe| <= capacity
    {
      Signal(Null);
    }

    /** ofc_waitset_add_impl, after the core has queued the handle. */
    method Add(h: Handle)
      requires Valid()
      modifies this, core`waitSets
      ensures Valid() && handleQueue == old(handleQueue)
      ensures core.waitSets ==
        match h
        case WaitQueue(_, e) => old(core.waitSets)[e := this]
        case Overlapped(_, e) => old(core.waitSets)[e := this]
        case Event(_, _) => old(core.waitSets)[h := this]
        case _ => old(core.waitSets)
      ensures pipe ==
        match h
        case WaitQueue(_, e) => if h in core.content then Push(capacity, old(pipe), e) else old(pipe)
        case Overlapped(_, e) => if TestFlag(core.Flags(), e) then Push(capacity, old(pipe), e) else old(pipe)
        case Event(_, _) => if TestFlag(core.Flags(), h) then Push(capacity, old(pipe), h) else old(pipe)
        case _ => old(pipe)
      ensures old(|pipe|) <= capacity ==> |pipe| <= capacity
    {
      match h {
        case WaitQueue(_, hAssoc) =>
          core.waitSets := core.waitSets[hAssoc := this];
          if h in core.content {
            Signal(hAssoc);
          }
        case Event(_, _) =>
          core.waitSets := core.waitSets[h := this];
          var up := core.EventTest(h);
          if up {
            Signal(h);
          }
        case Overlapped(_, hAssoc) =>
          core.waitSets := core.waitSets[hAssoc := this];
          var up := core.EventTest(hAssoc);
          if up {
            Signal(hAssoc);
          }
        case _ =>
      }
    }

    /** read(2) of one token from the non-blocking pipe. */
    method ReadToken() returns (got: bool, token: Handle)
      modifies this`pipe
      ensures core.Valid() == old(core.Valid()) && core.Asked() == old(core.Asked())
      ensures core.Flags() == old(core.Flags()) && core.Revents() == old(core.Revents())
      ensures got == (old(pipe) != [])
      ensures if got then token == old(pipe)[0] && pipe == old(pipe)[1..] else pipe == old(pipe)
    {
      got, token := pipe != [], Null;
      if got {
        token := pipe[0];
        pipe := pipe[1..];
      }
    }

    /** One event token: the event must be listed and still up. */
    method Deliver(eventQueue: seq<EventElement>, hEvent: Handle) returns (triggered: Handle)
      requires core.Valid()
      modifies core.EventObjects()
      ensures core.Valid() && core.Revents() == old(core.Revents())
      ensures var k, flags := FirstElement(eventQueue, hEvent), old(core.Flags());
        if k < |eventQueue| && TestFlag(flags, hEvent)
        then triggered == eventQueue[k].hAssoc && core.Flags() == TakeFlag(flags, hEvent)
        else triggered == Null && core.Flags() == flags
    {
      triggered := Null;
      var k := Find(eventQueue, hEvent);
      if k < |eventQueue| {
        var up := core.EventTake(hEvent);
        if up {
          triggered := eventQueue[k].hAssoc;
        }
      }
    }

    /** Reads tokens until one delivers, one is a wake, or the pipe is empty. */
    method PollEvent(eventQueue: seq<EventElement>) returns (triggered: Handle)
      requires core.Valid()
      modifies this`pipe, core.EventObjects()
      ensures core.Valid() && core.Revents() == old(core.Revents())
      ensures PollResult(triggered, pipe, core.Flags()) == PollTokens(old(pipe), eventQueue, old(core.Flags()))
    {
      triggered := Null;
      var wake := false;
      var more := true;
      ghost var goal, revents := PollTokens(pipe, eventQueue, core.Flags()), core.Revents();
      while triggered == Null && !wake && more
        invariant core.Valid() && core.Revents() == revents
        invariant triggered == Null && !wake && more ==> PollTokens(pipe, eventQueue, core.Flags()) == goal
        invariant triggered != Null || wake || !more ==> PollResult(triggered, pipe, core.Flags()) == goal
        decreases |pipe|, more
      {
        var hEvent;
        more, hEvent := ReadToken();
        if more {
          if hEvent == Null {
            wake := true;
          } else {
            triggered := Deliver(eventQueue, hEvent);
          }
        }
      }
    }

    /** Both arrays hold the pipe alone. */
    method StartLists() returns (fds: array<PollFd>, handles: array<Handle>)
      ensures fresh(fds) && fresh(handles) && fds[..] == [PIPE_ENTRY] && handles[..] == [Null]
      ensures core.Valid() == old(core.Valid()) && core.Asked() == old(core.Asked()) && core.Flags() == old(core.Flags())
    {
      fds := new PollFd[1](_ => PIPE_ENTRY);
      handles := new Handle[1](_ => Null);
    }

    /** One more socket in both arrays. */
    method AddSocket(fds: array<PollFd>, handles: array<Handle>, h: Handle)
      returns (fds': array<PollFd>, handles': array<Handle>)
      ensures fresh(fds') && fresh(handles')
      ensures core.Valid() == old(core.Valid()) && core.Asked() == old(core.Asked()) && core.Flags() == old(core.Flags())
      ensures fds'[..] == fds[..] + [SocketEntry(core.Asked(), h)]
      ensures handles'[..] == handles[..] + [h]
    {
      var entry := core.FdFor(h);
      fds' := Grow(fds, entry);
      handles' := Grow(handles, h);
    }

    /** The scan's look at a handle that waits on an event. */
    method TestHandle(h: Handle) returns (up: bool)
      requires core.Valid() && Listens(h)
      modifies core.EventObjects()
      ensures core.Valid() && core.Asked() == old(core.Asked()) && core.Revents() == old(core.Revents())
      ensures up == HandleReady(old(core.Flags()), core.content, h)
      ensures core.Flags() == if up then TakeHandle(old(core.Flags()), h) else old(core.Flags())
    {
      if h.WaitQueue? {
        up := h in core.content;
      } else if h.Overlapped? {
        up := core.EventTest(h.event);
      } else {
        up := core.EventTake(h);
      }
    }

    /** The switch of the scan: one handle either triggers or joins a list. */
    method Look(h: Handle, wait: Handle -> nat, fds: array<PollFd>, handles: array<Handle>,
                eventQueue: seq<EventElement>, least: nat, timer: Handle)
      returns (hit: bool, fds': array<PollFd>, handles': array<Handle>,
               eventQueue': seq<EventElement>, least': nat, timer': Handle)
      requires core.Valid() && WellFormed(h)
      modifies core.EventObjects()
      ensures core.Valid() && core.Asked() == old(core.Asked()) && core.Revents() == old(core.Revents())
      ensures fds' == fds || fresh(fds')
      ensures handles' == handles || fresh(handles')
      ensures hit == (HandleReady(old(core.Flags()), core.content, h) || (h.Timer? && wait(h) == 0))
      ensures core.Flags() == if hit then TakeHandle(old(core.Flags()), h) else old(core.Flags())
      ensures !hit ==>
        Progress(fds'[..], handles'[..], eventQueue', least', timer')
        == Extend(Progress(fds[..], handles[..], eventQueue, least, timer), old(core.Asked()), h, wait)
    {
      hit, fds', handles', eventQueue', least', timer' := false, fds, handles, eventQueue, least, timer;
      match h {
        case Socket(_) =>
          fds', handles' := AddSocket(fds, handles, h);
        case Timer(_) =>
          if wait(h) == 0 {
            hit := true;
          } else if wait(h) < least {
            least', timer' := wait(h), h;
          }
        case WaitQueue(_, _) | Overlapped(_, _) | Event(_, _) =>
          hit := TestHandle(h);
          if !hit {
            eventQueue' := eventQueue + [EventElement(EventOf(h), h)];
          }
        case _ =>
      }
    }

    /** The loop over the handle queue. It stops at the first handle that triggers;
        until then the poll array and the handle array grow in step. */
    method Scan(wait: Handle -> nat, ghost v: View, ghost asked: map<Handle, set<PollFlag>>)
      returns (triggered: Handle, fds: array<PollFd>, handles: array<Handle>,
               eventQueue: seq<EventElement>, least: nat, timer: Handle)
      requires Valid()
      requires v == View(handleQueue, core.Flags(), core.content, wait) && asked == core.Asked()
      modifies core.EventObjects()
      ensures core.Valid() && core.Asked() == asked && fresh(fds) && fresh(handles)
      ensures FirstReady(v) < |v.queue| ==>
        triggered == v.queue[FirstReady(v)] && core.Flags() == TakeHandle(v.flags, triggered)
      ensures FirstReady(v) == |v.queue| ==>
        && triggered == Null && core.Flags() == v.flags
        && Progress(fds[..], handles[..], eventQueue, least, timer) == Gather(v.queue, asked, wait, maxWait)
    {
      triggered, timer, least := Null, Null, maxWait;
      eventQueue := [];
      fds, handles := StartLists();
      ghost var first := FirstReady(v);
      var i := 0;
      while i < |handleQueue| && triggered == Null
        invariant 0 <= i <= |handleQueue|
        invariant core.Valid() && core.Asked() == asked && fresh(fds) && fresh(handles)
        invariant if triggered == Null
                  then i <= first && core.Flags() == v.flags
                    && Progress(fds[..], handles[..], eventQueue, least, timer) == Gather(v.queue[..i], asked, wait, maxWait)
                  else i == first + 1 && triggered == v.queue[first] && core.Flags() == TakeHandle(v.flags, triggered)
      {
        var h := handleQueue[i];
        GatherOneMore(v.queue, i, asked, wait, maxWait);
        assert i == first <==> Triggers(v, h);
        var hit;
        hit, fds, handles, eventQueue, least, timer := Look(h, wait, fds, handles, eventQueue, least, timer);
        if hit {
          triggered := h;
        }
        i := i + 1;
      }
      assert v.queue[..|v.queue|] == v.queue;
    }

    /** poll(2), as far as this code depends on it: the count is positive exactly when
        some entry is reported, zero when the timeout ran out, negative on failure. */
    method Poll(fds: array<PollFd>, env: PollEnv) returns (count: int)
      requires core.Valid()
      modifies fds, this`pipe, core.EventObjects()
      ensures core.Valid() && core.Asked() == old(core.Asked()) && core.Revents() == old(core.Revents())
      ensures core.Flags() == ChangeFlags(old(core.Flags()), env.changed)
      ensures pipe == old(pipe) + env.arrived
      ensures env.failed ==> count < 0
      ensures !env.failed ==>
        && count >= 0
        && (forall k | 0 <= k < fds.Length :: fds[k] == old(fds[k]).(revents := ReventsOf(old(fds[k]), pipe, env)))
        && (count == 0 <==> forall k | 0 <= k < fds.Length :: fds[k].revents == {})
    {
      pipe := pipe + env.arrived;
      core.ChangeAll(env.changed);
      if env.failed {
        return -1;
      }
      count := Report(fds, env);
    }

    method Report(fds: array<PollFd>, env: PollEnv) returns (count: nat)
      modifies fds
      ensures core.Valid() == old(core.Valid()) && core.Asked() == old(core.Asked())
      ensures core.Flags() == old(core.Flags()) && core.Revents() == old(core.Revents())
      ensures forall k | 0 <= k < fds.Length :: fds[k] == old(fds[k]).(revents := ReventsOf(old(fds[k]), pipe, env))
      ensures count == 0 <==> forall k | 0 <= k < fds.Length :: fds[k].revents == {}
    {
      count := 0;
      for k := 0 to fds.Length
        invariant forall j | 0 <= j < k :: fds[j] == old(fds[j]).(revents := ReventsOf(old(fds[j]), pipe, env))
        invariant forall j | k <= j < fds.Length :: fds[j] == old(fds[j])
        invariant count == 0 <==> forall j | 0 <= j < k :: fds[j].revents == {}
      {
        fds[k] := fds[k].(revents := ReventsOf(fds[k], pipe, env));
        if fds[k].revents != {} {
          count := count + 1;
        }
      }
    }

    /** What the call does once poll has returned a positive count. */
    method Dispatch(fds: array<PollFd>, handles: array<Handle>, eventQueue: seq<EventElement>,
                    ghost asked: map<Handle, set<PollFlag>>, ghost env: PollEnv, ghost sockets: seq<Handle>)
      returns (triggered: Handle)
      requires core.Valid() && asked == core.Asked()
      requires fds.Length == handles.Length == |sockets| + 1 && handles[..] == [Null] + sockets
      requires fds[0].revents == if pipe != [] then {PollIn} else {}
      requires forall k | 1 <= k < fds.Length :: fds[k].revents == SocketRevents(asked, handles[k], env)
      modifies this`pipe, core.EventObjects(), core.SocketObjects()
      ensures core.Valid()
      ensures old(pipe) != [] ==>
        && PollResult(triggered, pipe, core.Flags()) == PollTokens(old(pipe), eventQueue, old(core.Flags()))
        && core.Revents() == old(core.Revents())
      ensures old(pipe) == [] ==>
        var j := FirstActive(sockets, asked, env);
        && pipe == [] && core.Flags() == old(core.Flags())
        && triggered == (if j < |sockets| then sockets[j] else Null)
        && core.Revents() == if j < |sockets|
          then old(core.Revents())[triggered := SocketRevents(asked, triggered, env)] else old(core.Revents())
    {
      triggered := Null;
      var index := 0;
      while index < fds.Length && fds[index].revents == {}
        invariant 0 <= index <= fds.Length
        invariant forall k | 0 <= k < index :: fds[k].revents == {}
      {
        index := index + 1;
      }
      if index == 0 {
        triggered := PollEvent(eventQueue);
      } else {
        forall j | 0 <= j < |sockets|
          ensures sockets[j] == handles[..][j + 1]
        {
        }
        FirstActiveIs(sockets, asked, env, index - 1);
        if index < fds.Length {
          core.SocketSetEvent(handles[index], fds[index].revents);
          if fds[index].revents != {} {
            triggered := handles[index];
          }
        }
      }
    }

    /** What follows a scan that triggered nothing. */
    method PollAndDispatch(ghost v: View, fds: array<PollFd>, handles: array<Handle>,
                           eventQueue: seq<EventElement>, ghost least: nat, timer: Handle, env: PollEnv)
      returns (triggered: Handle)
      requires core.Valid() && pipe == [] && v.flags == core.Flags()
      requires FirstReady(v) == |v.queue|
      requires Progress(fds[..], handles[..], eventQueue, least, timer) == Gather(v.queue, core.Asked(), v.wait, maxWait)
      modifies fds, this`pipe, core.EventObjects(), core.SocketObjects()
      ensures core.Valid()
      ensures Ended(WaitOutcome(v, old(core.Asked()), maxWait, env), triggered, pipe, core.Flags())
      ensures core.Revents() == ReventsAfter(old(core.Revents()), WaitOutcome(v, old(core.Asked()), maxWait, env), old(core.Asked()), env)
    {
      ghost var asked, sockets := core.Asked(), SocketsOf(v.queue);
      GatherIs(v.queue, asked, v.wait, maxWait);
      var count := Poll(fds, env);
      assert pipe == env.arrived;
      triggered := Null;
      if count >= 0 {
        CountIsZero(fds[..], handles[..], asked, sockets, pipe, env);
      }
      if count == 0 && timer != Null {
        triggered := timer;
      } else if count > 0 {
        triggered := Dispatch(fds, handles, eventQueue, asked, env, sockets);
      }
    }

    /** ofc_waitset_wait_impl, with what happens during poll given by env. */
    method Wait(wait: Handle -> nat, env: PollEnv) returns (triggered: Handle)
      requires Valid()
      modifies this`pipe, core.EventObjects(), core.SocketObjects()
      ensures Valid()
      ensures
        var v := View(handleQueue, old(core.Flags()), core.content, wait);
        var o := WaitOutcome(v, old(core.Asked()), maxWait, env);
        && Ended(o, triggered, pipe, core.Flags())
        && core.Revents() == ReventsAfter(old(core.Revents()), o, old(core.Asked()), env)
        && (forall h | h in core.sockets ::
             core.Revents()[h] == if o.active == Some(h) then SocketRevents(old(core.Asked()), h, env)
                                  else old(core.Revents())[h])
      ensures |pipe| <= |env.arrived|
    {
      ghost var v := View(handleQueue, core.Flags(), core.content, wait);
      ghost var asked, revents := core.Asked(), core.Revents();
      var more := true;
      while more
        invariant core.Valid() && core.Flags() == v.flags && core.Asked() == asked && core.Revents() == revents
        invariant !more ==> pipe == []
        decreases |pipe|, more
      {
        var stale;
        more, stale := ReadToken();
      }
      var fds, handles, eventQueue, least, timer;
      triggered, fds, handles, eventQueue, least, timer := Scan(wait, v, asked);
      if triggered == Null {
        triggered := PollAndDispatch(v, fds, handles, eventQueue, least, timer, env);
      }
      OutcomePipe(v, asked, maxWait, env);
    }
  }

  /** A registration and a set of the event behind it, one after the other: whichever
      type of handle it is, its event's token is in the pipe, unless that is full. */
  method RegisterThenSet(w: WaitSet, h: Handle, e: Handle)
    requires w.Valid() && e in w.core.events
    requires (h.Event? && h == e) || (h.WaitQueue? && h.event == e) || (h.Overlapped? && h.event == e)
    modifies w, w.core`waitSets, w.core.EventObjects(), set g | g in w.core.waitSets :: w.core.waitSets[g]
    ensures e in w.pipe || |w.pipe| >= w.capacity
    ensures w.core.Flags() == old(w.core.Flags())[e := true]
  {
    w.Add(h);
    w.core.EventSet(e);
  }

  lemma OutcomePipe(v: View, asked: map<Handle, set<PollFlag>>, cap: nat, env: PollEnv)
    ensures |WaitOutcome(v, asked, cap, env).pipe| <= |env.arrived|
  {
    TokensOnlyShrink(env.arrived, Listing(v.queue), ChangeFlags(v.flags, env.changed));
  }

  /** A socket's revents field changes only for the socket poll reported first. */
  function ReventsAfter(before: map<Handle, set<PollFlag>>, o: Outcome, asked: map<Handle, set<PollFlag>>, env: PollEnv)
    : map<Handle, set<PollFlag>>
  {
    if o.active.Some? then before[o.active.value := SocketRevents(asked, o.active.value, env)] else before
  }

  predicate Ended(o: Outcome, result: Handle, pipe: seq<Handle>, flags: map<Handle, bool>) {
    o.result == result && o.pipe == pipe && o.flags == flags
  }

  /** Poll reports nothing exactly when the pipe is empty and no socket is active. */
  lemma CountIsZero(fds: seq<PollFd>, handles: seq<Handle>, asked: map<Handle, set<PollFlag>>,
                    sockets: seq<Handle>, pipe: seq<Handle>, env: PollEnv)
    requires |fds| == |handles| && handles == [Null] + sockets
    requires fds[0].revents == if pipe != [] then {PollIn} else {}
    requires forall k | 1 <= k < |fds| :: fds[k].revents == SocketRevents(asked, handles[k], env)
    ensures (forall k | 0 <= k < |fds| :: fds[k].revents == {})
       <==> pipe == [] && FirstActive(sockets, asked, env) == |sockets|
  {
    var j := FirstActive(sockets, asked, env);
    if j < |sockets| {
      assert sockets[j] == handles[j + 1] && fds[j + 1].revents != {};
    } else if pipe == [] {
      assert PollIn !in fds[0].revents;
      forall k | 0 <= k < |fds|
        ensures fds[k].revents == {}
      {
        if k > 0 {
          assert sockets[k - 1] == handles[k];
        }
      }
    } else {
      assert PollIn in fds[0].revents;
    }
  }

  // ---------- The thread that waits ----------

  /** DARWIN_THREAD: the part that deletion uses. */
  class DarwinThread {
    var deleteMe: bool
    var waitSet: Option<WaitSet>

    constructor ()
      ensures !deleteMe && waitSet == None
    {
      deleteMe, waitSet := false, None;
    }

    method SetWaitSet(waitSet: Option<WaitSet>)
      modifies this
      ensures this.waitSet == waitSet && deleteMe == old(deleteMe)
    {
      this.waitSet := waitSet;
    }

    /** ofc_thread_delete_impl. */
    method Delete()
      modifies this, if waitSet.Some? then {waitSet.value} else {}
      ensures deleteMe && waitSet == old(waitSet)
      ensures waitSet.Some? ==>
        var w := waitSet.value;
        w.pipe == (if old(|w.pipe|) < w.capacity then old(w.pipe) + [Null] else old(w.pipe))
        && w.handleQueue == old(w.handleQueue)
    {
      deleteMe := true;
      if waitSet.Some? {
        waitSet.value.Wake();
      }
    }

    method IsDeleting() returns (deleting: bool)
      ensures deleting == deleteMe
    {
      deleting := deleteMe;
    }
  }
}
