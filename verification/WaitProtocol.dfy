/** The wake-up protocol of one wait set as a transition system: one step for each
    mutex section, pipe read and pipe write of src/waitset_darwin.c,
    src/event_darwin.c and the delete path of src/thread_darwin.c. One waiter, any
    number of other threads, a pipe of bounded capacity. */
module WaitProtocol {
  import opened Handles

  type Tid = nat

  /** Where another thread stands inside a call; a thread outside has no entry. */
  datatype Pc =
    | Enqueued(q: Handle)      // put an entry on wait queue q, its event not yet set
    | Flagged(e: Handle)       // raised e and broadcast, still inside e's mutex
    | Writing(e: Handle)       // read e's wait set as this one, still inside e's mutex
    | Adding(h: Handle)        // h is in the handle queue, not yet associated
    | Associated(h: Handle)    // associated h's event, readiness not yet tested
    | Signalling(e: Handle)    // add found it ready, about to write e
    | Marked                   // delete has set deleteMe
    | Waking                   // about to write the null token

  /** Where the waiter stands inside ofc_waitset_wait_impl. */
  datatype Waiter =
    | Idle
    | Purging
    | Scanning(i: nat, list: seq<Handle>)
    | Clearing(h: Handle)                          // scan hit an AUTO event, reset due
    | Polling(n: nat, list: seq<Handle>)           // n handles scanned
    | Readable(list: seq<Handle>)                  // poll reported the pipe, nothing read yet
    | Draining(list: seq<Handle>)
    | Testing(e: Handle, h: Handle, list: seq<Handle>)
    | ClearingToken(e: Handle, h: Handle)          // token of an AUTO event tested up
    | Done(h: Handle)

  datatype State = State(
    capacity: nat,
    pipe: seq<Handle>,
    up: set<Handle>,              // events whose signalled flag is up
    registered: set<Handle>,      // events associated with this wait set
    content: multiset<Handle>,    // one entry for each element on each wait queue
    queue: seq<Handle>,           // hHandleQueue
    threads: map<Tid, Pc>,
    waiter: Waiter,
    deleting: bool,               // deleteMe of the waiter's thread
    recorded: bool                // that thread's wait_set names this set
  )

  datatype EnvAction =
    | Set(t: Tid, e: Handle)
    | GetWaitSet(t: Tid)
    | Write(t: Tid)
    | Reset(e: Handle)
    | Enqueue(t: Tid, q: Handle)
    | SetQueued(t: Tid, e: Handle)
    | Dequeue(q: Handle)
    | Add(t: Tid, h: Handle)
    | Associate(t: Tid)
    | TestAdded(t: Tid)
    | SetAssoc(e: Handle, here: bool)
    | Wake(t: Tid)
    | Delete(t: Tid)
    | CheckWaitSet(t: Tid)
    | Record(here: bool)

  datatype WaiterAction =
    | Start
    | Purge
    | ScanNext(due: bool)
    | Clear
    | PollPipe
    | PollSocket(h: Handle)
    | PollTimeout(h: Handle)
    | PollFail
    | Read
    | TestToken
    | ClearToken
    | Return(h: Handle)

  datatype Action = Env(env: EnvAction) | Own(own: WaiterAction)

  // ---------- Observations ----------

  /** How the scan judges a handle: wait queues by content, not by their event. */
  predicate Ready(s: State, h: Handle) {
    match h
    case Event(_, _) => h in s.up
    case Overlapped(_, e) => e in s.up
    case WaitQueue(_, _) => h in s.content
    case _ => false
  }

  predicate HoldsMutex(pc: Pc, e: Handle) {
    pc == Flagged(e) || pc == Writing(e)
  }

  ghost predicate MutexFree(s: State, e: Handle) {
    forall t :: t in s.threads ==> !HoldsMutex(s.threads[t], e)
  }

  /** A thread at pc has made h ready, or is registering it, and has still to
      write a token for it. */
  predicate Covers(pc: Pc, h: Handle) {
    match pc
    case Enqueued(q) => q == h
    case Flagged(e) => e == EventOf(h)
    case Writing(e) => e == EventOf(h)
    case Adding(a) => a == h
    case Associated(a) => a == h
    case Signalling(e) => e == EventOf(h)
    case Marked => false
    case Waking => false
  }

  predicate Pending(s: State, h: Handle, t: Tid) {
    t in s.threads && Covers(s.threads[t], h)
  }

  ghost predicate InFlight(s: State, h: Handle) {
    exists t :: Pending(s, h, t)
  }

  // ---------- Steps of other threads ----------

  ghost predicate EnvEnabled(s: State, a: EnvAction) {
    match a
    case Set(t, e) => t !in s.threads && e.Event? && MutexFree(s, e)
    case GetWaitSet(t) => t in s.threads && s.threads[t].Flagged?
    case Write(t) =>
      && t in s.threads
      && (s.threads[t].Writing? || s.threads[t].Signalling? || s.threads[t].Waking?)
    case Reset(e) => e.Event? && MutexFree(s, e)
    case Enqueue(t, q) => t !in s.threads && q.WaitQueue? && WellFormed(q)
    case SetQueued(t, e) =>
      && t in s.threads && s.threads[t].Enqueued?
      && e == EventOf(s.threads[t].q) && MutexFree(s, e)
    case Dequeue(q) => q in s.content
    case Add(t, h) => t !in s.threads && WellFormed(h)
    case Associate(t) => t in s.threads && s.threads[t].Adding?
    case TestAdded(t) =>
      && t in s.threads && s.threads[t].Associated?
      && (s.threads[t].h.WaitQueue? || MutexFree(s, EventOf(s.threads[t].h)))
    // the core gives up an association only after unlinking the handle
    case SetAssoc(e, here) =>
      e.Event? && (here || forall h | h in s.queue && Listens(h) :: EventOf(h) != e)
    case Wake(t) => t !in s.threads
    case Delete(t) => t !in s.threads
    case CheckWaitSet(t) => t in s.threads && s.threads[t] == Marked
    case Record(_) => true
  }

  function Finish(s: State, t: Tid): State {
    s.(threads := s.threads - {t})
  }

  function Goto(s: State, t: Tid, pc: Pc): State {
    s.(threads := s.threads[t := pc])
  }

  ghost function EnvApply(s: State, a: EnvAction): State
    requires EnvEnabled(s, a)
  {
    match a
    case Set(t, e) => Goto(s.(up := s.up + {e}), t, Flagged(e))
    case GetWaitSet(t) =>
      var e := s.threads[t].e;
      if e in s.registered then Goto(s, t, Writing(e)) else Finish(s, t)
    case Write(t) =>
      var token := if s.threads[t].Waking? then Null else s.threads[t].e;
      Finish(s.(pipe := Push(s.capacity, s.pipe, token)), t)
    case Reset(e) => s.(up := s.up - {e})
    case Enqueue(t, q) => Goto(s.(content := s.content + multiset{q}), t, Enqueued(q))
    case SetQueued(t, e) => Goto(s.(up := s.up + {e}), t, Flagged(e))
    case Dequeue(q) => s.(content := s.content - multiset{q})
    case Add(t, h) => Goto(s.(queue := s.queue + [h]), t, Adding(h))
    case Associate(t) =>
      var h := s.threads[t].h;
      if Listens(h)
      then Goto(s.(registered := s.registered + {EventOf(h)}), t, Associated(h))
      else Finish(s, t)
    case TestAdded(t) =>
      var h := s.threads[t].h;
      if Ready(s, h) then Goto(s, t, Signalling(EventOf(h))) else Finish(s, t)
    case SetAssoc(e, here) =>
      s.(registered := if here then s.registered + {e} else s.registered - {e})
    case Wake(t) => Goto(s, t, Waking)
    case Delete(t) => Goto(s.(deleting := true), t, Marked)
    case CheckWaitSet(t) => if s.recorded then Goto(s, t, Waking) else Finish(s, t)
    case Record(here) => s.(recorded := here)
  }

  // ---------- Steps of the waiter ----------

  /** What the current call put into its poll list or took a wait time from. */
  function Scanned(s: State): seq<Handle>
    requires s.waiter.Polling?
  {
    if s.waiter.n <= |s.queue| then s.queue[..s.waiter.n] else s.queue
  }

  ghost predicate OwnEnabled(s: State, a: WaiterAction) {
    match a
    case Start => s.waiter.Idle?
    case Purge => s.waiter.Purging?
    case ScanNext(_) =>
      && s.waiter.Scanning?
      && (s.waiter.i < |s.queue| && (s.queue[s.waiter.i].Event? || s.queue[s.waiter.i].Overlapped?)
          ==> MutexFree(s, EventOf(s.queue[s.waiter.i])))
    case Clear => s.waiter.Clearing? && MutexFree(s, s.waiter.h)
    case PollPipe => s.waiter.Polling? && s.pipe != []
    // poll_count > 0 and the pipe is not first: only with an empty pipe
    case PollSocket(h) =>
      s.waiter.Polling? && s.pipe == [] && h.Socket? && h in Scanned(s)
    // poll_count == 0: nothing was readable for the whole timeout
    case PollTimeout(h) =>
      s.waiter.Polling? && s.pipe == [] && (h == Null || (h.Timer? && h in Scanned(s)))
    case PollFail => s.waiter.Polling?
    case Read => s.waiter.Readable? || s.waiter.Draining?
    case TestToken => s.waiter.Testing? && MutexFree(s, s.waiter.e)
    case ClearToken => s.waiter.ClearingToken? && MutexFree(s, s.waiter.e)
    case Return(h) => s.waiter == Done(h)
  }

  function ScanStep(s: State, due: bool): Waiter
    requires s.waiter.Scanning?
  {
    var i, list := s.waiter.i, s.waiter.list;
    if i >= |s.queue| then Polling(i, list)
    else
      var h := s.queue[i];
      if Listens(h) then
        if Ready(s, h) then (if Auto(h) then Clearing(h) else Done(h))
        else Scanning(i + 1, list + [h])
      else if h.Timer? && due then Done(h)
      else Scanning(i + 1, list)
  }

  function ReadStep(s: State): Waiter
    requires s.waiter.Readable? || s.waiter.Draining?
  {
    var list := s.waiter.list;
    if s.pipe == [] || s.pipe[0] == Null then Done(Null)
    else
      var h := FirstListed(list, s.pipe[0]);
      if h == Null then Draining(list) else Testing(s.pipe[0], h, list)
  }

  ghost function OwnApply(s: State, a: WaiterAction): State
    requires OwnEnabled(s, a)
  {
    match a
    case Start => s.(waiter := Purging)
    case Purge =>
      if s.pipe == [] then s.(waiter := Scanning(0, [])) else s.(pipe := s.pipe[1..])
    case ScanNext(due) => s.(waiter := ScanStep(s, due))
    case Clear => s.(up := s.up - {s.waiter.h}, waiter := Done(s.waiter.h))
    case PollPipe => s.(waiter := Readable(s.waiter.list))
    case PollSocket(h) => s.(waiter := Done(h))
    case PollTimeout(h) => s.(waiter := Done(h))
    case PollFail => s.(waiter := Done(Null))
    case Read =>
      s.(waiter := ReadStep(s), pipe := if s.pipe == [] then [] else s.pipe[1..])
    case TestToken =>
      var Testing(e, h, list) := s.waiter;
      s.(waiter := if e !in s.up then Draining(list)
                   else if Auto(e) then ClearingToken(e, h) else Done(h))
    case ClearToken => s.(up := s.up - {s.waiter.e}, waiter := Done(s.waiter.h))
    case Return(h) => s.(waiter := Idle)
  }

  // ---------- Runs ----------

  ghost predicate Enabled(s: State, a: Action) {
    match a case Env(e) => EnvEnabled(s, e) case Own(o) => OwnEnabled(s, o)
  }

  ghost function Apply(s: State, a: Action): State
    requires Enabled(s, a)
  {
    match a case Env(e) => EnvApply(s, e) case Own(o) => OwnApply(s, o)
  }

  /** The actions lead from s to s'. */
  ghost predicate Steps(s: State, actions: seq<Action>, s': State)
    decreases |actions|
  {
    if actions == [] then s' == s
    else Enabled(s, actions[0]) && Steps(Apply(s, actions[0]), actions[1..], s')
  }

  /** Before the first wait and the first registration; flags, tokens, wait-queue
      entries and stale associations may already be there. */
  predicate Init(s: State) {
    1 <= s.capacity && |s.pipe| <= s.capacity && s.queue == [] && s.threads == map[] && s.waiter == Idle
  }

  ghost predicate Reachable(s: State) {
    exists s0, actions :: Init(s0) && Steps(s0, actions, s)
  }

  // ---------- The invariant ----------

  /** The scan of the current call is past position k, and PollEvent has not yet
      read the pipe. */
  predicate Passed(w: Waiter, k: nat) {
    w.Polling? || w.Readable? || (w.Scanning? && k < w.i)
  }

  /** The token of h's event is in the pipe, or was dropped because it is full. */
  predicate Carried(s: State, h: Handle) {
    EventOf(h) in s.pipe || |s.pipe| >= s.capacity
  }

  /** A ready handle is announced: by a token, or by one that is still to come. */
  ghost predicate Announced(s: State, h: Handle) {
    Ready(s, h) ==> Carried(s, h) || InFlight(s, h)
  }

  ghost predicate Registered(s: State, h: Handle) {
    Listens(h) ==> EventOf(h) in s.registered || exists t :: t in s.threads && s.threads[t] == Adding(h)
  }

  /** Everything on the event queue is a queued handle that waits on an event. */
  predicate Listed(s: State, list: seq<Handle>) {
    forall h | h in list :: h in s.queue && Listens(h)
  }

  predicate LocalsOk(s: State) {
    match s.waiter
    case Scanning(i, list) => i <= |s.queue| && Listed(s, list)
    case Clearing(h) => h in s.queue && Auto(h)
    case Polling(n, list) => n <= |s.queue| && Listed(s, list)
    case Readable(list) => s.pipe != [] && Listed(s, list)
    case Draining(list) => Listed(s, list)
    case Testing(e, h, list) => h in s.queue && EventOf(h) == e && Listed(s, list)
    case ClearingToken(e, h) => h in s.queue && EventOf(h) == e && Auto(e)
    case Done(h) => h == Null || h in s.queue
    case _ => true
  }

  ghost predicate Inv(s: State) {
    && 1 <= s.capacity && |s.pipe| <= s.capacity
    && (forall h | h in s.queue :: WellFormed(h) && Registered(s, h))
    && (forall k | 0 <= k < |s.queue| && Passed(s.waiter, k) :: Announced(s, s.queue[k]))
    && LocalsOk(s)
  }

  lemma RegisteredKept(s: State, a: EnvAction, h: Handle)
    requires EnvEnabled(s, a) && h in s.queue && Registered(s, h)
    ensures Registered(EnvApply(s, a), h)
  {
    var s' := EnvApply(s, a);
    if Listens(h) && EventOf(h) !in s.registered {
      var t :| t in s.threads && s.threads[t] == Adding(h);
      if a != Associate(t) {
        assert t in s'.threads && s'.threads[t] == Adding(h);
      }
    }
  }

  /** A thread that owes h a token keeps owing it, or has filled the pipe, or leaves
      without a write: a setter that found no association, or an adder that found
      h not ready. */
  lemma PendingKept(s: State, a: EnvAction, h: Handle, t: Tid)
    requires EnvEnabled(s, a) && s.capacity >= 1
    requires WellFormed(h) && Pending(s, h, t)
    ensures
      || Pending(EnvApply(s, a), h, t)
      || Carried(EnvApply(s, a), h)
      || (a == GetWaitSet(t) && EventOf(h) !in s.registered)
      || (a == TestAdded(t) && !Ready(s, h))
      || (a == Associate(t) && !Listens(h))
  {
  }

  lemma NewlyReady(s: State, a: EnvAction, h: Handle)
    requires EnvEnabled(s, a) && !Ready(s, h) && Ready(EnvApply(s, a), h)
    ensures InFlight(EnvApply(s, a), h)
  {
    assert a.Set? || a.SetQueued? || a.Enqueue?;
    assert Pending(EnvApply(s, a), h, a.t);
  }

  /** Every step of another thread keeps a handle announced: a setter that finds no
      association leaves the announcement to the adder still in flight. */
  lemma AnnouncedKept(s: State, a: EnvAction, h: Handle)
    requires EnvEnabled(s, a) && s.capacity >= 1
    requires WellFormed(h) && Registered(s, h) && Announced(s, h)
    ensures Announced(EnvApply(s, a), h)
  {
    var s' := EnvApply(s, a);
    if Ready(s', h) && !Carried(s', h) {
      if !Ready(s, h) {
        NewlyReady(s, a, h);
      } else {
        EnvKeepsTokens(s, a);
        var t :| Pending(s, h, t);
        PendingKept(s, a, h, t);
        if !Pending(s', h, t) {
          var t' :| t' in s.threads && s.threads[t'] == Adding(h);
          PendingKept(s, a, h, t');
        }
      }
    }
  }

  /** Other threads only ever append to the pipe, and never past its capacity. */
  lemma EnvKeepsTokens(s: State, a: EnvAction)
    requires EnvEnabled(s, a)
    ensures s.pipe <= EnvApply(s, a).pipe
    ensures |s.pipe| <= s.capacity ==> |EnvApply(s, a).pipe| <= s.capacity
    ensures EnvApply(s, a).waiter == s.waiter && EnvApply(s, a).capacity == s.capacity
  {
  }

  lemma EnvQueue(s: State, a: EnvAction)
    requires EnvEnabled(s, a)
    ensures EnvApply(s, a).queue == if a.Add? then s.queue + [a.h] else s.queue
    ensures a.Add? ==> WellFormed(a.h) && a.t in EnvApply(s, a).threads && EnvApply(s, a).threads[a.t] == Adding(a.h)
  {
  }

  lemma EnvKeepsInv(s: State, a: EnvAction)
    requires Inv(s) && EnvEnabled(s, a)
    ensures Inv(EnvApply(s, a))
  {
    var s' := EnvApply(s, a);
    EnvQueue(s, a);
    EnvKeepsTokens(s, a);
    forall h | h in s'.queue
      ensures WellFormed(h) && Registered(s', h)
    {
      if h in s.queue {
        RegisteredKept(s, a, h);
      }
    }
    forall k | 0 <= k < |s'.queue| && Passed(s'.waiter, k)
      ensures Announced(s', s'.queue[k])
    {
      if k < |s.queue| {
        AnnouncedKept(s, a, s.queue[k]);
      } else {
        assert Pending(s', a.h, a.t);
      }
    }
  }

  /** The waiter lowers flags and reads tokens; the rest is not its to change. */
  lemma OwnFrame(s: State, a: WaiterAction)
    requires OwnEnabled(s, a)
    ensures OwnApply(s, a).(pipe := s.pipe, up := s.up, waiter := s.waiter) == s
    ensures OwnApply(s, a).up <= s.up
    ensures !a.Purge? && !a.Read? ==> OwnApply(s, a).pipe == s.pipe
    ensures |OwnApply(s, a).pipe| <= |s.pipe|
  {
  }

  lemma OwnKeepsLocals(s: State, a: WaiterAction)
    requires Inv(s) && OwnEnabled(s, a)
    ensures LocalsOk(OwnApply(s, a))
  {
  }

  lemma NewlyPassed(s: State, a: WaiterAction, k: nat)
    requires OwnEnabled(s, a) && k < |s.queue|
    requires !Passed(s.waiter, k) && Passed(OwnApply(s, a).waiter, k)
    ensures a.ScanNext? && !Ready(s, s.queue[k]) && OwnApply(s, a).up == s.up
  {
  }

  lemma StillPassed(s: State, a: WaiterAction, k: nat)
    requires OwnEnabled(s, a) && Passed(OwnApply(s, a).waiter, k)
    ensures OwnApply(s, a).pipe == s.pipe || OwnApply(s, a).waiter == Scanning(0, [])
  {
  }

  lemma OwnKeepsInv(s: State, a: WaiterAction)
    requires Inv(s) && OwnEnabled(s, a)
    ensures Inv(OwnApply(s, a))
  {
    var s' := OwnApply(s, a);
    OwnFrame(s, a);
    OwnKeepsLocals(s, a);
    forall h | h in s'.queue
      ensures Registered(s', h)
    {
      assert Registered(s, h);
    }
    forall k | 0 <= k < |s'.queue| && Passed(s'.waiter, k)
      ensures Announced(s', s'.queue[k])
    {
      StillPassed(s, a, k);
      if Passed(s.waiter, k) {
        assert Announced(s, s.queue[k]);
        if InFlight(s, s.queue[k]) {
          var t :| Pending(s, s.queue[k], t);
          assert Pending(s', s.queue[k], t);
        }
      } else {
        NewlyPassed(s, a, k);
      }
    }
  }

  lemma {:induction false} StepsKeepInv(s: State, actions: seq<Action>, s': State)
    requires Inv(s) && Steps(s, actions, s')
    ensures Inv(s')
    decreases |actions|
  {
    if actions != [] {
      match actions[0] {
        case Env(e) => EnvKeepsInv(s, e);
        case Own(o) => OwnKeepsInv(s, o);
      }
      StepsKeepInv(Apply(s, actions[0]), actions[1..], s');
    }
  }

  lemma ReachableInv(s: State)
    requires Reachable(s)
    ensures Inv(s)
  {
    var s0, actions :| Init(s0) && Steps(s0, actions, s);
    StepsKeepInv(s0, actions, s);
  }
}
