/** What a wait returns, as a function of the handle queue and the flags. */
module WaitSpec {
  import opened Handles
  import opened Sockets

  /** ofc_event_test answers true for an event that cannot be locked. */
  function TestFlag(flags: map<Handle, bool>, e: Handle): bool {
    e !in flags || flags[e]
  }

  function LowerFlag(flags: map<Handle, bool>, e: Handle): map<Handle, bool> {
    if e in flags then flags[e := false] else flags
  }

  function IsAuto(flags: map<Handle, bool>, e: Handle): bool {
    e !in flags || Auto(e)
  }

  /** The flags once a test that found e up has been followed by its AUTO reset. */
  function TakeFlag(flags: map<Handle, bool>, e: Handle): map<Handle, bool> {
    if TestFlag(flags, e) && IsAuto(flags, e) then LowerFlag(flags, e) else flags
  }

  /** EVENT_ELEMENT: what the scan queues for PollEvent. */
  datatype EventElement = EventElement(hEvent: Handle, hAssoc: Handle)

  /** Index of the first element for event e, or the length. */
  function FirstElement(list: seq<EventElement>, e: Handle): (k: nat)
    ensures k <= |list|
    ensures forall j | 0 <= j < k :: list[j].hEvent != e
    ensures k < |list| ==> list[k].hEvent == e
  {
    if list == [] || list[0].hEvent == e then 0 else 1 + FirstElement(list[1..], e)
  }

  lemma FirstElementIs(list: seq<EventElement>, e: Handle, k: nat)
    requires k <= |list| && forall j | 0 <= j < k :: list[j].hEvent != e
    requires k < |list| ==> list[k].hEvent == e
    ensures FirstElement(list, e) == k
  {
  }

  datatype PollResult = PollResult(triggered: Handle, pipe: seq<Handle>, flags: map<Handle, bool>)

  /** PollEvent on a pipe nobody writes meanwhile, one token at a time. */
  function PollTokens(pipe: seq<Handle>, list: seq<EventElement>, flags: map<Handle, bool>): PollResult
    decreases |pipe|
  {
    if pipe == [] then PollResult(Null, [], flags)
    else
      var e, rest := pipe[0], pipe[1..];
      var k := FirstElement(list, e);
      if e == Null then PollResult(Null, rest, flags)
      else if k == |list| || !TestFlag(flags, e) then PollTokens(rest, list, flags)
      else
        var flags' := TakeFlag(flags, e);
        if list[k].hAssoc == Null then PollTokens(rest, list, flags')
        else PollResult(list[k].hAssoc, rest, flags')
  }

  /** The token ends the reading: a wake, or the token of a listed event that is up. */
  predicate Stops(list: seq<EventElement>, flags: map<Handle, bool>, e: Handle) {
    e == Null || (FirstElement(list, e) < |list| && TestFlag(flags, e))
  }

  /** Scan readiness of a handle that waits on an event. */
  function HandleReady(flags: map<Handle, bool>, content: multiset<Handle>, h: Handle): bool {
    match h
    case Event(_, _) => TestFlag(flags, h)
    case Overlapped(_, e) => TestFlag(flags, e)
    case WaitQueue(_, _) => h in content
    case _ => false
  }

  // ---------- The scan ----------

  /** What the scan looks at. Wait times come from the core's timers. */
  datatype View = View(queue: seq<Handle>, flags: map<Handle, bool>, content: multiset<Handle>, wait: Handle -> nat)

  predicate Triggers(v: View, h: Handle) {
    HandleReady(v.flags, v.content, h) || (h.Timer? && v.wait(h) == 0)
  }

  function FirstReadyFrom(v: View, i: nat): (k: nat)
    requires i <= |v.queue|
    ensures i <= k <= |v.queue|
    ensures forall j | i <= j < k :: !Triggers(v, v.queue[j])
    ensures k < |v.queue| ==> Triggers(v, v.queue[k])
    decreases |v.queue| - i
  {
    if i == |v.queue| || Triggers(v, v.queue[i]) then i else FirstReadyFrom(v, i + 1)
  }

  /** Index of the first handle in queue order that triggers, or the length. */
  function FirstReady(v: View): (k: nat)
    ensures k <= |v.queue|
    ensures forall j | 0 <= j < k :: !Triggers(v, v.queue[j])
    ensures k < |v.queue| ==> Triggers(v, v.queue[k])
  {
    FirstReadyFrom(v, 0)
  }

  lemma FirstReadyIs(v: View, k: nat)
    requires k <= |v.queue| && forall j | 0 <= j < k :: !Triggers(v, v.queue[j])
    requires k < |v.queue| ==> Triggers(v, v.queue[k])
    ensures FirstReady(v) == k
  {
  }

  /** The flags after the scan stopped at h: only a plain event is taken. */
  function TakeHandle(flags: map<Handle, bool>, h: Handle): map<Handle, bool> {
    if h.Event? then TakeFlag(flags, h) else flags
  }

  /** What a scan that triggers nothing puts on the event queue. */
  function Listing(queue: seq<Handle>): seq<EventElement> {
    if queue == [] then []
    else
      var h := queue[|queue| - 1];
      Listing(queue[..|queue| - 1]) + if Listens(h) then [EventElement(EventOf(h), h)] else []
  }

  function SocketsOf(queue: seq<Handle>): seq<Handle> {
    if queue == [] then []
    else
      var h := queue[|queue| - 1];
      SocketsOf(queue[..|queue| - 1]) + if h.Socket? then [h] else []
  }

  /** Poll timeout and the timer it belongs to. */
  function TimerChoice(queue: seq<Handle>, wait: Handle -> nat, cap: nat): (nat, Handle) {
    if queue == [] then (cap, Null)
    else
      var h := queue[|queue| - 1];
      var (least, timer) := TimerChoice(queue[..|queue| - 1], wait, cap);
      if h.Timer? && wait(h) < least then (wait(h), h) else (least, timer)
  }

  // ---------- Poll ----------

  datatype Fd = PipeFd | SocketFd(h: Handle) | NoFd

  datatype PollFd = PollFd(fd: Fd, events: set<PollFlag>, revents: set<PollFlag>)

  const PIPE_ENTRY: PollFd := PollFd(PipeFd, {PollIn}, {})

  /** A socket that cannot be locked has no descriptor, and poll skips it. */
  function SocketEntry(asked: map<Handle, set<PollFlag>>, h: Handle): PollFd {
    if h in asked then PollFd(SocketFd(h), asked[h], {}) else PollFd(NoFd, {}, {})
  }

  /** The two arrays are of one length and entry k of one belongs to entry k of the
      other; entry 0 is the pipe. */
  predicate Aligned(asked: map<Handle, set<PollFlag>>, fds: seq<PollFd>, handles: seq<Handle>) {
    && |fds| == |handles| && |fds| > 0
    && fds[0] == PIPE_ENTRY
    && forall k | 1 <= k < |fds| :: fds[k] == SocketEntry(asked, handles[k])
  }

  // ---------- Progress of a scan that has triggered nothing ----------

  datatype Progress = Progress(fds: seq<PollFd>, handles: seq<Handle>,
                               eventQueue: seq<EventElement>, least: nat, timer: Handle)

  /** One pass of the scan loop over a handle that does not trigger. */
  function Extend(p: Progress, asked: map<Handle, set<PollFlag>>, h: Handle, wait: Handle -> nat): Progress {
    if h.Socket? then p.(fds := p.fds + [SocketEntry(asked, h)], handles := p.handles + [h])
    else if h.Timer? then (if wait(h) < p.least then p.(least := wait(h), timer := h) else p)
    else if Listens(h) then p.(eventQueue := p.eventQueue + [EventElement(EventOf(h), h)])
    else p
  }

  /** What the scan has gathered from a queue in which nothing triggers. */
  function Gather(queue: seq<Handle>, asked: map<Handle, set<PollFlag>>, wait: Handle -> nat, cap: nat): Progress {
    if queue == [] then Progress([PIPE_ENTRY], [Null], [], cap, Null)
    else Extend(Gather(queue[..|queue| - 1], asked, wait, cap), asked, queue[|queue| - 1], wait)
  }

  /** The arrays stay aligned at every length, and hold the sockets in queue order
      behind the pipe; the event queue holds the listening handles in order. */
  lemma {:induction false} GatherIs(queue: seq<Handle>, asked: map<Handle, set<PollFlag>>, wait: Handle -> nat, cap: nat)
    ensures var p := Gather(queue, asked, wait, cap);
      && Aligned(asked, p.fds, p.handles)
      && p.handles == [Null] + SocketsOf(queue)
      && p.eventQueue == Listing(queue)
      && (p.least, p.timer) == TimerChoice(queue, wait, cap)
  {
    if queue != [] {
      GatherIs(queue[..|queue| - 1], asked, wait, cap);
    }
  }

  lemma GatherOneMore(queue: seq<Handle>, i: nat, asked: map<Handle, set<PollFlag>>, wait: Handle -> nat, cap: nat)
    requires i < |queue|
    ensures Gather(queue[..i + 1], asked, wait, cap) == Extend(Gather(queue[..i], asked, wait, cap), asked, queue[i], wait)
  {
    assert queue[..i + 1][..i] == queue[..i];
  }

  // ---------- The whole call ----------

  /** What happens while the waiter is inside poll: whether poll fails, the tokens
      that reach the pipe, the new value of every flag that other threads set or
      reset, and the condition of each socket. */
  datatype PollEnv = PollEnv(failed: bool, arrived: seq<Handle>, changed: map<Handle, bool>,
                             condition: Handle -> set<PollFlag>)

  function ChangeFlags(flags: map<Handle, bool>, changed: map<Handle, bool>): map<Handle, bool> {
    map h | h in flags :: if h in changed then changed[h] else flags[h]
  }

  /** What poll reports in the entry of one descriptor. */
  function ReventsOf(entry: PollFd, pipe: seq<Handle>, env: PollEnv): set<PollFlag> {
    match entry.fd
    case PipeFd => if pipe != [] then {PollIn} else {}
    case SocketFd(h) => Reported(entry.events, env.condition(h))
    case NoFd => {}
  }

  function SocketRevents(asked: map<Handle, set<PollFlag>>, h: Handle, env: PollEnv): set<PollFlag> {
    if h in asked then Reported(asked[h], env.condition(h)) else {}
  }

  /** Index of the first socket that poll reports, or the length. */
  function FirstActive(sockets: seq<Handle>, asked: map<Handle, set<PollFlag>>, env: PollEnv): (k: nat)
    ensures k <= |sockets|
    ensures forall j | 0 <= j < k :: SocketRevents(asked, sockets[j], env) == {}
    ensures k < |sockets| ==> SocketRevents(asked, sockets[k], env) != {}
  {
    if sockets == [] || SocketRevents(asked, sockets[0], env) != {} then 0
    else 1 + FirstActive(sockets[1..], asked, env)
  }

  lemma FirstActiveIs(sockets: seq<Handle>, asked: map<Handle, set<PollFlag>>, env: PollEnv, k: nat)
    requires k <= |sockets| && forall j | 0 <= j < k :: SocketRevents(asked, sockets[j], env) == {}
    requires k < |sockets| ==> SocketRevents(asked, sockets[k], env) != {}
    ensures FirstActive(sockets, asked, env) == k
  {
  }

  /** Result, pipe and flags after the call, and the socket that got its revents. */
  datatype Outcome = Outcome(result: Handle, pipe: seq<Handle>, flags: map<Handle, bool>, active: Option<Handle>)

  /** The first ready handle in queue order; else what PollEvent makes of the pipe, if
      it is readable; else the first socket poll reports; else the chosen timer. */
  function WaitOutcome(v: View, asked: map<Handle, set<PollFlag>>, cap: nat, env: PollEnv): Outcome {
    var k := FirstReady(v);
    if k < |v.queue| then Outcome(v.queue[k], [], TakeHandle(v.flags, v.queue[k]), None)
    else
      var flags := ChangeFlags(v.flags, env.changed);
      if env.failed then Outcome(Null, env.arrived, flags, None)
      else if env.arrived != [] then
        var r := PollTokens(env.arrived, Listing(v.queue), flags);
        Outcome(r.triggered, r.pipe, r.flags, None)
      else
        var sockets := SocketsOf(v.queue);
        var j := FirstActive(sockets, asked, env);
        if j < |sockets| then Outcome(sockets[j], [], flags, Some(sockets[j]))
        else Outcome(TimerChoice(v.queue, v.wait, cap).1, [], flags, None)
  }
}
