/** What a wait call promises, for every queue, every set of flags, every pipe
    content and everything that may happen during poll. */
module WaitLaws {
  import opened Handles
  import opened Sockets
  import opened WaitSpec

  // ---------- PollEvent ----------

  /** Index of the first token that ends the reading, or the length. */
  function FirstStop(pipe: seq<Handle>, list: seq<EventElement>, flags: map<Handle, bool>): (k: nat)
    ensures k <= |pipe|
    ensures forall j | 0 <= j < k :: !Stops(list, flags, pipe[j])
    ensures k < |pipe| ==> Stops(list, flags, pipe[k])
  {
    if pipe == [] || Stops(list, flags, pipe[0]) then 0 else 1 + FirstStop(pipe[1..], list, flags)
  }

  /** PollEvent consumes exactly the shortest prefix that ends in a null token or in
      the token of a listed event that is up, or everything; it returns the handle
      of the first listed match, or null; it lowers only that event's flag, and
      only if the event is AUTO. */
  lemma {:induction false} PollEventContract(pipe: seq<Handle>, list: seq<EventElement>, flags: map<Handle, bool>)
    requires forall e | e in list :: e.hAssoc != Null
    ensures
      var r, k := PollTokens(pipe, list, flags), FirstStop(pipe, list, flags);
      if k == |pipe| then r == PollResult(Null, [], flags)
      else if pipe[k] == Null then r == PollResult(Null, pipe[k + 1..], flags)
      else r == PollResult(list[FirstElement(list, pipe[k])].hAssoc, pipe[k + 1..], TakeFlag(flags, pipe[k]))
    decreases |pipe|
  {
    if pipe != [] && !Stops(list, flags, pipe[0]) {
      PollEventContract(pipe[1..], list, flags);
    }
  }

  /** Stale tokens never deliver: if no token's event is both listed and up, nothing
      is returned and no flag changes. */
  lemma StaleTokensDeliverNothing(pipe: seq<Handle>, list: seq<EventElement>, flags: map<Handle, bool>)
    requires forall e | e in list :: e.hAssoc != Null
    ensures PollTokens(pipe, list, flags).triggered != Null ==>
      exists t :: t in pipe && t != Null && Stops(list, flags, t)
    ensures PollTokens(pipe, list, flags).triggered == Null ==> PollTokens(pipe, list, flags).flags == flags
  {
    PollEventContract(pipe, list, flags);
    var k := FirstStop(pipe, list, flags);
    if k < |pipe| && pipe[k] != Null {
      assert pipe[k] in pipe && Stops(list, flags, pipe[k]);
      assert list[FirstElement(list, pipe[k])] in list;
    }
  }

  // ---------- The scan's lists ----------

  /** The event queue names each listening handle of the queue with its event, and
      nothing else. */
  lemma {:induction false} ListingIs(queue: seq<Handle>)
    ensures forall e | e in Listing(queue) :: e.hAssoc in queue && Listens(e.hAssoc) && e.hEvent == EventOf(e.hAssoc)
    ensures forall h | h in queue && Listens(h) :: EventElement(EventOf(h), h) in Listing(queue)
  {
    if queue != [] {
      ListingIs(queue[..|queue| - 1]);
    }
  }

  lemma {:induction false} SocketsAre(queue: seq<Handle>)
    ensures forall h :: h in SocketsOf(queue) <==> h in queue && h.Socket?
  {
    if queue != [] {
      SocketsAre(queue[..|queue| - 1]);
      assert queue == queue[..|queue| - 1] + [queue[|queue| - 1]];
    }
  }

  // ---------- Timers ----------

  predicate ChosenAt(queue: seq<Handle>, wait: Handle -> nat, least: nat, timer: Handle, k: nat) {
    && k < |queue| && queue[k] == timer && timer.Timer? && wait(timer) == least
    && forall j | 0 <= j < k && queue[j].Timer? :: wait(queue[j]) > least
  }

  /** The poll timeout is the least of the cap and every timer's wait, and the timer
      that a timeout reports is the first in queue order to attain it strictly
      below the cap, or none. */
  lemma {:induction false} TimerBound(queue: seq<Handle>, wait: Handle -> nat, cap: nat)
    ensures var (least, timer) := TimerChoice(queue, wait, cap);
      && least <= cap
      && (forall h | h in queue && h.Timer? :: least <= wait(h))
      && (timer == Null <==> least == cap)
      && (timer != Null ==> exists k: nat :: ChosenAt(queue, wait, least, timer, k))
  {
    if queue != [] {
      var n := |queue| - 1;
      var h := queue[n];
      TimerBound(queue[..n], wait, cap);
      var (least0, timer0) := TimerChoice(queue[..n], wait, cap);
      assert queue == queue[..n] + [h];
      if h.Timer? && wait(h) < least0 {
        forall j | 0 <= j < n && queue[j].Timer?
          ensures wait(queue[j]) > wait(h)
        {
          assert queue[j] in queue[..n];
        }
        assert ChosenAt(queue, wait, wait(h), h, n);
      } else if timer0 != Null {
        var k: nat :| ChosenAt(queue[..n], wait, least0, timer0, k);
        forall j | 0 <= j < k && queue[j].Timer?
          ensures wait(queue[j]) > least0
        {
          assert queue[..n][j] == queue[j];
        }
        assert ChosenAt(queue, wait, least0, timer0, k);
      }
    }
  }

  // ---------- The call ----------

  /** Why a handle may be returned. */
  ghost predicate Justified(v: View, asked: map<Handle, set<PollFlag>>, cap: nat, env: PollEnv, h: Handle) {
    || Triggers(v, h)
    || (Listens(h) && EventOf(h) in env.arrived && TestFlag(ChangeFlags(v.flags, env.changed), EventOf(h)))
    || (h.Socket? && SocketRevents(asked, h, env) != {})
    || (h.Timer? && v.wait(h) < cap && forall g | g in v.queue && g.Timer? :: v.wait(h) <= v.wait(g))
  }

  /** A call is sound and minimal. A result that is not null was queued and had
      triggered, or was signalled and announced, or was reported by poll, or was
      the timer due. Against the flags as other threads left them, at most one
      flag is lowered: that of an AUTO event whose handle is returned. */
  lemma WaitIsSoundAndMinimal(v: View, asked: map<Handle, set<PollFlag>>, cap: nat, env: PollEnv)
    requires forall h | h in v.queue :: WellFormed(h)
    ensures
      var o := WaitOutcome(v, asked, cap, env);
      var flags := if FirstReady(v) < |v.queue| then v.flags else ChangeFlags(v.flags, env.changed);
      && (o.result != Null ==> o.result in v.queue && Justified(v, asked, cap, env, o.result))
      && (o.flags == flags
          || (o.result != Null && Auto(EventOf(o.result)) && TestFlag(flags, EventOf(o.result))
              && o.flags == LowerFlag(flags, EventOf(o.result))))
      && (o.active.Some? ==> o.active.value == o.result && o.result.Socket?)
  {
    var k := FirstReady(v);
    if k == |v.queue| {
      var flags := ChangeFlags(v.flags, env.changed);
      var list := Listing(v.queue);
      ListingIs(v.queue);
      if !env.failed && env.arrived != [] {
        PollEventContract(env.arrived, list, flags);
        var stop := FirstStop(env.arrived, list, flags);
        if stop < |env.arrived| && env.arrived[stop] != Null {
          assert env.arrived[stop] in env.arrived;
          assert list[FirstElement(list, env.arrived[stop])] in list;
        }
      } else if !env.failed {
        SocketsAre(v.queue);
        TimerBound(v.queue, v.wait, cap);
        ActiveOrTimer(v, asked, cap, env);
      }
    } else {
      assert v.queue[k] in v.queue;
    }
  }

  lemma ActiveOrTimer(v: View, asked: map<Handle, set<PollFlag>>, cap: nat, env: PollEnv)
    ensures
      var sockets := SocketsOf(v.queue);
      var j := FirstActive(sockets, asked, env);
      if j < |sockets| then
        sockets[j] in v.queue && sockets[j].Socket? && Justified(v, asked, cap, env, sockets[j])
      else
        var timer := TimerChoice(v.queue, v.wait, cap).1;
        timer != Null ==> timer in v.queue && timer.Timer? && Justified(v, asked, cap, env, timer)
  {
    SocketsAre(v.queue);
    TimerBound(v.queue, v.wait, cap);
    var sockets := SocketsOf(v.queue);
    var j := FirstActive(sockets, asked, env);
    if j < |sockets| {
      assert sockets[j] in sockets;
    } else {
      var (least, timer) := TimerChoice(v.queue, v.wait, cap);
      if timer != Null {
        var k: nat :| ChosenAt(v.queue, v.wait, least, timer, k);
        assert v.queue[k] in v.queue;
      }
    }
  }

  // ---------- Every outcome of the call, case by case ----------

  /** What stops the scan at h, for each type of handle. */
  lemma TriggersMeans(v: View, h: Handle)
    ensures Triggers(v, h) <==>
      || (h.Event? && (h !in v.flags || v.flags[h]))
      || (h.Overlapped? && (h.event !in v.flags || v.flags[h.event]))
      || (h.WaitQueue? && h in v.content)
      || (h.Timer? && v.wait(h) == 0)
  {
  }

  predicate NothingTriggers(v: View) {
    forall h | h in v.queue :: !Triggers(v, h)
  }

  lemma NothingReady(v: View)
    requires NothingTriggers(v)
    ensures FirstReady(v) == |v.queue|
  {
    FirstReadyIs(v, |v.queue|);
  }

  /** The first handle in queue order that triggers is returned, the pipe is left
      purged, and the one flag lowered is that of a plain AUTO event returned. */
  lemma ReadyHandleReturned(v: View, asked: map<Handle, set<PollFlag>>, cap: nat, env: PollEnv, k: nat)
    requires k < |v.queue| && Triggers(v, v.queue[k])
    requires forall j | 0 <= j < k :: !Triggers(v, v.queue[j])
    ensures
      var o := WaitOutcome(v, asked, cap, env);
      && o.result == v.queue[k] && o.pipe == [] && o.active == None
      && o.flags.Keys == v.flags.Keys
      && forall e | e in v.flags :: o.flags[e] <==> v.flags[e] && !(e == v.queue[k] && e.Event? && e.auto)
  {
    FirstReadyIs(v, k);
  }

  /** Poll has left e up, or e cannot be locked. */
  predicate UpAfterPoll(v: View, env: PollEnv, e: Handle) {
    e !in v.flags || (if e in env.changed then env.changed[e] else v.flags[e])
  }

  predicate LeftByPoll(v: View, env: PollEnv, flags: map<Handle, bool>) {
    flags.Keys == v.flags.Keys && forall e | e in flags :: flags[e] <==> UpAfterPoll(v, env, e)
  }

  /** A failed poll returns null, and reads nothing. */
  lemma FailedPollReturnsNull(v: View, asked: map<Handle, set<PollFlag>>, cap: nat, env: PollEnv)
    requires NothingTriggers(v) && env.failed
    ensures
      var o := WaitOutcome(v, asked, cap, env);
      o.result == Null && o.pipe == env.arrived && o.active == None && LeftByPoll(v, env, o.flags)
  {
    NothingReady(v);
  }

  predicate WaitsOn(h: Handle, e: Handle) {
    (h.Event? && h == e) || (h.WaitQueue? && h.event == e) || (h.Overlapped? && h.event == e)
  }

  /** The element of the handle at position k comes right after those before it. */
  lemma {:induction false} ListingAt(queue: seq<Handle>, k: nat)
    requires k < |queue| && Listens(queue[k])
    ensures Listing(queue[..k]) + [EventElement(EventOf(queue[k]), queue[k])] <= Listing(queue)
  {
    if k < |queue| - 1 {
      var init := queue[..|queue| - 1];
      ListingAt(init, k);
      assert init[..k] == queue[..k];
    }
  }

  /** A socket at position k comes right after the sockets before it. */
  lemma {:induction false} SocketAt(queue: seq<Handle>, k: nat)
    requires k < |queue| && queue[k].Socket?
    ensures SocketsOf(queue[..k]) + [queue[k]] <= SocketsOf(queue)
  {
    if k < |queue| - 1 {
      var init := queue[..|queue| - 1];
      SocketAt(init, k);
      assert init[..k] == queue[..k];
    }
  }

  /** The element that answers for e is that of the first handle waiting on e. */
  lemma FirstListedWaits(queue: seq<Handle>, e: Handle, k: nat)
    requires k < |queue| && WaitsOn(queue[k], e) && forall j | 0 <= j < k :: !WaitsOn(queue[j], e)
    ensures var list, f := Listing(queue), FirstElement(Listing(queue), e);
      f < |list| && list[f] == EventElement(e, queue[k])
  {
    ListingAt(queue, k);
    var f := |Listing(queue[..k])|;
    ListingIs(queue[..k]);
    forall j | 0 <= j < f
      ensures Listing(queue)[j].hEvent != e
    {
      var x := Listing(queue[..k])[j];
      assert x in Listing(queue[..k]) && x.hAssoc in queue[..k];
      var i :| 0 <= i < k && queue[..k][i] == x.hAssoc;
      assert !WaitsOn(queue[i], e);
    }
    FirstElementIs(Listing(queue), e, f);
  }

  lemma NobodyListed(queue: seq<Handle>, e: Handle)
    requires forall h | h in queue :: !WaitsOn(h, e)
    ensures FirstElement(Listing(queue), e) == |Listing(queue)|
  {
    ListingIs(queue);
    var list, f := Listing(queue), FirstElement(Listing(queue), e);
    assert f < |list| ==> list[f] in list && WaitsOn(list[f].hAssoc, e);
  }

  /** A token that delivers nothing: not null, and down or waited on by nobody. */
  predicate Stale(v: View, env: PollEnv, e: Handle) {
    e != Null && (!UpAfterPoll(v, env, e) || forall h | h in v.queue :: !WaitsOn(h, e))
  }

  lemma StaleDoesNotStop(v: View, env: PollEnv, e: Handle)
    requires Stale(v, env, e)
    ensures !Stops(Listing(v.queue), ChangeFlags(v.flags, env.changed), e)
  {
    if UpAfterPoll(v, env, e) {
      NobodyListed(v.queue, e);
    }
  }

  lemma FirstStopIs(pipe: seq<Handle>, list: seq<EventElement>, flags: map<Handle, bool>, n: nat)
    requires n <= |pipe| && forall m | 0 <= m < n :: !Stops(list, flags, pipe[m])
    requires n < |pipe| ==> Stops(list, flags, pipe[n])
    ensures FirstStop(pipe, list, flags) == n
  {
  }

  /** The tokens of a call that got past its scan, up to n of them stale. */
  lemma TokensDecide(v: View, asked: map<Handle, set<PollFlag>>, cap: nat, env: PollEnv, n: nat)
    requires NothingTriggers(v) && (forall h | h in v.queue :: WellFormed(h))
    requires !env.failed && env.arrived != [] && n <= |env.arrived|
    requires forall m | 0 <= m < n :: Stale(v, env, env.arrived[m])
    requires n < |env.arrived| ==> Stops(Listing(v.queue), ChangeFlags(v.flags, env.changed), env.arrived[n])
    ensures
      var list, flags := Listing(v.queue), ChangeFlags(v.flags, env.changed);
      WaitOutcome(v, asked, cap, env) ==
      if n == |env.arrived| then Outcome(Null, [], flags, None)
      else if env.arrived[n] == Null then Outcome(Null, env.arrived[n + 1..], flags, None)
      else Outcome(list[FirstElement(list, env.arrived[n])].hAssoc, env.arrived[n + 1..],
                   TakeFlag(flags, env.arrived[n]), None)
  {
    var list, flags := Listing(v.queue), ChangeFlags(v.flags, env.changed);
    NothingReady(v);
    ListingIs(v.queue);
    forall m | 0 <= m < n
      ensures !Stops(list, flags, env.arrived[m])
    {
      StaleDoesNotStop(v, env, env.arrived[m]);
    }
    FirstStopIs(env.arrived, list, flags, n);
    PollEventContract(env.arrived, list, flags);
  }

  /** Of the tokens that arrived during poll, stale ones are skipped; the first whose
      event is up and waited on delivers the first handle in queue order that waits
      on it, and lowers that event's flag if it is AUTO. Later tokens stay. */
  lemma TokenDelivers(v: View, asked: map<Handle, set<PollFlag>>, cap: nat, env: PollEnv, n: nat, k: nat)
    requires NothingTriggers(v) && (forall h | h in v.queue :: WellFormed(h))
    requires !env.failed && n < |env.arrived| && k < |v.queue|
    requires forall m | 0 <= m < n :: Stale(v, env, env.arrived[m])
    requires env.arrived[n] != Null && UpAfterPoll(v, env, env.arrived[n])
    requires WaitsOn(v.queue[k], env.arrived[n]) && forall j | 0 <= j < k :: !WaitsOn(v.queue[j], env.arrived[n])
    ensures
      var o, e := WaitOutcome(v, asked, cap, env), env.arrived[n];
      && o.result == v.queue[k] && o.pipe == env.arrived[n + 1..] && o.active == None
      && o.flags.Keys == v.flags.Keys
      && forall x | x in v.flags :: o.flags[x] <==> UpAfterPoll(v, env, x) && !(x == e && x.Event? && x.auto)
  {
    FirstListedWaits(v.queue, env.arrived[n], k);
    TokensDecide(v, asked, cap, env, n);
  }

  /** Tokens that are all stale, or stale up to a wake: the call returns null. */
  lemma StaleOrWakeReturnsNull(v: View, asked: map<Handle, set<PollFlag>>, cap: nat, env: PollEnv, n: nat)
    requires NothingTriggers(v) && (forall h | h in v.queue :: WellFormed(h))
    requires !env.failed && env.arrived != [] && n <= |env.arrived|
    requires forall m | 0 <= m < n :: Stale(v, env, env.arrived[m])
    requires n < |env.arrived| ==> env.arrived[n] == Null
    ensures
      var o := WaitOutcome(v, asked, cap, env);
      && o.result == Null && o.active == None && LeftByPoll(v, env, o.flags)
      && o.pipe == if n < |env.arrived| then env.arrived[n + 1..] else []
  {
    TokensDecide(v, asked, cap, env, n);
  }

  /** Poll has something to report for a socket. */
  ghost predicate Reports(asked: map<Handle, set<PollFlag>>, env: PollEnv, h: Handle) {
    h in asked
    && exists f :: f in env.condition(h) && (f in asked[h] || f == PollErr || f == PollHup || f == PollNval)
  }

  lemma ReportsMeans(asked: map<Handle, set<PollFlag>>, env: PollEnv, h: Handle)
    ensures Reports(asked, env, h) <==> SocketRevents(asked, h, env) != {}
  {
    if Reports(asked, env, h) {
      var f :| f in env.condition(h) && (f in asked[h] || f == PollErr || f == PollHup || f == PollNval);
      assert f in SocketRevents(asked, h, env);
    }
  }

  /** With an empty pipe, the first socket in queue order that poll reports is
      returned, and its conditions are what it is left with. */
  lemma ReportedSocketReturned(v: View, asked: map<Handle, set<PollFlag>>, cap: nat, env: PollEnv, k: nat)
    requires NothingTriggers(v) && !env.failed && env.arrived == []
    requires k < |v.queue| && v.queue[k].Socket? && Reports(asked, env, v.queue[k])
    requires forall j | 0 <= j < k && v.queue[j].Socket? :: !Reports(asked, env, v.queue[j])
    ensures
      var o := WaitOutcome(v, asked, cap, env);
      && o.result == v.queue[k] && o.pipe == [] && o.active == Some(v.queue[k]) && LeftByPoll(v, env, o.flags)
      && forall f :: f in SocketRevents(asked, v.queue[k], env) <==>
           f in env.condition(v.queue[k])
           && (f in asked[v.queue[k]] || f == PollErr || f == PollHup || f == PollNval)
  {
    var before := v.queue[..k];
    NothingReady(v);
    SocketAt(v.queue, k);
    SocketsAre(before);
    var j := |SocketsOf(before)|;
    forall i | 0 <= i < j
      ensures SocketRevents(asked, SocketsOf(v.queue)[i], env) == {}
    {
      var h := SocketsOf(before)[i];
      assert h in SocketsOf(before) && h in before;
      ReportsMeans(asked, env, h);
    }
    ReportsMeans(asked, env, v.queue[k]);
    FirstActiveIs(SocketsOf(v.queue), asked, env, j);
  }

  predicate TimersOnlyLater(v: View, cap: nat) {
    forall h | h in v.queue && h.Timer? :: cap <= v.wait(h)
  }

  /** With an empty pipe and no socket to report, the timeout returns the first timer
      in queue order with the least wait below the cap, or null if there is none. */
  lemma TimeoutReturnsTimer(v: View, asked: map<Handle, set<PollFlag>>, cap: nat, env: PollEnv)
    requires NothingTriggers(v) && !env.failed && env.arrived == []
    requires forall h | h in v.queue && h.Socket? :: !Reports(asked, env, h)
    ensures
      var o := WaitOutcome(v, asked, cap, env);
      && o.pipe == [] && o.active == None && LeftByPoll(v, env, o.flags)
      && (TimersOnlyLater(v, cap) ==> o.result == Null)
      && (forall k | 0 <= k < |v.queue| && LeastTimer(v, cap, k) :: o.result == v.queue[k])
  {
    NothingReady(v);
    SocketsAre(v.queue);
    var sockets := SocketsOf(v.queue);
    forall j | 0 <= j < |sockets|
      ensures SocketRevents(asked, sockets[j], env) == {}
    {
      assert sockets[j] in sockets;
      ReportsMeans(asked, env, sockets[j]);
    }
    FirstActiveIs(sockets, asked, env, |sockets|);
    TimerBound(v.queue, v.wait, cap);
    var (least, timer) := TimerChoice(v.queue, v.wait, cap);
    forall k | 0 <= k < |v.queue| && LeastTimer(v, cap, k)
      ensures timer == v.queue[k]
    {
      assert v.queue[k] in v.queue;
      var c: nat :| ChosenAt(v.queue, v.wait, least, timer, c);
      assert v.queue[c] in v.queue;
    }
    if timer != Null {
      var c: nat :| ChosenAt(v.queue, v.wait, least, timer, c);
      assert v.queue[c] in v.queue;
    }
  }

  /** The first timer to attain the least wait of all, below the cap. */
  predicate LeastTimer(v: View, cap: nat, k: nat)
    requires k < |v.queue|
  {
    && v.queue[k].Timer? && v.wait(v.queue[k]) < cap
    && (forall h | h in v.queue && h.Timer? :: v.wait(v.queue[k]) <= v.wait(h))
    && (forall j | 0 <= j < k && v.queue[j].Timer? :: v.wait(v.queue[k]) < v.wait(v.queue[j]))
  }

  /** A call never leaves more tokens behind than arrived during poll. */
  lemma {:induction false} TokensOnlyShrink(pipe: seq<Handle>, list: seq<EventElement>, flags: map<Handle, bool>)
    ensures |PollTokens(pipe, list, flags).pipe| <= |pipe|
    decreases |pipe|
  {
    if pipe != [] {
      TokensOnlyShrink(pipe[1..], list, flags);
      TokensOnlyShrink(pipe[1..], list, TakeFlag(flags, pipe[0]));
    }
  }
}
