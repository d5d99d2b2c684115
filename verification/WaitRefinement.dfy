/** The two models agree: left alone, the waiter of the transition system computes
    what the imperative wait and PollEvent compute. */
module WaitRefinement {
  import opened Handles
  import opened WaitProtocol
  import opened WaitTheorems
  import opened WaitSpec

  /** No other thread is inside a call, and the view shows this state. */
  ghost predicate Shows(v: View, s: State) {
    && s.threads == map[] && v.queue == s.queue && v.content == s.content
    && (forall h | h in s.queue :: WellFormed(h))
    && FlagsShow(v.flags, s)
  }

  ghost predicate FlagsShow(flags: map<Handle, bool>, s: State) {
    forall h | h in s.queue && Listens(h) :: EventOf(h) in flags && (flags[EventOf(h)] <==> EventOf(h) in s.up)
  }

  function Assocs(list: seq<EventElement>): seq<Handle> {
    seq(|list|, i requires 0 <= i < |list| => list[i].hAssoc)
  }

  lemma ReadyShown(v: View, s: State, h: Handle)
    requires Shows(v, s) && h in s.queue
    ensures HandleReady(v.flags, v.content, h) <==> Ready(s, h)
  {
  }

  // ---------- The scan ----------

  ghost predicate ScanEnds(v: View, s: State, s': State) {
    var k := FirstReady(v);
    if k < |v.queue|
    then
      && s' == s.(waiter := Done(v.queue[k]), up := if Auto(v.queue[k]) then s.up - {v.queue[k]} else s.up)
      && FlagsShow(TakeHandle(v.flags, v.queue[k]), s')
    else s' == s.(waiter := Polling(|v.queue|, Assocs(Listing(v.queue))))
  }

  lemma ListOneMore(queue: seq<Handle>, i: nat)
    requires i < |queue|
    ensures var list := Assocs(Listing(queue[..i]));
      Assocs(Listing(queue[..i + 1])) == if Listens(queue[i]) then list + [queue[i]] else list
  {
    assert queue[..i + 1][..i] == queue[..i];
  }

  /** One scan step of the protocol is one pass of the loop. */
  lemma SoloScanStep(v: View, s: State, i: nat)
    requires Shows(v, s) && i < |v.queue| && s.waiter == Scanning(i, Assocs(Listing(v.queue[..i])))
    ensures
      var h := v.queue[i];
      var a := Own(ScanNext(h.Timer? && v.wait(h) == 0));
      && Enabled(s, a)
      && Apply(s, a) == s.(waiter :=
           if !Triggers(v, h) then Scanning(i + 1, Assocs(Listing(v.queue[..i + 1])))
           else if Auto(h) then Clearing(h) else Done(h))
  {
    var h := v.queue[i];
    ReadyShown(v, s, h);
    ListOneMore(v.queue, i);
  }

  lemma {:induction false} SoloScan(v: View, s: State, i: nat) returns (actions: seq<Action>, s': State)
    requires Shows(v, s) && i <= FirstReady(v)
    requires s.waiter == Scanning(i, Assocs(Listing(v.queue[..i])))
    ensures Steps(s, actions, s') && ScanEnds(v, s, s')
    ensures forall a | a in actions :: !IsReturn(a)
    decreases |v.queue| - i
  {
    if i == |v.queue| {
      var a := Own(ScanNext(false));
      assert v.queue[..i] == v.queue;
      s' := Apply(s, a);
      Prepend(s, a, [], s');
      actions := [a] + [];
    } else {
      var h := v.queue[i];
      var a := Own(ScanNext(h.Timer? && v.wait(h) == 0));
      SoloScanStep(v, s, i);
      var s1 := Apply(s, a);
      if !Triggers(v, h) {
        var rest;
        rest, s' := SoloScan(v, s1, i + 1);
        Prepend(s, a, rest, s');
        actions := [a] + rest;
      } else {
        FirstReadyIs(v, i);
        if Auto(h) {
          s' := Apply(s1, Own(Clear));
          Prepend(s1, Own(Clear), [], s');
          Prepend(s, a, [Own(Clear)], s');
          actions := [a] + [Own(Clear)];
        } else {
          s' := s1;
          Prepend(s, a, [], s');
          actions := [a] + [];
        }
      }
    }
  }

  lemma {:induction false} SoloPurge(s: State) returns (actions: seq<Action>, s': State)
    requires s.waiter.Purging?
    ensures Steps(s, actions, s') && s' == s.(pipe := [], waiter := Scanning(0, []))
    ensures forall a | a in actions :: !IsReturn(a)
    decreases |s.pipe|
  {
    var s1 := Apply(s, Own(Purge));
    if s.pipe == [] {
      s' := s1;
      Prepend(s, Own(Purge), [], s');
      actions := [Own(Purge)] + [];
    } else {
      var rest;
      rest, s' := SoloPurge(s1);
      Prepend(s, Own(Purge), rest, s');
      actions := [Own(Purge)] + rest;
    }
  }

  /** Purge and scan in the protocol, undisturbed: the waiter ends holding the first
      ready handle in queue order, a plain AUTO event lowered, or reaches poll with
      an empty pipe and the event queue of the imperative scan. */
  lemma PurgeAndScanAgree(v: View, s: State) returns (actions: seq<Action>, s': State)
    requires Shows(v, s) && s.waiter.Purging?
    ensures Steps(s, actions, s') && ScanEnds(v, s.(pipe := []), s')
  {
    var a1, s1 := SoloPurge(s);
    var a2, s2 := SoloScan(v, s1, 0);
    Chain(s, a1, s1, a2, s2);
    actions, s' := a1 + a2, s2;
  }

  // ---------- PollEvent ----------

  lemma {:induction false} FirstListedIs(list: seq<EventElement>, e: Handle)
    requires forall x | x in list :: x.hEvent == EventOf(x.hAssoc)
    ensures var k := FirstElement(list, e);
      FirstListed(Assocs(list), e) == if k < |list| then list[k].hAssoc else Null
  {
    if list != [] {
      var assocs := Assocs(list);
      assert list[0] in list && assocs[0] == list[0].hAssoc && assocs[1..] == Assocs(list[1..]);
      if list[0].hEvent != e {
        FirstListedIs(list[1..], e);
        assert FirstElement(list, e) == 1 + FirstElement(list[1..], e);
      }
    }
  }

  /** The list of a scan over this state's queue. */
  ghost predicate ListOf(list: seq<EventElement>, s: State) {
    forall x | x in list :: x.hAssoc in s.queue && Listens(x.hAssoc) && x.hEvent == EventOf(x.hAssoc)
  }

  ghost predicate DrainEnds(r: PollResult, s: State, s': State) {
    && s'.waiter == Done(r.triggered) && s'.pipe == r.pipe
    && s' == s.(waiter := s'.waiter, pipe := s'.pipe, up := s'.up)
    && FlagsShow(r.flags, s')
  }

  /** From a readable pipe the waiter, undisturbed, does what PollEvent does: same
      tokens consumed, same handle, same flags. */
  lemma {:induction false} PollEventAgrees(s: State, list: seq<EventElement>, flags: map<Handle, bool>)
    returns (actions: seq<Action>, s': State)
    requires s.threads == map[] && (forall h | h in s.queue :: WellFormed(h))
    requires FlagsShow(flags, s) && ListOf(list, s)
    requires s.waiter == Readable(Assocs(list)) || s.waiter == Draining(Assocs(list))
    ensures Steps(s, actions, s') && DrainEnds(PollTokens(s.pipe, list, flags), s, s')
    decreases |s.pipe|, 0
  {
    var s1 := Apply(s, Own(WaitProtocol.Read));
    if s.pipe == [] || s.pipe[0] == Null {
      s' := s1;
      Prepend(s, Own(WaitProtocol.Read), [], s');
      actions := [Own(WaitProtocol.Read)] + [];
    } else {
      var e := s.pipe[0];
      FirstListedIs(list, e);
      var k := FirstElement(list, e);
      if k == |list| {
        var rest;
        rest, s' := PollEventAgrees(s1, list, flags);
        Prepend(s, Own(WaitProtocol.Read), rest, s');
        actions := [Own(WaitProtocol.Read)] + rest;
      } else {
        assert list[k] in list;
        var rest;
        rest, s' := TestAgrees(s1, list, flags, k);
        Prepend(s, Own(WaitProtocol.Read), rest, s');
        actions := [Own(WaitProtocol.Read)] + rest;
      }
    }
  }

  lemma {:induction false} TestAgrees(s: State, list: seq<EventElement>, flags: map<Handle, bool>, k: nat)
    returns (actions: seq<Action>, s': State)
    requires s.threads == map[] && (forall h | h in s.queue :: WellFormed(h))
    requires FlagsShow(flags, s) && ListOf(list, s) && k < |list|
    requires s.waiter == Testing(list[k].hEvent, list[k].hAssoc, Assocs(list))
    ensures Steps(s, actions, s')
    ensures
      var e := list[k].hEvent;
      DrainEnds(if TestFlag(flags, e) then PollResult(list[k].hAssoc, s.pipe, TakeFlag(flags, e))
                else PollTokens(s.pipe, list, flags), s, s')
    decreases |s.pipe|, 1
  {
    assert list[k] in list;
    var s1 := Apply(s, Own(TestToken));
    if list[k].hEvent !in s.up {
      var rest;
      rest, s' := PollEventAgrees(s1, list, flags);
      Prepend(s, Own(TestToken), rest, s');
      actions := [Own(TestToken)] + rest;
    } else if Auto(list[k].hEvent) {
      s' := Apply(s1, Own(ClearToken));
      Prepend(s1, Own(ClearToken), [], s');
      Prepend(s, Own(TestToken), [Own(ClearToken)], s');
      actions := [Own(TestToken)] + [Own(ClearToken)];
    } else {
      s' := s1;
      Prepend(s, Own(TestToken), [], s');
      actions := [Own(TestToken)] + [];
    }
  }

  // ---------- A ready handle ends the call ----------

  function Elements(list: seq<Handle>): (r: seq<EventElement>)
    ensures Assocs(r) == list
    ensures forall x | x in r :: x.hAssoc in list && x.hEvent == EventOf(x.hAssoc)
  {
    seq(|list|, i requires 0 <= i < |list| => EventElement(EventOf(list[i]), list[i]))
  }

  /** From every reachable state in which the waiter is inside poll while some queued
      handle is ready: the calls in progress can finish, and then the waiter by its
      own steps leaves poll by the pipe and ends its call. The waiter is then Awake,
      so no run from there to its return times out. */
  lemma ReadyHandleEndsTheCall(s: State, k: nat) returns (calls: seq<Action>, s1: State, own: seq<Action>, s2: State)
    requires Reachable(s) && s.waiter.Polling? && k < |s.queue| && Ready(s, s.queue[k])
    ensures Steps(s, calls, s1) && s1.threads == map[] && s1.waiter == s.waiter && Awake(s1)
    ensures Steps(s1, own, s2) && s2.waiter.Done? && own != [] && own[0] == Own(PollPipe)
  {
    calls, s1 := Quiesces(s);
    ReachableSteps(s, calls, s1);
    ReachableInv(s1);
    var list := s1.waiter.list;
    var r := Apply(s1, Own(PollPipe));
    var events := set h | h in s1.queue :: EventOf(h);
    var flags := map e | e in events :: e in s1.up;
    var rest;
    rest, s2 := PollEventAgrees(r, Elements(list), flags);
    Prepend(s1, Own(PollPipe), rest, s2);
    own := [Own(PollPipe)] + rest;
  }
}
