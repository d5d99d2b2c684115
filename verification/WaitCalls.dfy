/** What single calls of other threads do, from their first step to their last: which
    event they set, register and write a token for. */
module WaitCalls {
  import opened Handles
  import opened WaitProtocol
  import opened WaitTheorems
  import opened WaitLaws

  /** The steps of a set once the flag is up. */
  function AfterFlag(s: State, t: Tid, e: Handle): seq<Action> {
    [Env(GetWaitSet(t))] + if e in s.registered then [Env(Write(t))] else []
  }

  lemma AfterFlagRun(s: State, t: Tid, e: Handle) returns (s': State)
    requires t in s.threads && s.threads[t] == Flagged(e)
    ensures Steps(s, AfterFlag(s, t, e), s')
    ensures s' == s.(threads := s.threads - {t},
                     pipe := if e in s.registered && |s.pipe| < s.capacity then s.pipe + [e] else s.pipe)
  {
    var s1 := Apply(s, Env(GetWaitSet(t)));
    if e in s.registered {
      s' := Apply(s1, Env(Write(t)));
      Prepend(s1, Env(Write(t)), [], s');
      Prepend(s, Env(GetWaitSet(t)), [Env(Write(t))], s');
    } else {
      s' := s1;
      Prepend(s, Env(GetWaitSet(t)), [], s');
    }
  }

  /** A set raises its event and, if the event is associated with this wait set,
      appends its token unless the pipe is full. */
  lemma SetRun(s: State, t: Tid, e: Handle) returns (s': State)
    requires t !in s.threads && e.Event? && MutexFree(s, e)
    ensures Steps(s, [Env(Set(t, e))] + AfterFlag(s, t, e), s')
    ensures s' == s.(up := s.up + {e},
                     pipe := if e in s.registered && |s.pipe| < s.capacity then s.pipe + [e] else s.pipe)
  {
    var s1 := Apply(s, Env(Set(t, e)));
    s' := AfterFlagRun(s1, t, e);
    Prepend(s, Env(Set(t, e)), AfterFlag(s1, t, e), s');
    assert s'.threads == s.threads;
  }

  /** An enqueue adds one entry to its wait queue and then does to the queue's event
      what a set does. */
  lemma EnqueueRun(s: State, t: Tid, q: Handle) returns (s': State)
    requires t !in s.threads && q.WaitQueue? && q.event.Event? && MutexFree(s, q.event)
    ensures Steps(s, [Env(Enqueue(t, q))] + ([Env(SetQueued(t, q.event))] + AfterFlag(s, t, q.event)), s')
    ensures s' == s.(content := s.content + multiset{q}, up := s.up + {q.event},
                     pipe := if q.event in s.registered && |s.pipe| < s.capacity then s.pipe + [q.event] else s.pipe)
  {
    var s1 := Apply(s, Env(Enqueue(t, q)));
    var s2 := Apply(s1, Env(SetQueued(t, q.event)));
    s' := AfterFlagRun(s2, t, q.event);
    var rest := AfterFlag(s2, t, q.event);
    Prepend(s1, Env(SetQueued(t, q.event)), rest, s');
    Prepend(s, Env(Enqueue(t, q)), [Env(SetQueued(t, q.event))] + rest, s');
    assert s'.threads == s.threads;
  }

  /** The steps of an add once the event is associated. */
  function AfterAssociated(signals: bool, t: Tid): seq<Action> {
    [Env(TestAdded(t))] + if signals then [Env(Write(t))] else []
  }

  predicate ReadyFor(s: State, h: Handle, e: Handle) {
    if h.WaitQueue? then h in s.content else e in s.up
  }

  lemma AfterAssociatedRun(s: State, t: Tid, h: Handle, e: Handle) returns (s': State)
    requires t in s.threads && s.threads[t] == Associated(h)
    requires WaitsOn(h, e) && (h.WaitQueue? || MutexFree(s, e))
    ensures Steps(s, AfterAssociated(ReadyFor(s, h, e), t), s')
    ensures s' == s.(threads := s.threads - {t},
                     pipe := if ReadyFor(s, h, e) && |s.pipe| < s.capacity then s.pipe + [e] else s.pipe)
  {
    var s1 := Apply(s, Env(TestAdded(t)));
    if ReadyFor(s, h, e) {
      s' := Apply(s1, Env(Write(t)));
      Prepend(s1, Env(Write(t)), [], s');
      Prepend(s, Env(TestAdded(t)), [Env(Write(t))], s');
    } else {
      s' := s1;
      Prepend(s, Env(TestAdded(t)), [], s');
    }
  }

  /** An add queues its handle, associates the event that the handle waits on, and
      writes that event's token exactly when the handle is ready: a wait queue when
      it holds an entry, the others when the event is up. */
  lemma AddRun(s: State, t: Tid, h: Handle, e: Handle) returns (s': State)
    requires t !in s.threads && WellFormed(h) && WaitsOn(h, e) && (h.WaitQueue? || MutexFree(s, e))
    ensures Steps(s, [Env(EnvAction.Add(t, h))] + ([Env(Associate(t))] + AfterAssociated(ReadyFor(s, h, e), t)), s')
    ensures s' == s.(queue := s.queue + [h], registered := s.registered + {e},
                     pipe := if ReadyFor(s, h, e) && |s.pipe| < s.capacity then s.pipe + [e] else s.pipe)
  {
    var s1 := Apply(s, Env(EnvAction.Add(t, h)));
    var s2 := Apply(s1, Env(Associate(t)));
    s' := AfterAssociatedRun(s2, t, h, e);
    var rest := AfterAssociated(ReadyFor(s, h, e), t);
    Prepend(s1, Env(Associate(t)), rest, s');
    Prepend(s, Env(EnvAction.Add(t, h)), [Env(Associate(t))] + rest, s');
    assert s'.threads == s.threads;
  }

  /** An add of any other handle queues it and does nothing else. */
  lemma AddSilentRun(s: State, t: Tid, h: Handle) returns (s': State)
    requires t !in s.threads && (h.Socket? || h.Timer? || h.Other?)
    ensures Steps(s, [Env(EnvAction.Add(t, h))] + [Env(Associate(t))], s')
    ensures s' == s.(queue := s.queue + [h])
  {
    var s1 := Apply(s, Env(EnvAction.Add(t, h)));
    s' := Apply(s1, Env(Associate(t)));
    Prepend(s1, Env(Associate(t)), [], s');
    Prepend(s, Env(EnvAction.Add(t, h)), [Env(Associate(t))], s');
    assert s'.threads == s.threads;
  }

  /** A wake writes the null token. */
  lemma WakeRun(s: State, t: Tid) returns (s': State)
    requires t !in s.threads
    ensures Steps(s, [Env(Wake(t))] + [Env(Write(t))], s')
    ensures s' == s.(pipe := if |s.pipe| < s.capacity then s.pipe + [Null] else s.pipe)
  {
    var s1 := Apply(s, Env(Wake(t)));
    s' := Apply(s1, Env(Write(t)));
    Prepend(s1, Env(Write(t)), [], s');
    Prepend(s, Env(Wake(t)), [Env(Write(t))], s');
    assert s'.threads == s.threads;
  }

  // ---------- In any interleaving ----------

  predicate ActsAs(a: Action, t: Tid) {
    a.Env? && ActsFor(a.env, t)
  }

  lemma {:induction false} StaysPut(s: State, actions: seq<Action>, s': State, t: Tid)
    requires t in s.threads && Steps(s, actions, s') && forall a | a in actions :: !ActsAs(a, t)
    ensures t in s'.threads && s'.threads[t] == s.threads[t]
    decreases |actions|
  {
    if actions != [] {
      assert !ActsAs(actions[0], t);
      match actions[0] {
        case Env(a) => OthersStay(s, a, t);
        case Own(o) => OwnFrame(s, o);
      }
      StaysPut(Apply(s, actions[0]), actions[1..], s', t);
    }
  }

  /** After an enqueue on q, whatever all others do meanwhile, the thread's next step
      raises the event of q and no other. */
  lemma EnqueueSetsItsEvent(s: State, t: Tid, q: Handle, actions: seq<Action>, s1: State, next: EnvAction)
    requires EnvEnabled(s, Enqueue(t, q)) && Steps(EnvApply(s, Enqueue(t, q)), actions, s1)
    requires (forall a | a in actions :: !ActsAs(a, t)) && ActsFor(next, t) && EnvEnabled(s1, next)
    ensures next == SetQueued(t, q.event) && EnvApply(s1, next).up == s1.up + {q.event}
  {
    StaysPut(EnvApply(s, Enqueue(t, q)), actions, s1, t);
  }

  /** After h is put into the handle queue, whatever all others do meanwhile, the
      thread's next step associates exactly the event that h waits on, if any. */
  lemma AddRegistersItsEvent(s: State, t: Tid, h: Handle, actions: seq<Action>, s1: State, next: EnvAction)
    requires EnvEnabled(s, EnvAction.Add(t, h)) && Steps(EnvApply(s, EnvAction.Add(t, h)), actions, s1)
    requires (forall a | a in actions :: !ActsAs(a, t)) && ActsFor(next, t) && EnvEnabled(s1, next)
    ensures next == Associate(t)
    ensures forall e :: e in EnvApply(s1, next).registered <==> e in s1.registered || WaitsOn(h, e)
  {
    StaysPut(EnvApply(s, EnvAction.Add(t, h)), actions, s1, t);
  }
}
