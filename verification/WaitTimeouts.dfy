/** Exactly when a wait can still sleep out its timeout, and what that makes of a
    wake and of a thread delete. */
module WaitTimeouts {
  import opened Handles
  import opened WaitProtocol
  import opened WaitTheorems
  import opened WaitRefinement

  /** The call in progress, or the next one if there is none, times out in some
      continuation. */
  ghost predicate CanTimeOut(s: State) {
    exists actions, s' :: TimesOut(s, actions, s')
  }

  ghost predicate TimesOut(s: State, actions: seq<Action>, s': State) {
    && Steps(s, actions, s') && (forall a | a in actions :: !IsReturn(a))
    && Enabled(s', Own(PollTimeout(Null)))
  }

  predicate TestedByFlag(h: Handle) {
    h.Event? || h.Overlapped?
  }

  /** Thread t is inside the mutex that the scan needs at position k. */
  predicate Holds(s: State, t: Tid, k: nat) {
    && k < |s.queue| && TestedByFlag(s.queue[k])
    && t in s.threads && HoldsMutex(s.threads[t], EventOf(s.queue[k]))
  }

  /** Thread t is inside the mutex that the scan needs at position k, and is not
      leaving it without writing a token. */
  predicate Blocks(s: State, t: Tid, k: nat) {
    && k < |s.queue| && TestedByFlag(s.queue[k]) && t in s.threads
    && (|| s.threads[t] == Writing(EventOf(s.queue[k]))
        || (s.threads[t] == Flagged(EventOf(s.queue[k])) && EventOf(s.queue[k]) in s.registered))
  }

  /** The call in progress is sure not to time out: it is awake already, or its scan
      cannot get past a setter that is about to write. */
  ghost predicate SureToWake(s: State) {
    Awake(s) || (s.waiter.Scanning? && exists t: Tid, k: nat :: s.waiter.i <= k && Blocks(s, t, k))
  }

  // ---------- Sure to wake means no timeout ----------

  lemma BlockKept(s: State, a: EnvAction, t: Tid, k: nat)
    requires Inv(s) && EnvEnabled(s, a) && Blocks(s, t, k)
    ensures Blocks(EnvApply(s, a), t, k) || EnvApply(s, a).pipe != []
  {
    EnvQueue(s, a);
    if !ActsFor(a, t) {
      OthersStay(s, a, t);
      if s.threads[t].Flagged? {
        StaysRegistered(s, a, s.queue[k]);
      }
    }
  }

  lemma StaysRegistered(s: State, a: EnvAction, h: Handle)
    requires EnvEnabled(s, a) && h in s.queue && Listens(h) && EventOf(h) in s.registered
    ensures EventOf(h) in EnvApply(s, a).registered
  {
  }

  lemma SureStep(s: State, a: Action)
    requires Inv(s) && SureToWake(s) && Enabled(s, a) && !IsReturn(a)
    ensures SureToWake(Apply(s, a))
  {
    if Awake(s) {
      AwakeStep(s, a);
    } else {
      var t: Tid, k: nat :| s.waiter.i <= k && Blocks(s, t, k);
      match a {
        case Env(e) =>
          EnvKeepsTokens(s, e);
          BlockKept(s, e, t, k);
        case Own(o) =>
          assert HoldsMutex(s.threads[t], EventOf(s.queue[k]));
          OwnFrame(s, o);
          assert s.waiter.i < k;
          if Apply(s, a).waiter.Scanning? {
            assert Blocks(Apply(s, a), t, k);
          }
      }
    }
  }

  lemma {:induction false} SureUntilReturn(s: State, actions: seq<Action>, s': State)
    requires Inv(s) && SureToWake(s) && Steps(s, actions, s')
    requires forall a | a in actions :: !IsReturn(a)
    ensures SureToWake(s')
    decreases |actions|
  {
    if actions != [] {
      assert actions[0] in actions;
      StepKeepsInv(s, actions[0]);
      SureStep(s, actions[0]);
      SureUntilReturn(Apply(s, actions[0]), actions[1..], s');
    }
  }

  // ---------- Otherwise a timeout can be reached ----------

  /** The scan can pass positions from i on: nothing there is ready, and no mutex it
      needs is held. */
  ghost predicate Clear(s: State, i: nat) {
    forall k | i <= k < |s.queue| ::
      !Ready(s, s.queue[k]) && (TestedByFlag(s.queue[k]) ==> MutexFree(s, EventOf(s.queue[k])))
  }

  /** The waiter alone gets past the rest of such a scan into poll. */
  lemma {:induction false} ScanThrough(s: State) returns (actions: seq<Action>, s': State)
    requires s.waiter.Scanning? && s.waiter.i <= |s.queue| && Clear(s, s.waiter.i)
    ensures Steps(s, actions, s') && forall a | a in actions :: !IsReturn(a)
    ensures s'.waiter.Polling? && s'.pipe == s.pipe
    decreases |s.queue| - s.waiter.i
  {
    var a := Own(ScanNext(false));
    var s1 := Apply(s, a);
    if s.waiter.i == |s.queue| {
      s' := s1;
      Prepend(s, a, [], s');
      actions := [a] + [];
    } else {
      var rest;
      rest, s' := ScanThrough(s1);
      Prepend(s, a, rest, s');
      actions := [a] + rest;
    }
  }

  ghost predicate Unblocked(s: State, i: nat) {
    (forall h | h in s.queue :: WellFormed(h)) && forall t: Tid, k: nat | i <= k :: !Blocks(s, t, k)
  }

  /** Someone takes away the readiness of the handle at position k. */
  lemma ConsumeOne(s: State, k: nat) returns (a: EnvAction, s': State)
    requires k < |s.queue| && WellFormed(s.queue[k]) && Ready(s, s.queue[k])
    requires TestedByFlag(s.queue[k]) ==> MutexFree(s, EventOf(s.queue[k]))
    ensures EnvEnabled(s, a) && s' == EnvApply(s, a)
    ensures s' == s.(up := s'.up, content := s'.content) && |s'.up| + |s'.content| < |s.up| + |s.content|
  {
    var h := s.queue[k];
    if h.WaitQueue? {
      a := Dequeue(h);
      s' := EnvApply(s, a);
      assert s.content == s'.content + multiset{h};
    } else {
      a := Reset(EventOf(h));
      s' := EnvApply(s, a);
      assert s.up == s'.up + {EventOf(h)};
    }
  }

  /** A setter inside a mutex that the scan needs found no association, and leaves. */
  lemma LeaveOne(s: State, i: nat, t: Tid, k: nat) returns (s': State)
    requires Unblocked(s, i) && i <= k && Holds(s, t, k)
    ensures EnvEnabled(s, GetWaitSet(t)) && s' == EnvApply(s, GetWaitSet(t))
    ensures s' == Finish(s, t) && Unblocked(s', i)
  {
    assert !Blocks(s, t, k);
    s' := EnvApply(s, GetWaitSet(t));
    forall u: Tid, j: nat | i <= j
      ensures !Blocks(s', u, j)
    {
      assert !Blocks(s, u, j);
    }
  }

  lemma StaysUnblocked(s: State, s': State, i: nat)
    requires Unblocked(s, i) && s' == s.(up := s'.up, content := s'.content)
    ensures Unblocked(s', i)
  {
    forall u: Tid, j: nat | i <= j
      ensures !Blocks(s', u, j)
    {
      assert !Blocks(s, u, j);
    }
  }

  lemma NobodyHolds(s: State, i: nat)
    requires forall t: Tid, k: nat | i <= k :: !Holds(s, t, k)
    ensures forall k | i <= k < |s.queue| && TestedByFlag(s.queue[k]) :: MutexFree(s, EventOf(s.queue[k]))
  {
    forall k: nat, t | i <= k < |s.queue| && TestedByFlag(s.queue[k]) && t in s.threads
      ensures !HoldsMutex(s.threads[t], EventOf(s.queue[k]))
    {
      assert !Holds(s, t, k);
    }
  }

  /** Other threads can clear the way: setters that find no association leave, and
      what is ready is reset or taken off its queue. No token is written. */
  lemma {:induction false} ClearTheWay(s: State, i: nat) returns (actions: seq<Action>, s': State)
    requires Unblocked(s, i)
    ensures Steps(s, actions, s') && forall a | a in actions :: !IsReturn(a)
    ensures s'.waiter == s.waiter && s'.pipe == s.pipe && s'.queue == s.queue && Clear(s', i)
    decreases s.threads.Keys, |s.up| + |s.content|
  {
    if t: Tid, k: nat :| i <= k && Holds(s, t, k) {
      var s1 := LeaveOne(s, i, t, k);
      assert t in s.threads && t !in s1.threads;
      var rest;
      rest, s' := ClearTheWay(s1, i);
      Prepend(s, Env(GetWaitSet(t)), rest, s');
      actions := [Env(GetWaitSet(t))] + rest;
    } else {
      NobodyHolds(s, i);
      if k: nat :| i <= k < |s.queue| && Ready(s, s.queue[k]) {
        assert WellFormed(s.queue[k]);
        var a, s1 := ConsumeOne(s, k);
        StaysUnblocked(s, s1, i);
        var rest;
        rest, s' := ClearTheWay(s1, i);
        Prepend(s, Env(a), rest, s');
        actions := [Env(a)] + rest;
      } else {
        actions, s' := [], s;
      }
    }
  }

  lemma TimesOutLater(s: State, before: seq<Action>, s1: State)
    requires Steps(s, before, s1) && (forall a | a in before :: !IsReturn(a)) && CanTimeOut(s1)
    ensures CanTimeOut(s)
  {
    var actions, s' :| TimesOut(s1, actions, s');
    Chain(s, before, s1, actions, s');
    assert TimesOut(s, before + actions, s');
  }

  lemma ScanningTimesOut(s: State)
    requires Inv(s) && s.waiter.Scanning? && s.pipe == [] && !SureToWake(s)
    ensures CanTimeOut(s)
  {
    assert Unblocked(s, s.waiter.i);
    var before, s1 := ClearTheWay(s, s.waiter.i);
    ClearScanTimesOut(s1);
    TimesOutLater(s, before, s1);
  }

  lemma ClearScanTimesOut(s: State)
    requires s.waiter.Scanning? && s.waiter.i <= |s.queue| && Clear(s, s.waiter.i) && s.pipe == []
    ensures CanTimeOut(s)
  {
    var actions, s' := ScanThrough(s);
    assert TimesOut(s, actions, s');
  }

  /** A call that has not purged yet can have the calls in progress finish, purge
      whatever they wrote, and then find nothing. */
  lemma PurgingTimesOut(s: State)
    requires Reachable(s) && s.waiter.Purging?
    ensures CanTimeOut(s)
  {
    var calls, s1 := Quiesces(s);
    ReachableSteps(s, calls, s1);
    ReachableInv(s1);
    ClearedPurgeTimesOut(s1);
    TimesOutLater(s, calls, s1);
  }

  lemma ClearedPurgeTimesOut(s: State)
    requires Inv(s) && s.waiter.Purging? && s.threads == map[]
    ensures CanTimeOut(s)
  {
    var before, s1 := ClearTheWay(s, 0);
    var purge, s2 := SoloPurge(s1);
    ClearScanTimesOut(s2);
    TimesOutLater(s1, purge, s2);
    TimesOutLater(s, before, s1);
  }

  /** In every reachable state a timeout can be reached within the call, by some run
      of all threads, exactly when the call is not sure to wake. */
  lemma TimesOutExactlyUnlessSure(s: State)
    requires Reachable(s)
    ensures CanTimeOut(s) <==> !SureToWake(s)
  {
    ReachableInv(s);
    if SureToWake(s) {
      if CanTimeOut(s) {
        var actions, s' :| TimesOut(s, actions, s');
        SureUntilReturn(s, actions, s');
      }
    } else {
      match s.waiter {
        case Idle =>
          var a := Own(Start);
          var s1 := Apply(s, a);
          ReachableStep(s, a);
          PurgingTimesOut(s1);
          Prepend(s, a, [], s1);
          TimesOutLater(s, [a] + [], s1);
        case Purging => PurgingTimesOut(s);
        case Scanning(_, _) => ScanningTimesOut(s);
        case Polling(_, _) => assert TimesOut(s, [], s);
        case _ =>
      }
    }
  }

  // ---------- Wake and delete ----------

  /** A wake run on its own, from any reachable state. */
  lemma WakeProtectsPastThePurge(s: State, t: Tid)
    requires Reachable(s) && t !in s.threads
    ensures EnvEnabled(s, Wake(t)) && EnvEnabled(EnvApply(s, Wake(t)), Write(t))
    ensures
      var woken := EnvApply(EnvApply(s, Wake(t)), Write(t));
      woken.pipe == Push(s.capacity, s.pipe, Null) && (CanTimeOut(woken) <==> !PastPurge(s))
  {
    var s1 := EnvApply(s, Wake(t));
    ReachableInv(s);
    ReachableStep(s, Env(Wake(t)));
    ReachableStep(s1, Env(Write(t)));
    TimesOutExactlyUnlessSure(EnvApply(s1, Write(t)));
  }

  /** ofc_thread_delete_impl run on its own: mark, look at wait_set, wake if there is
      one. */
  ghost predicate Deleted(s: State, t: Tid, s': State) {
    Steps(s, [Env(Delete(t))] + ([Env(CheckWaitSet(t))] + if s.recorded then [Env(Write(t))] else []), s')
  }

  lemma DeleteRuns(s: State, t: Tid) returns (s': State)
    requires Reachable(s) && t !in s.threads
    ensures Deleted(s, t, s') && Reachable(s')
    ensures s' == s.(deleting := true, pipe := if s.recorded && |s.pipe| < s.capacity then s.pipe + [Null] else s.pipe)
  {
    var s1 := EnvApply(s, Delete(t));
    var s2 := EnvApply(s1, CheckWaitSet(t));
    var last := if s.recorded then [Env(Write(t))] else [];
    if s.recorded {
      s' := EnvApply(s2, Write(t));
      Prepend(s2, Env(Write(t)), [], s');
    } else {
      s' := s2;
    }
    assert s'.threads == s.threads;
    Prepend(s1, Env(CheckWaitSet(t)), last, s');
    Prepend(s, Env(Delete(t)), [Env(CheckWaitSet(t))] + last, s');
    ReachableSteps(s, [Env(Delete(t))] + ([Env(CheckWaitSet(t))] + last), s');
  }

  /** From any reachable state: with the wait set recorded, a delete protects the wait
      exactly past the purge; without, it protects nothing that was not already
      sure to wake. */
  lemma DeleteProtectsExactly(s: State, t: Tid) returns (s': State)
    requires Reachable(s) && t !in s.threads
    ensures Deleted(s, t, s') && s'.deleting
    ensures CanTimeOut(s') <==> if s.recorded then !PastPurge(s) else !SureToWake(s)
  {
    ReachableInv(s);
    s' := DeleteRuns(s, t);
    TimesOutExactlyUnlessSure(s');
    SureAlike(s, s.(deleting := true));
  }

  lemma SureAlike(s: State, s': State)
    requires s' == s.(deleting := true)
    ensures SureToWake(s) <==> SureToWake(s')
  {
    forall t: Tid, k: nat
      ensures Blocks(s, t, k) <==> Blocks(s', t, k)
    {
    }
  }
}
