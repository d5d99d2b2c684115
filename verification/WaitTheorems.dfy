/** What every run of the wake-up protocol guarantees. */
module WaitTheorems {
  import opened Handles
  import opened WaitProtocol

  lemma Prepend(s: State, a: Action, rest: seq<Action>, s': State)
    requires Enabled(s, a) && Steps(Apply(s, a), rest, s')
    ensures Steps(s, [a] + rest, s')
  {
    assert ([a] + rest)[1..] == rest;
  }

  lemma {:induction false} Chain(s: State, a1: seq<Action>, s1: State, a2: seq<Action>, s2: State)
    requires Steps(s, a1, s1) && Steps(s1, a2, s2)
    ensures Steps(s, a1 + a2, s2)
    decreases |a1|
  {
    if a1 == [] {
      assert a1 + a2 == a2;
    } else {
      Chain(Apply(s, a1[0]), a1[1..], s1, a2, s2);
      assert (a1 + a2)[1..] == a1[1..] + a2;
    }
  }

  lemma StepKeepsInv(s: State, a: Action)
    requires Inv(s) && Enabled(s, a)
    ensures Inv(Apply(s, a))
  {
    match a {
      case Env(e) => EnvKeepsInv(s, e);
      case Own(o) => OwnKeepsInv(s, o);
    }
  }

  lemma ReachableStep(s: State, a: Action)
    requires Reachable(s) && Enabled(s, a)
    ensures Reachable(Apply(s, a))
  {
    var s0, actions :| Init(s0) && Steps(s0, actions, s);
    var s' := Apply(s, a);
    Prepend(s, a, [], s');
    Chain(s0, actions, s, [a] + [], s');
  }

  lemma ReachableSteps(s: State, actions: seq<Action>, s': State)
    requires Reachable(s) && Steps(s, actions, s')
    ensures Reachable(s')
  {
    var s0, before :| Init(s0) && Steps(s0, before, s);
    Chain(s0, before, s, actions, s');
  }

  /** No run overfills the pipe. */
  lemma {:induction false} PipeStaysBounded(s: State, actions: seq<Action>, s': State)
    requires |s.pipe| <= s.capacity && Steps(s, actions, s')
    ensures s'.capacity == s.capacity && |s'.pipe| <= s'.capacity
    decreases |actions|
  {
    if actions != [] {
      match actions[0] {
        case Env(a) => EnvKeepsTokens(s, a);
        case Own(o) => OwnFrame(s, o);
      }
      PipeStaysBounded(Apply(s, actions[0]), actions[1..], s');
    }
  }

  // ---------- No lost wake-up ----------

  /** From the test that found a handle not ready to the first read of PollEvent: if
      the handle has become ready since and nobody is still announcing it, its
      token is in the pipe or the pipe is full, and poll cannot time out. */
  lemma NoLostWakeup(s: State, k: nat)
    requires Reachable(s) && k < |s.queue| && Passed(s.waiter, k)
    requires Ready(s, s.queue[k]) && !InFlight(s, s.queue[k])
    ensures Carried(s, s.queue[k]) && s.pipe != []
    ensures forall h :: !Enabled(s, Own(PollTimeout(h))) && !Enabled(s, Own(PollSocket(h)))
  {
    ReachableInv(s);
    assert Announced(s, s.queue[k]);
  }

  // ---------- Threads in flight always arrive ----------

  ghost predicate Finished(s: State, t: Tid, actions: seq<Action>, s': State) {
    && Steps(s, actions, s') && Inv(s') && (forall a | a in actions :: a.Env?)
    && s'.threads == s.threads - {t}
    && s.pipe <= s'.pipe && s.up <= s'.up && s.content == s'.content
    && s'.waiter == s.waiter && s'.queue == s.queue
  }

  lemma WriteOut(s: State, t: Tid) returns (actions: seq<Action>, s': State)
    requires Inv(s) && EnvEnabled(s, Write(t))
    ensures Finished(s, t, actions, s')
  {
    s' := EnvApply(s, Write(t));
    actions := [Env(Write(t))];
    EnvKeepsInv(s, Write(t));
    assert actions[1..] == [];
  }

  lemma FinishHolder(s: State, t: Tid) returns (actions: seq<Action>, s': State)
    requires Inv(s) && t in s.threads && (s.threads[t].Flagged? || s.threads[t].Writing?)
    ensures Finished(s, t, actions, s')
  {
    if s.threads[t].Writing? {
      actions, s' := WriteOut(s, t);
    } else {
      var s1 := EnvApply(s, GetWaitSet(t));
      EnvKeepsInv(s, GetWaitSet(t));
      actions := [Env(GetWaitSet(t))];
      if t in s1.threads {
        var rest, s2 := WriteOut(s1, t);
        assert (actions + rest)[1..] == rest;
        actions, s' := actions + rest, s2;
        assert s1.threads - {t} == s.threads - {t};
      } else {
        s' := s1;
        assert actions[1..] == [];
      }
    }
  }

  lemma FinishAssociated(s: State, t: Tid) returns (actions: seq<Action>, s': State)
    requires Inv(s) && EnvEnabled(s, TestAdded(t))
    ensures Finished(s, t, actions, s')
  {
    var s1 := EnvApply(s, TestAdded(t));
    EnvKeepsInv(s, TestAdded(t));
    actions := [Env(TestAdded(t))];
    if t in s1.threads {
      var rest, s2 := WriteOut(s1, t);
      assert (actions + rest)[1..] == rest;
      actions, s' := actions + rest, s2;
      assert s1.threads - {t} == s.threads - {t};
    } else {
      s' := s1;
      assert actions[1..] == [];
    }
  }

  lemma FinishQueued(s: State, t: Tid) returns (actions: seq<Action>, s': State)
    requires Inv(s) && t in s.threads && s.threads[t].Enqueued?
    requires MutexFree(s, EventOf(s.threads[t].q))
    ensures Finished(s, t, actions, s')
  {
    var a := SetQueued(t, EventOf(s.threads[t].q));
    var s1 := EnvApply(s, a);
    EnvKeepsInv(s, a);
    var rest, s2 := FinishHolder(s1, t);
    assert ([Env(a)] + rest)[1..] == rest;
    actions, s' := [Env(a)] + rest, s2;
    assert s1.threads - {t} == s.threads - {t};
  }

  lemma FinishAdding(s: State, t: Tid) returns (actions: seq<Action>, s': State)
    requires Inv(s) && t in s.threads && s.threads[t].Adding?
    requires forall e :: MutexFree(s, e)
    ensures Finished(s, t, actions, s')
  {
    var s1 := EnvApply(s, Associate(t));
    EnvKeepsInv(s, Associate(t));
    actions := [Env(Associate(t))];
    if t in s1.threads {
      assert MutexFree(s, EventOf(s.threads[t].h));
      var rest, s2 := FinishAssociated(s1, t);
      assert (actions + rest)[1..] == rest;
      actions, s' := actions + rest, s2;
      assert s1.threads - {t} == s.threads - {t};
    } else {
      s' := s1;
      assert actions[1..] == [];
    }
  }

  lemma FinishMarked(s: State, t: Tid) returns (actions: seq<Action>, s': State)
    requires Inv(s) && t in s.threads && s.threads[t] == Marked
    ensures Finished(s, t, actions, s')
  {
    var s1 := EnvApply(s, CheckWaitSet(t));
    EnvKeepsInv(s, CheckWaitSet(t));
    actions := [Env(CheckWaitSet(t))];
    if t in s1.threads {
      var rest, s2 := WriteOut(s1, t);
      assert (actions + rest)[1..] == rest;
      actions, s' := actions + rest, s2;
      assert s1.threads - {t} == s.threads - {t};
    } else {
      s' := s1;
      assert actions[1..] == [];
    }
  }

  /** No deadlock among the other threads: some thread can finish its call by its
      own steps, taking nothing from the pipe and lowering no flag. */
  lemma FinishOne(s: State) returns (t: Tid, actions: seq<Action>, s': State)
    requires s.threads != map[] && Inv(s)
    ensures t in s.threads && Finished(s, t, actions, s')
  {
    if holder :| holder in s.threads && (s.threads[holder].Flagged? || s.threads[holder].Writing?) {
      t := holder;
      actions, s' := FinishHolder(s, t);
    } else {
      assert forall e :: MutexFree(s, e);
      t :| t in s.threads;
      match s.threads[t] {
        case Enqueued(_) => actions, s' := FinishQueued(s, t);
        case Adding(_) => actions, s' := FinishAdding(s, t);
        case Associated(_) => actions, s' := FinishAssociated(s, t);
        case Marked => actions, s' := FinishMarked(s, t);
        case _ => actions, s' := WriteOut(s, t);
      }
    }
  }

  /** From every reachable state the calls in progress can all run to completion; a
      handle that was ready when the waiter had passed it is then announced. */
  lemma {:induction false} Quiesces(s: State) returns (actions: seq<Action>, s': State)
    requires Reachable(s)
    ensures Steps(s, actions, s') && s'.threads == map[] && s'.waiter == s.waiter
    ensures forall a | a in actions :: a.Env?
    ensures forall k | 0 <= k < |s.queue| && Passed(s.waiter, k) && Ready(s, s.queue[k]) ::
      Carried(s', s.queue[k]) && s'.pipe != []
    decreases s.threads.Keys
  {
    ReachableInv(s);
    if s.threads == map[] {
      actions, s' := [], s;
      forall k | 0 <= k < |s.queue| && Passed(s.waiter, k) && Ready(s, s.queue[k])
        ensures Carried(s, s.queue[k])
      {
        assert Announced(s, s.queue[k]);
      }
    } else {
      var t, first, s1 := FinishOne(s);
      assert t !in s1.threads;
      ReachableSteps(s, first, s1);
      var rest, s2 := Quiesces(s1);
      Chain(s, first, s1, rest, s2);
      actions, s' := first + rest, s2;
      forall k | 0 <= k < |s.queue| && Passed(s.waiter, k) && Ready(s, s.queue[k])
        ensures Ready(s1, s1.queue[k]) && s1.queue[k] == s.queue[k]
      {
      }
    }
  }

  // ---------- Registration ----------

  /** A handle added while the waiter is inside poll, so absent from its scan: once
      the add and every racing set are over and nothing consumed the readiness,
      the event's token is in the pipe or the pipe is full, and poll returns. */
  lemma RegistrationRaceClosed(s: State, t: Tid, h: Handle, actions: seq<Action>, s': State)
    requires Reachable(s) && s.waiter.Polling?
    requires Enabled(s, Env(Add(t, h))) && Steps(Apply(s, Env(Add(t, h))), actions, s')
    requires forall a | a in actions :: a.Env?
    requires Ready(s', h) && !InFlight(s', h)
    ensures s'.waiter == s.waiter && Carried(s', h) && s'.pipe != []
    ensures forall r :: !Enabled(s', Own(PollTimeout(r)))
  {
    var s1 := Apply(s, Env(Add(t, h)));
    ReachableStep(s, Env(Add(t, h)));
    ReachableSteps(s1, actions, s');
    EnvQueue(s, Add(t, h));
    assert s1.queue[|s.queue|] == h;
    EnvOnly(s1, actions, s');
    assert s'.queue[|s.queue|] == h;
    NoLostWakeup(s', |s.queue|);
  }

  lemma {:induction false} EnvOnly(s: State, actions: seq<Action>, s': State)
    requires Steps(s, actions, s') && forall a | a in actions :: a.Env?
    ensures s'.waiter == s.waiter && s.pipe <= s'.pipe && s.queue <= s'.queue
    decreases |actions|
  {
    if actions != [] {
      EnvKeepsTokens(s, actions[0].env);
      EnvQueue(s, actions[0].env);
      EnvOnly(Apply(s, actions[0]), actions[1..], s');
    }
  }

  // ---------- Wake and delete ----------

  /** Past the purge and unable to sleep before this call returns. */
  predicate Awake(s: State) {
    match s.waiter
    case Idle => false
    case Purging => false
    case Scanning(_, _) => s.pipe != []
    case Polling(_, _) => s.pipe != []
    case _ => true
  }

  predicate PastPurge(s: State) {
    !s.waiter.Idle? && !s.waiter.Purging?
  }

  predicate IsReturn(a: Action) {
    a.Own? && a.own.Return?
  }

  predicate IsTimeout(a: Action) {
    a.Own? && a.own.PollTimeout?
  }

  lemma AwakeStep(s: State, a: Action)
    requires Awake(s) && Enabled(s, a) && !IsReturn(a)
    ensures Awake(Apply(s, a)) && !IsTimeout(a)
  {
    if a.Env? {
      EnvKeepsTokens(s, a.env);
    }
  }

  /** Once a token is in the pipe after the purge, this call cannot time out. */
  lemma {:induction false} AwakeUntilReturn(s: State, actions: seq<Action>, s': State)
    requires Awake(s) && Steps(s, actions, s')
    requires forall a | a in actions :: !IsReturn(a)
    ensures Awake(s')
    ensures forall a | a in actions :: !IsTimeout(a)
    decreases |actions|
  {
    if actions != [] {
      AwakeStep(s, actions[0]);
      AwakeUntilReturn(Apply(s, actions[0]), actions[1..], s');
      forall a | a in actions
        ensures !IsTimeout(a)
      {
        assert a == actions[0] || a in actions[1..];
      }
    }
  }

  lemma WriteAwakes(s: State, t: Tid)
    requires s.capacity >= 1 && PastPurge(s) && EnvEnabled(s, Write(t))
    ensures Awake(EnvApply(s, Write(t)))
  {
  }

  /** A delete in progress will have woken the waiter, or has. */
  predicate Deleting(s: State, t: Tid) {
    && s.capacity >= 1 && s.deleting && s.recorded && PastPurge(s)
    && (|| Awake(s)
        || (t in s.threads && (s.threads[t] == Marked || s.threads[t] == Waking)))
  }

  predicate ActsFor(a: EnvAction, t: Tid) {
    !a.Reset? && !a.Dequeue? && !a.SetAssoc? && !a.Record? && a.t == t
  }

  lemma OthersStay(s: State, a: EnvAction, t: Tid)
    requires EnvEnabled(s, a) && t in s.threads && !ActsFor(a, t)
    ensures t in EnvApply(s, a).threads && EnvApply(s, a).threads[t] == s.threads[t]
  {
  }

  lemma DeletionKept(s: State, a: EnvAction)
    requires EnvEnabled(s, a)
    ensures s.deleting ==> EnvApply(s, a).deleting
    ensures s.recorded && a != Record(false) ==> EnvApply(s, a).recorded
  {
  }

  lemma DeletingEnvStep(s: State, t: Tid, a: EnvAction)
    requires Deleting(s, t) && EnvEnabled(s, a) && a != Record(false)
    ensures Deleting(EnvApply(s, a), t)
  {
    EnvKeepsTokens(s, a);
    DeletionKept(s, a);
    if !Awake(s) {
      if !ActsFor(a, t) {
        OthersStay(s, a, t);
      } else if a.Write? {
        WriteAwakes(s, t);
      }
    }
  }

  lemma DeletingOwnStep(s: State, t: Tid, a: WaiterAction)
    requires Deleting(s, t) && OwnEnabled(s, a) && !a.Return?
    ensures Deleting(OwnApply(s, a), t)
  {
    OwnFrame(s, a);
    if Awake(s) {
      AwakeStep(s, Own(a));
    }
  }

  lemma {:induction false} DeletingSteps(s: State, t: Tid, actions: seq<Action>, s': State)
    requires Deleting(s, t) && Steps(s, actions, s')
    requires forall a | a in actions :: !IsReturn(a) && a != Env(Record(false))
    ensures Deleting(s', t)
    decreases |actions|
  {
    if actions != [] {
      assert actions[0] in actions;
      match actions[0] {
        case Env(a) => DeletingEnvStep(s, t, a);
        case Own(o) => DeletingOwnStep(s, t, o);
      }
      DeletingSteps(Apply(s, actions[0]), t, actions[1..], s');
    }
  }

  lemma {:induction false} DeletingIsFinal(s: State, actions: seq<Action>, s': State)
    requires s.deleting && Steps(s, actions, s')
    ensures s'.deleting
    decreases |actions|
  {
    if actions != [] {
      DeletingIsFinal(Apply(s, actions[0]), actions[1..], s');
    }
  }

  /** ofc_thread_delete_impl called after the purge of the current wait, on a thread
      whose wait set stays recorded: once that call is over, the wait cannot time
      out before it returns, and the thread then finds itself being deleted. */
  lemma DeleteWakes(s: State, t: Tid, calls: seq<Action>, s1: State, rest: seq<Action>, s2: State)
    requires Reachable(s) && PastPurge(s) && s.recorded && Enabled(s, Env(Delete(t)))
    requires Steps(Apply(s, Env(Delete(t))), calls, s1) && t !in s1.threads
    requires forall a | a in calls :: !IsReturn(a) && a != Env(Record(false))
    requires Steps(s1, rest, s2)
    requires forall a | a in rest :: !IsReturn(a)
    ensures forall a | a in rest :: !IsTimeout(a)
    ensures s2.deleting && Awake(s2)
  {
    ReachableInv(s);
    var s0 := Apply(s, Env(Delete(t)));
    DeletingSteps(s0, t, calls, s1);
    AwakeUntilReturn(s1, rest, s2);
    DeletingIsFinal(s1, rest, s2);
  }

  // ---------- Nothing is lost with the tokens ----------

  /** The scan of this call stops at position k or before it. */
  predicate StopsBy(s: State, k: nat) {
    match s.waiter
    case Scanning(i, _) => i <= k < |s.queue| && Listens(s.queue[k]) && Ready(s, s.queue[k])
    case Clearing(h) => h != Null
    case Done(h) => h != Null
    case _ => false
  }

  /** Someone other than the waiter takes the readiness of h away. */
  predicate Consumes(a: Action, h: Handle) {
    a.Env? && (a.env == Reset(EventOf(h)) || a.env == Dequeue(h))
  }

  lemma StopsByStep(s: State, k: nat, a: Action)
    requires Inv(s) && StopsBy(s, k) && Enabled(s, a) && !IsReturn(a)
    requires k < |s.queue| && !Consumes(a, s.queue[k])
    ensures StopsBy(Apply(s, a), k)
    ensures s.queue <= Apply(s, a).queue
  {
    if a.Env? {
      EnvQueue(s, a.env);
      EnvKeepsTokens(s, a.env);
      if s.waiter.Scanning? {
        StaysReady(s, a.env, s.queue[k]);
      }
    } else {
      OwnFrame(s, a.own);
    }
  }

  lemma StaysReady(s: State, a: EnvAction, h: Handle)
    requires EnvEnabled(s, a) && WellFormed(h) && Ready(s, h) && !Consumes(Env(a), h)
    ensures Ready(EnvApply(s, a), h)
  {
  }

  /** However many tokens the purge discarded, a handle that is ready when the scan
      starts and that nobody else consumes ends this call: the scan never gets
      past it to poll, and the result is not null. */
  lemma {:induction false} NextScanFinds(s: State, k: nat, actions: seq<Action>, s': State)
    requires Inv(s) && StopsBy(s, k) && Steps(s, actions, s') && k < |s.queue|
    requires forall a | a in actions :: !IsReturn(a) && !Consumes(a, s.queue[k])
    ensures StopsBy(s', k) && !s'.waiter.Polling?
    decreases |actions|
  {
    if actions != [] {
      StopsByStep(s, k, actions[0]);
      match actions[0] {
        case Env(e) => EnvKeepsInv(s, e);
        case Own(o) => OwnKeepsInv(s, o);
      }
      NextScanFinds(Apply(s, actions[0]), k, actions[1..], s');
    }
  }

  // ---------- Events waited on as EVENT handles ----------

  predicate Sets(a: Action, e: Handle) {
    a.Env? && ((a.env.Set? && a.env.e == e) || (a.env.SetQueued? && a.env.e == e))
  }

  function CountSets(actions: seq<Action>, e: Handle): nat {
    if actions == [] then 0
    else (if Sets(actions[0], e) then 1 else 0) + CountSets(actions[1..], e)
  }

  /** Wait calls that returned e. */
  function CountDeliveries(actions: seq<Action>, e: Handle): nat {
    if actions == [] then 0
    else (if actions[0] == Own(Return(e)) then 1 else 0) + CountDeliveries(actions[1..], e)
  }

  /** No other handle of the set waits on e. */
  predicate OnlyAsEvent(s: State, e: Handle) {
    forall h | h in s.queue :: EventOf(h) == e ==> h == e
  }

  /** The waiter has committed to returning e. */
  predicate Committed(s: State, e: Handle) {
    match s.waiter
    case Clearing(h) => h == e
    case ClearingToken(_, h) => h == e
    case Done(h) => h == e
    case _ => false
  }

  /** Deliveries still to come from the sets so far: a raised flag is one, unless the
      waiter is about to lower it. */
  function Owed(s: State, e: Handle): nat {
    if s.waiter.Done? && s.waiter.h == e then 1 + (if e in s.up then 1 else 0)
    else if Committed(s, e) || e in s.up then 1
    else 0
  }

  lemma OwedEnvStep(s: State, a: EnvAction, e: Handle)
    requires EnvEnabled(s, a)
    ensures Owed(EnvApply(s, a), e) <= Owed(s, e) + if Sets(Env(a), e) then 1 else 0
  {
    EnvKeepsTokens(s, a);
    assert e in EnvApply(s, a).up ==> e in s.up || Sets(Env(a), e);
  }

  lemma OwedOwnStep(s: State, a: WaiterAction, e: Handle)
    requires Inv(s) && OwnEnabled(s, a) && Auto(e) && OnlyAsEvent(s, e)
    ensures Owed(OwnApply(s, a), e) + (if a == Return(e) then 1 else 0) <= Owed(s, e)
  {
  }

  lemma {:induction false} QueueGrows(s: State, actions: seq<Action>, s': State)
    requires Steps(s, actions, s')
    ensures s.queue <= s'.queue
    decreases |actions|
  {
    if actions != [] {
      match actions[0] {
        case Env(e) => EnvQueue(s, e);
        case Own(o) => OwnFrame(s, o);
      }
      QueueGrows(Apply(s, actions[0]), actions[1..], s');
    }
  }

  /** Over any run an AUTO event is delivered at most once for each set, counting a
      flag that was up when the run began. */
  lemma {:induction false} DeliveriesNeverExceedSets(s: State, actions: seq<Action>, s': State, e: Handle)
    requires Inv(s) && Steps(s, actions, s') && Auto(e) && OnlyAsEvent(s', e)
    ensures CountDeliveries(actions, e) + Owed(s', e) <= CountSets(actions, e) + Owed(s, e)
    decreases |actions|
  {
    QueueGrows(s, actions, s');
    if actions != [] {
      match actions[0] {
        case Env(a) => EnvKeepsInv(s, a); OwedEnvStep(s, a, e);
        case Own(o) => OwnKeepsInv(s, o); OwedOwnStep(s, o, e);
      }
      DeliveriesNeverExceedSets(Apply(s, actions[0]), actions[1..], s', e);
    }
  }

  // ---------- No set is forgotten ----------

  /** The waiter lowers e in this step. */
  predicate Clears(s: State, a: Action, e: Handle) {
    || (a == Own(Clear) && s.waiter.Clearing? && s.waiter.h == e)
    || (a == Own(ClearToken) && s.waiter.ClearingToken? && s.waiter.e == e)
  }

  /** Along the run the waiter lowers e, and the call that does so has returned e by
      s' or is about to. */
  ghost predicate Answered(s: State, actions: seq<Action>, s': State, e: Handle)
    requires Steps(s, actions, s')
    decreases |actions|
  {
    actions != [] &&
    ((Clears(s, actions[0], e) && (Own(Return(e)) in actions[1..] || s'.waiter == Done(e)))
     || Answered(Apply(s, actions[0]), actions[1..], s', e))
  }

  lemma UpUntilCleared(s: State, a: Action, e: Handle)
    requires Inv(s) && Enabled(s, a) && OnlyAsEvent(s, e)
    requires e in s.up && a != Env(Reset(e))
    ensures e in Apply(s, a).up || (Clears(s, a, e) && Apply(s, a).waiter == Done(e))
  {
    if a.Env? {
      UpKept(s, a.env, e);
    }
  }

  lemma UpKept(s: State, a: EnvAction, e: Handle)
    requires EnvEnabled(s, a) && e in s.up && a != Reset(e)
    ensures e in EnvApply(s, a).up
  {
  }

  lemma {:induction false} DoneUntilReturned(s: State, actions: seq<Action>, s': State, e: Handle)
    requires Steps(s, actions, s') && s.waiter == Done(e)
    ensures Own(Return(e)) in actions || s'.waiter == Done(e)
    decreases |actions|
  {
    if actions != [] && !IsReturn(actions[0]) {
      DoneStays(s, actions[0]);
      DoneUntilReturned(Apply(s, actions[0]), actions[1..], s', e);
    }
  }

  lemma {:induction false} UpIsAnswered(s: State, actions: seq<Action>, s': State, e: Handle)
    requires Inv(s) && Steps(s, actions, s') && e in s.up && OnlyAsEvent(s', e)
    requires Env(Reset(e)) !in actions
    ensures e in s'.up || Answered(s, actions, s', e)
    decreases |actions|
  {
    if actions != [] {
      var s1 := Apply(s, actions[0]);
      QueueGrows(s, actions, s');
      UpUntilCleared(s, actions[0], e);
      if e in s1.up {
        StepKeepsInv(s, actions[0]);
        UpIsAnswered(s1, actions[1..], s', e);
      } else {
        DoneUntilReturned(s1, actions[1..], s', e);
      }
    }
  }

  /** After a set, with no explicit reset, the flag is still up or the waiter has
      lowered it AFTER the set, in a call that has returned the event or is just
      about to. An older delivery under way at the time of the set does not count,
      and that test and reset are two mutex sections does not matter. */
  lemma NoSetForgotten(s: State, set': Action, actions: seq<Action>, s': State, e: Handle)
    requires Reachable(s) && Sets(set', e) && Enabled(s, set') && Steps(Apply(s, set'), actions, s')
    requires OnlyAsEvent(s', e)
    requires Env(Reset(e)) !in actions
    ensures e in s'.up || Answered(Apply(s, set'), actions, s', e)
  {
    ReachableStep(s, set');
    ReachableInv(Apply(s, set'));
    UpIsAnswered(Apply(s, set'), actions, s', e);
  }

  lemma DoneStays(s: State, a: Action)
    requires s.waiter.Done? && Enabled(s, a) && !IsReturn(a)
    ensures a.Env? && Apply(s, a).waiter == s.waiter
  {
    if a.Env? {
      EnvKeepsTokens(s, a.env);
    }
  }

  // ---------- A wait call is minimal ----------

  /** The events whose flags the waiter itself lowers along a run, in order. */
  ghost function Lowered(s: State, actions: seq<Action>, s': State): seq<Handle>
    requires Steps(s, actions, s')
    decreases |actions|
  {
    if actions == [] then []
    else
      var rest := Lowered(Apply(s, actions[0]), actions[1..], s');
      match actions[0]
      case Own(Clear) => [s.waiter.h] + rest
      case Own(ClearToken) => [s.waiter.e] + rest
      case _ => rest
  }

  /** Within one call the waiter lowers at most one flag: that of an AUTO event, on
      the way to returning a queued handle of that event. */
  lemma {:induction false} OneClearPerCall(s: State, actions: seq<Action>, s': State)
    requires Inv(s) && Steps(s, actions, s')
    requires forall a | a in actions :: !IsReturn(a)
    ensures s.waiter.Done? ==> Lowered(s, actions, s') == [] && s'.waiter == s.waiter
    ensures Lowered(s, actions, s') != [] ==>
      && s'.waiter.Done? && s'.waiter.h in s'.queue
      && Lowered(s, actions, s') == [EventOf(s'.waiter.h)]
      && EventOf(s'.waiter.h).Event? && EventOf(s'.waiter.h).auto
    decreases |actions|
  {
    if actions != [] {
      var s1 := Apply(s, actions[0]);
      if s.waiter.Done? {
        DoneStays(s, actions[0]);
      }
      match actions[0] {
        case Env(a) => EnvKeepsInv(s, a);
        case Own(o) => OwnKeepsInv(s, o);
      }
      OneClearPerCall(s1, actions[1..], s');
      QueueGrows(s1, actions[1..], s');
    }
  }

  // ---------- A wait call is sound ----------

  /** In this step the waiter observes the reason for returning h. */
  predicate Observes(s: State, a: Action, h: Handle) {
    match a
    case Own(ScanNext(due)) =>
      && s.waiter.Scanning? && s.waiter.i < |s.queue| && s.queue[s.waiter.i] == h
      && ((Listens(h) && Ready(s, h)) || (h.Timer? && due))
    case Own(TestToken) =>
      s.waiter.Testing? && s.waiter.h == h && s.waiter.e == EventOf(h) && EventOf(h) in s.up
    case Own(PollSocket(r)) => r == h && h.Socket?
    case Own(PollTimeout(r)) => r == h && h.Timer?
    case _ => false
  }

  ghost predicate Observed(s: State, actions: seq<Action>, s': State, h: Handle)
    requires Steps(s, actions, s')
    decreases |actions|
  {
    actions != [] &&
    (Observes(s, actions[0], h) || Observed(Apply(s, actions[0]), actions[1..], s', h))
  }

  lemma CommitsOnlyObserved(s: State, a: Action, h: Handle)
    requires Inv(s) && Enabled(s, a) && h != Null
    requires !Committed(s, h) && Committed(Apply(s, a), h)
    ensures Observes(s, a, h) && h in s.queue
  {
    if a.Env? {
      EnvKeepsTokens(s, a.env);
    }
  }

  /** Over every interleaving: when the waiter comes to a result that is not null, it
      has in this run seen that very handle, queued, and ready in the scan, or its
      timer due, or its event up behind a token, or reported by poll, or its timer
      left when the timeout ran out. */
  lemma {:induction false} ResultsAreObserved(s: State, actions: seq<Action>, s': State, h: Handle)
    requires Inv(s) && Steps(s, actions, s') && h != Null
    requires !Committed(s, h) && Committed(s', h)
    ensures Observed(s, actions, s', h) && h in s'.queue
    decreases |actions|
  {
    if actions != [] {
      var s1 := Apply(s, actions[0]);
      StepKeepsInv(s, actions[0]);
      if Committed(s1, h) {
        CommitsOnlyObserved(s, actions[0], h);
        QueueGrows(s, actions, s');
      } else {
        ResultsAreObserved(s1, actions[1..], s', h);
      }
    }
  }
}
