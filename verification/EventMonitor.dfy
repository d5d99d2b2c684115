/** One event of src/event_darwin.c: a flag under a mutex with a condition
    variable. First the object with its critical sections, then the monitor as a
    transition system over single statements and any number of threads. */
module EventMonitor {
  import opened Handles

  type Tid = nat

  /** What matters of an event while nobody holds its mutex. */
  datatype EventView = EventView(auto: bool, signalled: bool, parked: set<Tid>)

  function AfterSet(v: EventView): EventView {
    v.(signalled := true, parked := {})
  }

  function AfterReset(v: EventView): EventView {
    v.(signalled := false)
  }

  /** A wait up to its first release of the mutex: it parks, or takes the flag. */
  function AfterWaitBegin(v: EventView, t: Tid): EventView {
    if v.signalled then v.(signalled := !v.auto) else v.(parked := v.parked + {t})
  }

  /** The rest of a wait that parked: the flag is not looked at a second time. */
  function AfterWaitEnd(v: EventView): EventView {
    v.(signalled := v.signalled && !v.auto)
  }

  /** DARWIN_EVENT. A thread in `parked` is inside pthread_cond_wait. Every method is
      what happens between one acquisition of the mutex and its release. */
  class DarwinEvent {
    const auto: bool
    var signalled: bool
    var parked: set<Tid>

    function Shown(): EventView
      reads this
    {
      EventView(auto, signalled, parked)
    }

    ghost predicate Valid()
      reads this
    {
      signalled ==> parked == {}
    }

    constructor (auto: bool)
      ensures Valid() && Shown() == EventView(auto, false, {})
    {
      this.auto := auto;
      signalled := false;
      parked := {};
    }

    /** The mutex section of ofc_event_set_impl, up to the wait-set signal. */
    method Set()
      modifies this
      ensures Valid() && Shown() == AfterSet(old(Shown()))
      ensures signalled && parked == {}
    {
      signalled := true;
      parked := {};
    }

    method Reset()
      requires Valid()
      modifies this
      ensures Valid() && Shown() == AfterReset(old(Shown()))
      ensures !signalled && parked == old(parked)
    {
      signalled := false;
    }

    method Test() returns (up: bool)
      ensures up == Shown().signalled
    {
      up := signalled;
    }

    method WaitBegin(t: Tid) returns (blocked: bool)
      requires Valid() && t !in parked
      modifies this
      ensures Valid() && blocked == !old(signalled)
      ensures Shown() == AfterWaitBegin(old(Shown()), t)
      ensures signalled == (old(signalled) && !auto)
      ensures parked == if old(signalled) then old(parked) else old(parked) + {t}
    {
      blocked := !signalled;
      if blocked {
        parked := parked + {t};
      } else if auto {
        signalled := false;
      }
    }

    method WaitEnd(t: Tid)
      requires Valid() && t !in parked
      modifies this
      ensures Valid() && Shown() == AfterWaitEnd(old(Shown()))
      ensures signalled == (old(signalled) && !auto) && parked == old(parked)
    {
      if auto {
        signalled := false;
      }
    }
  }

  // ---------- The monitor, statement by statement ----------

  datatype Op = SetOp | ResetOp | TestOp | WaitOp

  /** Where a thread stands inside a call; outside the calls it has no entry. */
  datatype Pc =
    | Entered(op: Op)         // mutex just acquired
    | Raised                  // set: flag up, broadcast due
    | Parked                  // wait: inside pthread_cond_wait, mutex released
    | Woken                   // wait: must acquire the mutex again
    | Past                    // wait: past the if, mutex held
    | Leaving                 // mutex held, release due

  datatype Monitor = Monitor(auto: bool, signalled: bool, owner: Option<Tid>, pc: map<Tid, Pc>)

  datatype Action =
    | Enter(t: Tid, op: Op)
    | Advance(t: Tid)
    | Reacquire(t: Tid)
    | Spurious(t: Tid)

  predicate Holds(pc: Pc) {
    !pc.Parked? && !pc.Woken?
  }

  predicate Enabled(m: Monitor, a: Action) {
    match a
    case Enter(t, _) => t !in m.pc && m.owner == None
    case Advance(t) => m.owner == Some(t) && t in m.pc && Holds(m.pc[t])
    case Reacquire(t) => t in m.pc && m.pc[t] == Woken && m.owner == None
    case Spurious(t) => t in m.pc && m.pc[t] == Parked
  }

  function WakeAll(pc: map<Tid, Pc>): map<Tid, Pc> {
    map t | t in pc :: if pc[t] == Parked then Woken else pc[t]
  }

  function Apply(m: Monitor, a: Action): Monitor
    requires Enabled(m, a)
  {
    match a
    case Enter(t, op) => m.(owner := Some(t), pc := m.pc[t := Entered(op)])
    case Reacquire(t) => m.(owner := Some(t), pc := m.pc[t := Past])
    case Spurious(t) => m.(pc := m.pc[t := Woken])
    case Advance(t) =>
      match m.pc[t]
      case Entered(SetOp) => m.(signalled := true, pc := m.pc[t := Raised])
      case Raised => m.(pc := WakeAll(m.pc)[t := Leaving])
      case Entered(ResetOp) => m.(signalled := false, pc := m.pc[t := Leaving])
      case Entered(TestOp) => m.(pc := m.pc[t := Leaving])
      case Entered(WaitOp) =>
        if m.signalled then m.(pc := m.pc[t := Past])
        else m.(owner := None, pc := m.pc[t := Parked])
      case Past => m.(signalled := m.signalled && !m.auto, pc := m.pc[t := Leaving])
      case Leaving => m.(owner := None, pc := m.pc - {t})
      case Parked => m
      case Woken => m
  }

  ghost predicate Steps(m: Monitor, actions: seq<Action>, m': Monitor)
    decreases |actions|
  {
    if actions == [] then m' == m
    else Enabled(m, actions[0]) && Steps(Apply(m, actions[0]), actions[1..], m')
  }

  predicate Init(m: Monitor) {
    m.owner == None && m.pc == map[]
  }

  /** The mutex excludes, and a raised flag has a parked thread only between the two
      statements of set. */
  ghost predicate Inv(m: Monitor) {
    && (forall t | t in m.pc :: Holds(m.pc[t]) <==> m.owner == Some(t))
    && (m.owner.Some? ==> m.owner.value in m.pc)
    && (m.signalled && (exists t :: t in m.pc && m.pc[t] == Parked)
        ==> m.owner.Some? && m.pc[m.owner.value] == Raised)
  }

  lemma StepKeepsInv(m: Monitor, a: Action)
    requires Inv(m) && Enabled(m, a)
    ensures Inv(Apply(m, a))
  {
    var m' := Apply(m, a);
    if m'.signalled && exists t :: t in m'.pc && m'.pc[t] == Parked {
      var t :| t in m'.pc && m'.pc[t] == Parked;
      if t in m.pc && m.pc[t] == Parked && m.signalled {
        assert m.owner.Some? && m.pc[m.owner.value] == Raised;
      }
    }
  }

  lemma {:induction false} StepsKeepInv(m: Monitor, actions: seq<Action>, m': Monitor)
    requires Inv(m) && Steps(m, actions, m')
    ensures Inv(m')
    decreases |actions|
  {
    if actions != [] {
      StepKeepsInv(m, actions[0]);
      StepsKeepInv(Apply(m, actions[0]), actions[1..], m');
    }
  }

  /** In every run of any number of threads, with or without spurious wake-ups:
      whenever the mutex is free, nobody is parked on a signalled event. */
  lemma NobodyParkedOnSignalled(m0: Monitor, actions: seq<Action>, m: Monitor)
    requires Init(m0) && Steps(m0, actions, m)
    requires m.owner == None && m.signalled
    ensures forall t | t in m.pc :: m.pc[t] != Parked
  {
    StepsKeepInv(m0, actions, m);
  }

  // ---------- What a return from wait is worth ----------

  /** Neither the start of another set nor a spurious wake-up. */
  predicate Calm(a: Action) {
    !a.Spurious? && !(a.Enter? && a.op == SetOp)
  }

  ghost predicate Quiet(m: Monitor) {
    && !m.signalled
    && forall t | t in m.pc ::
      m.pc[t] != Woken && m.pc[t] != Past && m.pc[t] != Raised && m.pc[t] != Entered(SetOp)
  }

  /** Starting with the flag down, no wait gets past its test unless somebody sets
      the event or a wake-up is spurious. */
  lemma {:induction false} NoReturnUnprompted(m: Monitor, actions: seq<Action>, m': Monitor)
    requires Quiet(m) && Steps(m, actions, m')
    requires forall a | a in actions :: Calm(a)
    ensures Quiet(m')
    decreases |actions|
  {
    if actions != [] {
      assert actions[0] in actions;
      NoReturnUnprompted(Apply(m, actions[0]), actions[1..], m');
    }
  }

  /** Waits that get past the condition variable and leave, along a run. */
  ghost function Returns(m: Monitor, actions: seq<Action>): nat
    decreases |actions|
  {
    if actions == [] || !Enabled(m, actions[0]) then 0
    else
      (if actions[0].Advance? && m.pc[actions[0].t] == Past then 1 else 0)
      + Returns(Apply(m, actions[0]), actions[1..])
  }

  lemma Prepend(m: Monitor, a: Action, rest: seq<Action>, m': Monitor)
    requires Enabled(m, a) && Steps(Apply(m, a), rest, m')
    ensures Steps(m, [a] + rest, m')
    ensures Returns(m, [a] + rest)
         == (if a.Advance? && m.pc[a.t] == Past then 1 else 0) + Returns(Apply(m, a), rest)
  {
    assert ([a] + rest)[1..] == rest;
  }

  lemma {:induction false} Chain(m: Monitor, a1: seq<Action>, m1: Monitor, a2: seq<Action>, m2: Monitor)
    requires Steps(m, a1, m1) && Steps(m1, a2, m2)
    ensures Steps(m, a1 + a2, m2)
    decreases |a1|
  {
    if a1 == [] {
      assert a1 + a2 == a2;
    } else {
      Chain(Apply(m, a1[0]), a1[1..], m1, a2, m2);
      assert a1 + a2 == [a1[0]] + (a1[1..] + a2);
      Prepend(m, a1[0], a1[1..] + a2, m2);
    }
  }

  // ---------- The sections of the object are runs of the monitor ----------

  /** The monitor as the object shows it. */
  function Seen(m: Monitor): EventView {
    EventView(m.auto, m.signalled, set t | t in m.pc && m.pc[t] == Parked)
  }

  /** Set: the flag goes up and every parked thread, not just one, is released,
      whatever the type of the event. */
  lemma SetSection(m: Monitor, t: Tid) returns (m': Monitor)
    requires Inv(m) && m.owner == None && t !in m.pc
    ensures Steps(m, [Enter(t, SetOp), Advance(t), Advance(t), Advance(t)], m')
    ensures Seen(m') == AfterSet(Seen(m))
    ensures m' == m.(signalled := true, pc := WakeAll(m.pc))
    ensures Returns(Apply(m, Enter(t, SetOp)), [Advance(t), Advance(t), Advance(t)]) == 0
  {
    var m1 := Apply(m, Enter(t, SetOp));
    var m2 := Apply(m1, Advance(t));
    var m3 := Apply(m2, Advance(t));
    m' := Apply(m3, Advance(t));
    assert m'.pc == WakeAll(m.pc);
    Prepend(m3, Advance(t), [], m');
    Prepend(m2, Advance(t), [Advance(t)], m');
    Prepend(m1, Advance(t), [Advance(t), Advance(t)], m');
    Prepend(m, Enter(t, SetOp), [Advance(t), Advance(t), Advance(t)], m');
  }

  lemma ResetSection(m: Monitor, t: Tid) returns (m': Monitor)
    requires m.owner == None && t !in m.pc
    ensures Steps(m, [Enter(t, ResetOp), Advance(t), Advance(t)], m')
    ensures Seen(m') == AfterReset(Seen(m)) && m' == m.(signalled := false)
  {
    var m1 := Apply(m, Enter(t, ResetOp));
    var m2 := Apply(m1, Advance(t));
    m' := Apply(m2, Advance(t));
    assert m'.pc == m.pc;
    Prepend(m2, Advance(t), [], m');
    Prepend(m1, Advance(t), [Advance(t)], m');
    Prepend(m, Enter(t, ResetOp), [Advance(t), Advance(t)], m');
  }

  /** A test reads the flag and leaves everything as it was. */
  lemma TestSection(m: Monitor, t: Tid)
    requires m.owner == None && t !in m.pc
    ensures Steps(m, [Enter(t, TestOp), Advance(t), Advance(t)], m)
  {
    var m1 := Apply(m, Enter(t, TestOp));
    var m2 := Apply(m1, Advance(t));
    assert Apply(m2, Advance(t)).pc == m.pc;
    Prepend(m2, Advance(t), [], m);
    Prepend(m1, Advance(t), [Advance(t)], m);
    Prepend(m, Enter(t, TestOp), [Advance(t), Advance(t)], m);
  }

  /** A wait that finds the flag down parks. */
  lemma ParkSection(m: Monitor, t: Tid) returns (m': Monitor)
    requires m.owner == None && t !in m.pc && !m.signalled
    ensures Steps(m, [Enter(t, WaitOp), Advance(t)], m')
    ensures Seen(m') == AfterWaitBegin(Seen(m), t) && m' == m.(pc := m.pc[t := Parked])
  {
    var m1 := Apply(m, Enter(t, WaitOp));
    m' := Apply(m1, Advance(t));
    Prepend(m1, Advance(t), [], m');
    Prepend(m, Enter(t, WaitOp), [Advance(t)], m');
  }

  /** A wait that finds the flag up returns at once, and takes an AUTO event. */
  lemma TakeSection(m: Monitor, t: Tid) returns (m': Monitor)
    requires m.owner == None && t !in m.pc && m.signalled
    ensures Steps(m, [Enter(t, WaitOp), Advance(t), Advance(t), Advance(t)], m')
    ensures Seen(m') == AfterWaitBegin(Seen(m), t) && m' == m.(signalled := !m.auto)
    ensures Returns(m, [Enter(t, WaitOp), Advance(t), Advance(t), Advance(t)]) == 1
  {
    var m1 := Apply(m, Enter(t, WaitOp));
    var m2 := Apply(m1, Advance(t));
    var m3 := Apply(m2, Advance(t));
    m' := Apply(m3, Advance(t));
    assert m'.pc == m.pc;
    Prepend(m3, Advance(t), [], m');
    Prepend(m2, Advance(t), [Advance(t)], m');
    Prepend(m1, Advance(t), [Advance(t), Advance(t)], m');
    Prepend(m, Enter(t, WaitOp), [Advance(t), Advance(t), Advance(t)], m');
  }

  /** A woken thread that finds the mutex free returns without another look at the
      flag, and leaves an AUTO event down. */
  lemma WokenSection(m: Monitor, t: Tid) returns (m': Monitor)
    requires m.owner == None && t in m.pc && m.pc[t] == Woken
    ensures Steps(m, [Reacquire(t), Advance(t), Advance(t)], m')
    ensures Seen(m') == AfterWaitEnd(Seen(m))
    ensures m' == m.(signalled := m.signalled && !m.auto, pc := m.pc - {t})
    ensures Returns(m, [Reacquire(t), Advance(t), Advance(t)]) == 1
  {
    var m1 := Apply(m, Reacquire(t));
    var m2 := Apply(m1, Advance(t));
    m' := Apply(m2, Advance(t));
    assert m'.pc == m.pc - {t};
    Prepend(m2, Advance(t), [], m');
    Prepend(m1, Advance(t), [Advance(t)], m');
    Prepend(m, Reacquire(t), [Advance(t), Advance(t)], m');
  }

  /** A spurious wake-up does let a wait return with no set at all, because the wait
      sits under an if: from any state with the flag down and the mutex free. */
  lemma SpuriousReturn(m: Monitor, t: Tid)
    requires m.owner == None && t !in m.pc && !m.signalled
    ensures Steps(m, [Enter(t, WaitOp), Advance(t)] + ([Spurious(t)] + [Reacquire(t), Advance(t), Advance(t)]), m)
  {
    var m1 := ParkSection(m, t);
    var m2 := Apply(m1, Spurious(t));
    var m3 := WokenSection(m2, t);
    assert m3 == m;
    Prepend(m1, Spurious(t), [Reacquire(t), Advance(t), Advance(t)], m3);
    Chain(m, [Enter(t, WaitOp), Advance(t)], m1, [Spurious(t)] + [Reacquire(t), Advance(t), Advance(t)], m);
  }

  // ---------- How many waits one set lets return ----------

  lemma {:induction false} ReturnsChain(m: Monitor, a1: seq<Action>, m1: Monitor, a2: seq<Action>)
    requires Steps(m, a1, m1)
    ensures Returns(m, a1 + a2) == Returns(m, a1) + Returns(m1, a2)
    decreases |a1|
  {
    if a1 == [] {
      assert a1 + a2 == a2;
    } else {
      ReturnsChain(Apply(m, a1[0]), a1[1..], m1, a2);
      assert (a1 + a2)[1..] == a1[1..] + a2;
    }
  }

  predicate Setting(pc: Pc) {
    pc == Entered(SetOp) || pc == Raised
  }

  /** Nobody has been woken, and nobody is parked where a set in progress could wake
      them. */
  ghost predicate NobodyToWake(m: Monitor) {
    && (forall t | t in m.pc :: m.pc[t] != Woken)
    && (m.owner.Some? && m.owner.value in m.pc && Setting(m.pc[m.owner.value])
        ==> forall t | t in m.pc :: m.pc[t] != Parked)
  }

  /** Waits the flag can still let return: one while it is up, going up, or seen up. */
  function Allowance(m: Monitor): nat {
    if m.signalled || (m.owner.Some? && m.owner.value in m.pc
                       && (Setting(m.pc[m.owner.value]) || m.pc[m.owner.value] == Past))
    then 1 else 0
  }

  lemma AllowanceStep(m: Monitor, a: Action)
    requires Inv(m) && m.auto && NobodyToWake(m) && Enabled(m, a) && Calm(a)
    ensures Apply(m, a).auto && NobodyToWake(Apply(m, a))
    ensures (if a.Advance? && m.pc[a.t] == Past then 1 else 0) + Allowance(Apply(m, a)) <= Allowance(m)
  {
  }

  lemma {:induction false} AtMostAllowance(m: Monitor, actions: seq<Action>, m': Monitor)
    requires Inv(m) && m.auto && NobodyToWake(m) && Steps(m, actions, m')
    requires forall a | a in actions :: Calm(a)
    ensures Returns(m, actions) + Allowance(m') <= Allowance(m)
    decreases |actions|
  {
    if actions != [] {
      assert actions[0] in actions;
      StepKeepsInv(m, actions[0]);
      AllowanceStep(m, actions[0]);
      AtMostAllowance(Apply(m, actions[0]), actions[1..], m');
    }
  }

  /** In every run that starts with a set by s and has no other set and no spurious
      wake-up, at most one wait returns. */
  ghost predicate ReleasesAtMostOne(m: Monitor, s: Tid)
    requires Enabled(m, Enter(s, SetOp))
  {
    forall actions, m' ::
      Steps(Apply(m, Enter(s, SetOp)), actions, m') && (forall a | a in actions :: Calm(a))
      ==> Returns(Apply(m, Enter(s, SetOp)), actions) <= 1
  }

  /** A single waiting thread is enough: once it is woken, a newcomer takes the flag,
      and it returns all the same. */
  lemma NewcomerAndWoken(m: Monitor, s: Tid, t: Tid) returns (actions: seq<Action>, m': Monitor)
    requires Inv(m) && m.owner == None && s !in m.pc
    requires t in m.pc && (m.pc[t] == Parked || m.pc[t] == Woken)
    ensures Steps(Apply(m, Enter(s, SetOp)), actions, m') && forall a | a in actions :: Calm(a)
    ensures Returns(Apply(m, Enter(s, SetOp)), actions) == 2
  {
    var m0 := Apply(m, Enter(s, SetOp));
    var a1 := [Advance(s), Advance(s), Advance(s)];
    var a2 := [Enter(s, WaitOp), Advance(s), Advance(s), Advance(s)];
    var a3 := [Reacquire(t), Advance(t), Advance(t)];
    var m1 := SetSection(m, s);
    assert [Enter(s, SetOp), Advance(s), Advance(s), Advance(s)][1..] == a1;
    assert Steps(m0, a1, m1);
    assert m1.pc[t] == Woken;
    var m2 := TakeSection(m1, s);
    m' := WokenSection(m2, t);
    Chain(m1, a2, m2, a3, m');
    Chain(m0, a1, m1, a2 + a3, m');
    ReturnsChain(m1, a2, m2, a3);
    ReturnsChain(m0, a1, m1, a2 + a3);
    actions := a1 + (a2 + a3);
  }

  /** In particular one set of an AUTO event lets two parked threads return, with
      nothing else entering the monitor. */
  lemma OneSetTwoReturns(m: Monitor, s: Tid, t: Tid, u: Tid) returns (actions: seq<Action>, m': Monitor)
    requires Inv(m) && m.owner == None && m.auto && t != u && s !in m.pc
    requires t in m.pc && u in m.pc && m.pc[t] == Parked && m.pc[u] == Parked
    ensures Steps(Apply(m, Enter(s, SetOp)), actions, m')
    ensures forall a | a in actions :: !a.Spurious? && !a.Enter?
    ensures t !in m'.pc && u !in m'.pc && !m'.signalled
  {
    var a1 := [Advance(s), Advance(s), Advance(s)];
    var a2, a3 := [Reacquire(t), Advance(t), Advance(t)], [Reacquire(u), Advance(u), Advance(u)];
    var m1 := SetSection(m, s);
    assert [Enter(s, SetOp), Advance(s), Advance(s), Advance(s)][1..] == a1;
    var m2 := WokenSection(m1, t);
    m' := WokenSection(m2, u);
    Chain(m1, a2, m2, a3, m');
    Chain(Apply(m, Enter(s, SetOp)), a1, m1, a2 + a3, m');
    actions := a1 + (a2 + a3);
  }

  /** A set of an AUTO event lets at most one wait return exactly when nobody is
      inside a wait, parked or woken, as the set begins. */
  lemma ReleasesAtMostOneIff(m: Monitor, s: Tid)
    requires Inv(m) && m.auto && m.owner == None && s !in m.pc
    ensures ReleasesAtMostOne(m, s) <==> forall t | t in m.pc :: m.pc[t] != Parked && m.pc[t] != Woken
  {
    var m0 := Apply(m, Enter(s, SetOp));
    StepKeepsInv(m, Enter(s, SetOp));
    if t :| t in m.pc && (m.pc[t] == Parked || m.pc[t] == Woken) {
      var actions, m' := NewcomerAndWoken(m, s, t);
      assert Steps(m0, actions, m') && Returns(m0, actions) == 2;
    } else {
      forall actions, m' | Steps(m0, actions, m') && forall a | a in actions :: Calm(a)
        ensures Returns(m0, actions) <= 1
      {
        AtMostAllowance(m0, actions, m');
      }
    }
  }
}
