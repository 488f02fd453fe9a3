/**
The credential renewal gate: any number of request threads share one renewal through
a mutex, a condition variable, `in_flight` and a wrapping `generation`.
*/
module RenewalGate {
  import opened Outcomes
  import opened Words

  /** What reading the credential file gives; only `Renewable` errors allow a refresh. */
  datatype LoadResult = Loaded | Renewable | Fatal

  datatype Pc =
    | Start                                   // about to load
    | CheckDeadline                           // the first load failed, is there time left?
    | WantGate                                // about to lock the gate
    | Deciding                                // locked, about to look at in_flight
    | Elected                                 // locked, in_flight set, about to unlock
    | Refreshing                              // leader, about to launch the official helper
    | Polling                                 // leader, about to load again
    | PollDeadline                            // leader, that load failed
    | WantFinish(ok: bool)                    // leader, about to lock the gate
    | Finishing(ok: bool)                     // locked, about to clear in_flight
    | Announcing(ok: bool)                    // locked, in_flight cleared, about to notify all
    | Announced(ok: bool)                     // locked, about to unlock
    | Testing(joined: nat)                    // locked, about to evaluate the wait condition
    | Asleep(joined: nat)                     // waiting on the condition variable
    | Woken(joined: nat, timedOut: bool)      // about to lock the gate again
    | Reacquired(joined: nat, timedOut: bool) // locked after waiting
    | JoinLoad                                // joined renewal is over, about to load
    | Done(ok: bool)

  datatype Thread = Thread(pc: Pc, hasJoined: bool, launched: nat)

  /** `completed` and `launches` only count; the code keeps neither. */
  datatype State = State(owner: Option<nat>, inFlight: bool, generation: nat,
                         completed: nat, launches: nat, threads: seq<Thread>)

  /** Everything the environment decides about one step. */
  datatype Choice = Go | Load(result: LoadResult) | Deadline(passed: bool) | Wake(timedOut: bool)

  function Init(n: nat): State {
    State(None, false, 0, 0, 0, seq(n, i => Thread(Start, false, 0)))
  }

  function To(s: State, t: nat, pc: Pc): State
    requires t < |s.threads|
  {
    s.(threads := s.threads[t := s.threads[t].(pc := pc)])
  }

  function Locked(s: State, t: nat, pc: Pc): Option<State>
    requires t < |s.threads|
  {
    if s.owner.None? then Some(To(s, t, pc).(owner := Some(t))) else None
  }

  function Unlocked(s: State, t: nat, pc: Pc): State
    requires t < |s.threads|
  {
    To(s, t, pc).(owner := None)
  }

  /** `notify_all`: every sleeping thread is woken. */
  function NotifyAll(threads: seq<Thread>): (woken: seq<Thread>)
    ensures |woken| == |threads|
    ensures forall i :: 0 <= i < |threads| ==>
      woken[i] == if threads[i].pc.Asleep? then threads[i].(pc := Woken(threads[i].pc.joined, false)) else threads[i]
  {
    seq(|threads|, i requires 0 <= i < |threads| =>
      if threads[i].pc.Asleep? then threads[i].(pc := Woken(threads[i].pc.joined, false)) else threads[i])
  }

  /** One step of one thread; `None` when the thread cannot take it. */
  function Apply(s: State, t: nat, c: Choice): Option<State>
    requires t < |s.threads|
  {
    match (s.threads[t].pc, c)
    case (Start, Load(result)) =>
      Some(To(s, t, match result case Loaded => Done(true) case Renewable => CheckDeadline case Fatal => Done(false)))
    case (CheckDeadline, Deadline(passed)) => Some(To(s, t, if passed then Done(false) else WantGate))
    case (WantGate, Go) => Locked(s, t, Deciding)
    case (Deciding, Go) =>
      if s.inFlight
      then Some(s.(threads := s.threads[t := s.threads[t].(pc := Testing(s.generation), hasJoined := true)]))
      else Some(To(s, t, Elected).(inFlight := true))
    case (Elected, Go) => Some(Unlocked(s, t, Refreshing))
    case (Refreshing, Go) =>
      Some(s.(launches := s.launches + 1,
              threads := s.threads[t := s.threads[t].(pc := Polling, launched := s.threads[t].launched + 1)]))
    case (Polling, Load(result)) =>
      var next := match result
                  case Loaded => WantFinish(true)
                  case Renewable => PollDeadline
                  case Fatal => WantFinish(false);
      Some(To(s, t, next))
    case (PollDeadline, Deadline(passed)) => Some(To(s, t, if passed then WantFinish(false) else Polling))
    case (WantFinish(ok), Go) => Locked(s, t, Finishing(ok))
    case (Finishing(ok), Go) =>
      Some(To(s, t, Announcing(ok)).(inFlight := false, generation := (s.generation + 1) % TWO_64,
                                     completed := s.completed + 1))
    case (Announcing(ok), Go) =>
      Some(s.(threads := NotifyAll(s.threads)[t := s.threads[t].(pc := Announced(ok))]))
    case (Announced(ok), Go) => Some(Unlocked(s, t, Done(ok)))
    case (Testing(g), Deadline(passed)) =>
      if s.inFlight && s.generation == g then Some(Unlocked(s, t, if passed then Done(false) else Asleep(g)))
      else None
    case (Testing(g), Go) =>
      if s.inFlight && s.generation == g then None else Some(Unlocked(s, t, JoinLoad))
    case (Asleep(g), Wake(timedOut)) => Some(To(s, t, Woken(g, timedOut)))
    case (Woken(g, timedOut), Go) => Locked(s, t, Reacquired(g, timedOut))
    case (Reacquired(g, timedOut), Go) =>
      Some(if timedOut then Unlocked(s, t, Done(false)) else To(s, t, Testing(g)))
    case (JoinLoad, Load(result)) => Some(To(s, t, Done(result.Loaded?)))
    case _ => None
  }

  ghost predicate Step(s: State, s': State) {
    exists t: nat, c :: t < |s.threads| && Apply(s, t, c) == Some(s')
  }

  ghost predicate Run(states: seq<State>, n: nat) {
    && states != [] && states[0] == Init(n)
    && forall i :: 0 <= i < |states| - 1 ==> Step(states[i], states[i + 1])
  }

  // ---------------------------------------------------------------------
  // What every step keeps
  // ---------------------------------------------------------------------

  predicate HoldsLock(pc: Pc) {
    pc.Deciding? || pc.Elected? || pc.Finishing? || pc.Announcing? || pc.Announced? || pc.Testing? || pc.Reacquired?
  }

  /** From winning the election until `in_flight` is cleared. */
  predicate Leads(pc: Pc) {
    pc.Elected? || pc.Refreshing? || Renewing(pc)
  }

  /** The helper was launched and its generation is not completed yet. */
  predicate Renewing(pc: Pc) {
    pc.Polling? || pc.PollDeadline? || pc.WantFinish? || pc.Finishing?
  }

  predicate FollowerOnly(pc: Pc) {
    pc.Testing? || pc.Asleep? || pc.Woken? || pc.Reacquired? || pc.JoinLoad?
  }

  /** A thread's own history. */
  ghost predicate ThreadOk(th: Thread) {
    && (FollowerOnly(th.pc) ==> th.hasJoined)
    && (th.hasJoined ==> th.launched == 0 && (FollowerOnly(th.pc) || th.pc.Done?))
    && th.launched <= 1
    && (th.launched == 1 ==> Renewing(th.pc) || th.pc.Announcing? || th.pc.Announced? || th.pc.Done?)
    && (Renewing(th.pc) ==> th.launched == 1)
  }

  ghost predicate Leader(s: State, t: nat) {
    t < |s.threads| && Leads(s.threads[t].pc)
  }

  ghost predicate MutexInv(s: State) {
    && (s.owner.Some? ==> s.owner.value < |s.threads|)
    && forall t :: 0 <= t < |s.threads| ==> (HoldsLock(s.threads[t].pc) <==> s.owner == Some(t))
  }

  ghost predicate LeaderInv(s: State) {
    && (s.inFlight <==> exists t :: Leader(s, t))
    && (forall t, u :: Leader(s, t) && Leader(s, u) ==> t == u)
  }

  /** No thread sleeps on a renewal that is over, except until its leader has notified. */
  ghost predicate SleeperInv(s: State) {
    forall t :: 0 <= t < |s.threads| && s.threads[t].pc.Asleep? ==>
      || (s.inFlight && s.generation == s.threads[t].pc.joined)
      || exists u :: 0 <= u < |s.threads| && s.threads[u].pc.Announcing?
  }

  ghost predicate HelperRunning(s: State) {
    exists t :: 0 <= t < |s.threads| && Renewing(s.threads[t].pc)
  }

  ghost predicate CountInv(s: State) {
    && s.launches == s.completed + (if HelperRunning(s) then 1 else 0)
    && s.generation == s.completed % TWO_64
  }

  ghost predicate Inv(s: State) {
    && (forall t :: 0 <= t < |s.threads| ==> ThreadOk(s.threads[t]))
    && MutexInv(s) && LeaderInv(s) && SleeperInv(s) && CountInv(s)
  }

  lemma InitInv(n: nat)
    ensures Inv(Init(n))
  {
  }

  /** A step that changes no leadership, counter or sleeper besides its own thread. */
  lemma OthersUnchanged(s: State, t: nat, c: Choice, u: nat)
    requires t < |s.threads| && u < |s.threads| && u != t && Apply(s, t, c).Some?
    ensures |Apply(s, t, c).value.threads| == |s.threads|
    ensures var th, th' := s.threads[u], Apply(s, t, c).value.threads[u];
            th' == th || (s.threads[t].pc.Announcing? && th.pc.Asleep? && th' == th.(pc := Woken(th.pc.joined, false)))
  {
  }

  /** What a step does to its own thread and to the shared variables. */
  lemma OwnStep(s: State, t: nat, c: Choice)
    requires t < |s.threads| && Apply(s, t, c).Some?
    ensures |Apply(s, t, c).value.threads| == |s.threads|
    ensures var pc, pc' := s.threads[t].pc, Apply(s, t, c).value.threads[t].pc;
            && (Leads(pc') <==> (Leads(pc) && !pc.Finishing?) || (pc.Deciding? && !s.inFlight))
            && (Renewing(pc') <==> (Renewing(pc) && !pc.Finishing?) || pc.Refreshing?)
  {
    hide NotifyAll;
  }

  lemma SharedStep(s: State, t: nat, c: Choice)
    requires t < |s.threads| && Apply(s, t, c).Some?
    ensures var pc, s' := s.threads[t].pc, Apply(s, t, c).value;
            && s'.inFlight == (if pc.Finishing? then false else s.inFlight || pc.Deciding?)
            && s'.launches == s.launches + (if pc.Refreshing? then 1 else 0)
            && s'.completed == s.completed + (if pc.Finishing? then 1 else 0)
            && s'.generation == if pc.Finishing? then (s.generation + 1) % TWO_64 else s.generation
  {
  }

  lemma OwnThread(s: State, t: nat, c: Choice)
    requires t < |s.threads| && ThreadOk(s.threads[t]) && Apply(s, t, c).Some?
    ensures t < |Apply(s, t, c).value.threads| && ThreadOk(Apply(s, t, c).value.threads[t])
  {
    hide NotifyAll;
  }

  lemma StepThreads(s: State, t: nat, c: Choice)
    requires t < |s.threads| && (forall u :: 0 <= u < |s.threads| ==> ThreadOk(s.threads[u])) && Apply(s, t, c).Some?
    ensures forall u :: 0 <= u < |s.threads| ==> ThreadOk(Apply(s, t, c).value.threads[u])
  {
    hide Apply;
    var s' := Apply(s, t, c).value;
    SameThreads(s, t, c);
    forall u | 0 <= u < |s.threads|
      ensures ThreadOk(s'.threads[u])
    {
      if u != t { OthersUnchanged(s, t, c, u); } else { OwnThread(s, t, c); }
    }
  }

  lemma StepMutex(s: State, t: nat, c: Choice)
    requires t < |s.threads| && MutexInv(s) && Apply(s, t, c).Some?
    ensures MutexInv(Apply(s, t, c).value)
  {
    hide Apply, HoldsLock;
    OwnMutex(s, t, c);
    var s' := Apply(s, t, c).value;
    forall u | 0 <= u < |s.threads|
      ensures HoldsLock(s'.threads[u].pc) <==> s'.owner == Some(u)
    {
      if u != t {
        OthersUnchanged(s, t, c, u);
        WokenHoldsNothing(s.threads[u]);
      }
    }
  }

  lemma OwnMutex(s: State, t: nat, c: Choice)
    requires t < |s.threads| && Apply(s, t, c).Some?
    requires HoldsLock(s.threads[t].pc) <==> s.owner == Some(t)
    ensures var s' := Apply(s, t, c).value;
            && |s'.threads| == |s.threads|
            && (HoldsLock(s'.threads[t].pc) <==> s'.owner == Some(t))
            && (s'.owner == s.owner || s'.owner in {None, Some(t)})
            && (s.owner.Some? && s.owner != Some(t) ==> s'.owner == s.owner)
  {
    hide NotifyAll;
  }

  lemma WokenHoldsNothing(th: Thread)
    ensures th.pc.Asleep? ==> !HoldsLock(th.pc) && !HoldsLock(Woken(th.pc.joined, false))
  {
  }

  lemma StepLeader(s: State, t: nat, c: Choice)
    requires t < |s.threads| && LeaderInv(s) && Apply(s, t, c).Some?
    ensures LeaderInv(Apply(s, t, c).value)
  {
    hide Apply;
    var s' := Apply(s, t, c).value;
    OwnStep(s, t, c);
    SharedStep(s, t, c);
    forall u: nat | u < |s.threads| && u != t
      ensures Leader(s', u) <==> Leader(s, u)
    {
      OthersUnchanged(s, t, c, u);
    }
    if s.threads[t].pc.Finishing? {
      assert Leader(s, t) && !Leader(s', t);
    } else if s.threads[t].pc.Deciding? && !s.inFlight {
      assert Leader(s', t);
    } else {
      assert Leader(s, t) <==> Leader(s', t);
      if s.inFlight {
        var u :| Leader(s, u);
        assert Leader(s', u);
      }
    }
  }

  lemma StepSleeper(s: State, t: nat, c: Choice)
    requires t < |s.threads| && MutexInv(s) && SleeperInv(s) && Apply(s, t, c).Some?
    ensures SleeperInv(Apply(s, t, c).value)
  {
    var s' := Apply(s, t, c).value;
    SameThreads(s, t, c);
    if s.threads[t].pc.Finishing? {
      assert s'.threads[t].pc.Announcing?;
    } else {
      forall u | 0 <= u < |s'.threads| && s'.threads[u].pc.Asleep?
        ensures (s'.inFlight && s'.generation == s'.threads[u].pc.joined)
             || exists w :: 0 <= w < |s'.threads| && s'.threads[w].pc.Announcing?
      {
        if u != t { OthersUnchanged(s, t, c, u); }
        if w :| 0 <= w < |s.threads| && s.threads[w].pc.Announcing? {
          if w != t { OthersUnchanged(s, t, c, w); }
        }
      }
    }
  }

  lemma StepCount(s: State, t: nat, c: Choice)
    requires t < |s.threads| && LeaderInv(s) && CountInv(s) && Apply(s, t, c).Some?
    ensures CountInv(Apply(s, t, c).value)
  {
    hide Apply;
    var s' := Apply(s, t, c).value;
    OwnStep(s, t, c);
    SharedStep(s, t, c);
    forall u: nat | u < |s.threads| && u != t
      ensures Renewing(s'.threads[u].pc) <==> Renewing(s.threads[u].pc)
    {
      OthersUnchanged(s, t, c, u);
    }
    if Leader(s, t) {
      forall u | 0 <= u < |s.threads| && u != t
        ensures !Renewing(s.threads[u].pc)
      {
        assert !Leader(s, u);
      }
      assert HelperRunning(s) <==> Renewing(s.threads[t].pc);
      assert HelperRunning(s') <==> Renewing(s'.threads[t].pc);
    } else {
      assert HelperRunning(s) <==> HelperRunning(s');
    }
  }

  lemma StepKeepsInv(s: State, s': State)
    requires Inv(s) && Step(s, s')
    ensures Inv(s')
  {
    hide Apply, ThreadOk, MutexInv, LeaderInv, SleeperInv, CountInv;
    var t: nat, c :| t < |s.threads| && Apply(s, t, c) == Some(s');
    StepThreads(s, t, c);
    StepMutex(s, t, c);
    StepLeader(s, t, c);
    StepSleeper(s, t, c);
    StepCount(s, t, c);
    SameThreads(s, t, c);
  }

  lemma SameThreads(s: State, t: nat, c: Choice)
    requires t < |s.threads| && Apply(s, t, c).Some?
    ensures |Apply(s, t, c).value.threads| == |s.threads|
  {
  }

  lemma {:induction false} RunKeepsInv(states: seq<State>, n: nat, i: nat)
    requires Run(states, n) && i < |states|
    ensures Inv(states[i])
  {
    hide Inv, Step;
    if i == 0 {
      InitInv(n);
    } else {
      RunKeepsInv(states, n, i - 1);
      assert Step(states[i - 1], states[i - 1 + 1]);
      StepKeepsInv(states[i - 1], states[i]);
    }
  }

  // ---------------------------------------------------------------------
  // The gate's promises, for any number of threads and any interleaving
  // ---------------------------------------------------------------------

  /** A renewal is in flight exactly while one thread, and only one, is its leader. */
  lemma InFlightMeansOneLeader(states: seq<State>, n: nat, i: nat)
    requires Run(states, n) && i < |states|
    ensures states[i].inFlight <==> exists t :: Leader(states[i], t)
    ensures forall t, u :: Leader(states[i], t) && Leader(states[i], u) ==> t == u
  {
    RunKeepsInv(states, n, i);
  }

  /** Helpers launched equal the renewals completed, plus the one in progress. */
  lemma LaunchesAreCounted(states: seq<State>, n: nat, i: nat)
    requires Run(states, n) && i < |states|
    ensures states[i].launches == states[i].completed + if HelperRunning(states[i]) then 1 else 0
    ensures HelperRunning(states[i]) ==> states[i].inFlight
  {
    RunKeepsInv(states, n, i);
    var s := states[i];
    if HelperRunning(s) {
      var t :| 0 <= t < |s.threads| && Renewing(s.threads[t].pc);
      assert Leader(s, t);
    }
  }

  /** Whoever joined a renewal in flight never launches a helper, and nobody launches two. */
  lemma JoinersNeverLaunch(states: seq<State>, n: nat, i: nat, t: nat)
    requires Run(states, n) && i < |states| && t < |states[i].threads|
    ensures states[i].threads[t].launched <= 1
    ensures states[i].threads[t].hasJoined ==> states[i].threads[t].launched == 0
  {
    RunKeepsInv(states, n, i);
    assert ThreadOk(states[i].threads[t]);
  }

  /** Whenever the gate is unlocked, every sleeping thread waits for a renewal that is still running. */
  lemma NoLostWakeup(states: seq<State>, n: nat, i: nat, t: nat)
    requires Run(states, n) && i < |states| && t < |states[i].threads|
    requires states[i].owner.None? && states[i].threads[t].pc.Asleep?
    ensures states[i].inFlight && states[i].generation == states[i].threads[t].pc.joined
    ensures exists u :: Leader(states[i], u) && u != t
  {
    RunKeepsInv(states, n, i);
    var s := states[i];
    assert !exists u :: 0 <= u < |s.threads| && s.threads[u].pc.Announcing?;
    var u :| Leader(s, u);
    assert u != t;
  }

  predicate Finished(s: State) {
    forall t :: 0 <= t < |s.threads| ==> s.threads[t].pc.Done?
  }

  /** A step that needs neither a timeout nor a spurious wakeup. */
  ghost predicate CanMove(s: State, t: nat) {
    t < |s.threads| && !s.threads[t].pc.Asleep? && exists c :: Apply(s, t, c).Some?
  }

  lemma HolderCanMove(s: State, t: nat)
    requires t < |s.threads| && HoldsLock(s.threads[t].pc)
    ensures CanMove(s, t)
  {
    var pc := s.threads[t].pc;
    if pc.Testing? && s.inFlight && s.generation == pc.joined {
      assert Apply(s, t, Deadline(false)).Some?;
    } else {
      assert Apply(s, t, Go).Some?;
    }
  }

  lemma AwakeCanMove(s: State, t: nat)
    requires t < |s.threads| && s.owner.None?
    requires !s.threads[t].pc.Asleep? && !s.threads[t].pc.Done? && !HoldsLock(s.threads[t].pc)
    ensures CanMove(s, t)
  {
    var pc := s.threads[t].pc;
    if pc.Start? || pc.Polling? || pc.JoinLoad? {
      assert Apply(s, t, Load(Loaded)).Some?;
    } else if pc.CheckDeadline? || pc.PollDeadline? {
      assert Apply(s, t, Deadline(true)).Some?;
    } else {
      assert Apply(s, t, Go).Some?;
    }
  }

  /** The gate never deadlocks: until all threads are done one of them can move by itself. */
  lemma SomeoneCanMove(states: seq<State>, n: nat, i: nat)
    requires Run(states, n) && i < |states| && !Finished(states[i])
    ensures exists t :: CanMove(states[i], t)
  {
    RunKeepsInv(states, n, i);
    var s := states[i];
    var t :| 0 <= t < |s.threads| && !s.threads[t].pc.Done?;
    if s.owner.Some? {
      HolderCanMove(s, s.owner.value);
    } else if s.threads[t].pc.Asleep? {
      assert !exists u :: 0 <= u < |s.threads| && s.threads[u].pc.Announcing?;
      var u :| Leader(s, u);
      AwakeCanMove(s, u);
    } else {
      AwakeCanMove(s, t);
    }
  }

  // ---------------------------------------------------------------------
  // Who launches a helper
  // ---------------------------------------------------------------------

  /** At this step the thread looks at `in_flight`, and it is false. */
  ghost predicate DecidesFreely(states: seq<State>, j: nat, t: nat) {
    && j + 1 < |states| && t < |states[j].threads| && t < |states[j + 1].threads|
    && states[j].threads[t].pc.Deciding? && !states[j].inFlight
    && states[j + 1].threads[t] != states[j].threads[t]
  }

  /** Elected, about to launch, or done with it. */
  predicate HelperBound(th: Thread) {
    th.pc.Elected? || th.pc.Refreshing? || th.launched > 0
  }

  ghost predicate DecidedFreely(states: seq<State>, i: nat, t: nat) {
    exists j :: 0 <= j < i && DecidesFreely(states, j, t)
  }

  lemma OwnHelper(s: State, t: nat, c: Choice)
    requires t < |s.threads| && Apply(s, t, c).Some? && t < |Apply(s, t, c).value.threads|
    ensures var th, th' := s.threads[t], Apply(s, t, c).value.threads[t];
            && (HelperBound(th') <==> HelperBound(th) || (th.pc.Deciding? && !s.inFlight))
            && (th.pc.Deciding? && !s.inFlight ==> th' != th)
  {
    hide NotifyAll;
  }

  /** One step changes what a thread owes only if that thread decides at this step. */
  lemma HelperStep(states: seq<State>, n: nat, i: nat, t: nat)
    requires Run(states, n) && i + 1 < |states| && t < |states[i].threads| && t < |states[i + 1].threads|
    ensures HelperBound(states[i + 1].threads[t]) <==> HelperBound(states[i].threads[t]) || DecidesFreely(states, i, t)
  {
    hide Apply, HelperBound;
    var s, s' := states[i], states[i + 1];
    assert Step(s, s');
    var u: nat, c :| u < |s.threads| && Apply(s, u, c) == Some(s');
    if u == t {
      OwnHelper(s, t, c);
    } else {
      OthersUnchanged(s, u, c, t);
      AwakenedOwesNothing(s.threads[t], s'.threads[t]);
    }
  }

  lemma AwakenedOwesNothing(th: Thread, th': Thread)
    requires th' == th || (th.pc.Asleep? && th' == th.(pc := Woken(th.pc.joined, false)))
    ensures HelperBound(th') <==> HelperBound(th)
  {
  }

  lemma {:induction false} ThreadsStay(states: seq<State>, n: nat, i: nat)
    requires Run(states, n) && i < |states|
    ensures |states[i].threads| == n
    decreases i
  {
    hide Apply;
    if i > 0 {
      ThreadsStay(states, n, i - 1);
      assert Step(states[i - 1], states[i]);
      var u: nat, c :| u < |states[i - 1].threads| && Apply(states[i - 1], u, c) == Some(states[i]);
      SameThreads(states[i - 1], u, c);
    }
  }

  /**
  In every run a caller is elected, about to launch a helper, or has launched one exactly when
  at an earlier step it held the gate and found no renewal in flight, however its load went before.
  */
  lemma {:induction false} HelperIff(states: seq<State>, n: nat, i: nat, t: nat)
    requires Run(states, n) && i < |states| && t < n
    ensures |states[i].threads| == n
    ensures HelperBound(states[i].threads[t]) <==> DecidedFreely(states, i, t)
    decreases i
  {
    hide Run, HelperBound, DecidesFreely;
    ThreadsStay(states, n, i);
    if i == 0 {
      StartsFree(states, n, t);
    } else {
      ThreadsStay(states, n, i - 1);
      HelperIff(states, n, i - 1, t);
      HelperStep(states, n, i - 1, t);
      if DecidesFreely(states, i - 1, t) { assert DecidedFreely(states, i, t); }
    }
  }

  lemma StartsFree(states: seq<State>, n: nat, t: nat)
    requires Run(states, n) && t < n
    ensures t < |states[0].threads| && !HelperBound(states[0].threads[t])
  {
  }

  // ---------------------------------------------------------------------
  // How many helpers
  // ---------------------------------------------------------------------

  ghost predicate SomeoneDecides(states: seq<State>, j: nat) {
    exists t: nat :: DecidesFreely(states, j, t)
  }

  /** How often a caller found no renewal in flight. */
  ghost function FreeDecisions(states: seq<State>, i: nat): nat {
    if i == 0 then 0 else FreeDecisions(states, i - 1) + if SomeoneDecides(states, i - 1) then 1 else 0
  }

  ghost predicate Owes(s: State, t: nat) {
    t < |s.threads| && (s.threads[t].pc.Elected? || s.threads[t].pc.Refreshing?)
  }

  /** A leader is elected that has not launched its helper yet. */
  ghost predicate LaunchPending(s: State) {
    exists t: nat :: Owes(s, t)
  }

  lemma OwnDebt(s: State, t: nat, c: Choice)
    requires t < |s.threads| && Apply(s, t, c).Some? && t < |Apply(s, t, c).value.threads|
    ensures var s' := Apply(s, t, c).value;
            && (Owes(s', t) <==>
                  (Owes(s, t) && !s.threads[t].pc.Refreshing?) || (s.threads[t].pc.Deciding? && !s.inFlight))
            && s'.launches == s.launches + (if s.threads[t].pc.Refreshing? then 1 else 0)
            && (s.threads[t].pc.Refreshing? ==> Owes(s, t))
            && (s.threads[t].pc.Deciding? && !s.inFlight ==> s'.threads[t] != s.threads[t])
  {
    hide NotifyAll;
  }

  lemma OtherDebt(s: State, t: nat, c: Choice, u: nat)
    requires t < |s.threads| && u < |s.threads| && u != t && Apply(s, t, c).Some?
    ensures u < |Apply(s, t, c).value.threads| && (Owes(Apply(s, t, c).value, u) <==> Owes(s, u))
    ensures Apply(s, t, c).value.threads[u] != s.threads[u] ==> !s.threads[u].pc.Deciding?
  {
    hide Apply;
    OthersUnchanged(s, t, c, u);
  }

  /** A leader that owes a launch is the only one, and the renewal is in flight. */
  lemma DebtorLeads(states: seq<State>, n: nat, i: nat)
    requires Run(states, n) && i < |states|
    ensures forall t, u :: Owes(states[i], t) && Owes(states[i], u) ==> t == u
    ensures LaunchPending(states[i]) ==> states[i].inFlight
  {
    InFlightMeansOneLeader(states, n, i);
    forall t | Owes(states[i], t)
      ensures Leader(states[i], t)
    {
    }
  }

  /**
  Helpers launched equal the decisions that found no renewal in flight, less a leader that has
  not launched yet: a second helper needs a second such decision, and nothing else.
  */
  lemma {:induction false} HelpersAreFreeDecisions(states: seq<State>, n: nat, i: nat)
    requires Run(states, n) && i < |states|
    ensures states[i].launches + (if LaunchPending(states[i]) then 1 else 0) == FreeDecisions(states, i)
    decreases i
  {
    hide Apply, Run, Owes, DecidesFreely;
    if i == 0 {
      NothingOwed(states, n);
    } else {
      HelpersAreFreeDecisions(states, n, i - 1);
      DebtStep(states, n, i - 1);
    }
  }

  lemma NothingOwed(states: seq<State>, n: nat)
    requires Run(states, n)
    ensures states[0].launches == 0 && !LaunchPending(states[0])
  {
  }

  lemma DebtStep(states: seq<State>, n: nat, i: nat)
    requires Run(states, n) && i + 1 < |states|
    ensures states[i + 1].launches + (if LaunchPending(states[i + 1]) then 1 else 0) ==
            states[i].launches + (if LaunchPending(states[i]) then 1 else 0) +
            (if SomeoneDecides(states, i) then 1 else 0)
  {
    hide Apply, Run, Owes;
    var s, s' := states[i], states[i + 1];
    var u, c := TheStep(states, n, i);
    ThreadsStay(states, n, i);
    ThreadsStay(states, n, i + 1);
    DebtorLeads(states, n, i);
    OwnDebt(s, u, c);
    forall t: nat | t < n && t != u
      ensures Owes(s', t) <==> Owes(s, t)
      ensures !DecidesFreely(states, i, t)
    {
      OtherDebt(s, u, c, t);
    }
    Debts(s, s', n);
    var freely := s.threads[u].pc.Deciding? && !s.inFlight;
    assert DecidesFreely(states, i, u) <==> freely;
    assert SomeoneDecides(states, i) <==> freely;
    if freely {
      assert Owes(s', u);
    } else if s.threads[u].pc.Refreshing? {
      assert !LaunchPending(s') by {
        assert forall t: nat :: Owes(s', t) ==> Owes(s, t) && t != u;
      }
    } else {
      assert forall t: nat :: Owes(s', t) <==> Owes(s, t);
    }
  }

  lemma Debts(s: State, s': State, n: nat)
    requires |s.threads| == n && |s'.threads| == n
    ensures forall t: nat :: (Owes(s, t) || Owes(s', t)) ==> t < n
  {
  }

  lemma TheStep(states: seq<State>, n: nat, i: nat) returns (u: nat, c: Choice)
    requires Run(states, n) && i + 1 < |states|
    ensures u < |states[i].threads| && Apply(states[i], u, c) == Some(states[i + 1])
  {
    hide Apply;
    assert Step(states[i], states[i + 1]);
    u, c :| u < |states[i].threads| && Apply(states[i], u, c) == Some(states[i + 1]);
  }

  // ---------------------------------------------------------------------
  // Not one helper per expiry
  // ---------------------------------------------------------------------

  /** Two threads; completed renewals and generations agree. */
  function Two(owner: Option<nat>, inFlight: bool, generation: nat, launches: nat, a: Thread, b: Thread): State {
    State(owner, inFlight, generation, generation, launches, [a, b])
  }

  /** Equal field by field, with two threads each. */
  ghost predicate Equal(a: State, b: State) {
    && a == b.(threads := a.threads) && |a.threads| == |b.threads| == 2
    && a.threads[0] == b.threads[0] && a.threads[1] == b.threads[1]
  }

  lemma Then(states: seq<State>, t: nat, c: Choice, next: State) returns (longer: seq<State>)
    requires states != [] && Run(states, 2) && t < |states[|states| - 1].threads|
    requires Apply(states[|states| - 1], t, c).Some? && Equal(Apply(states[|states| - 1], t, c).value, next)
    ensures longer != [] && longer[|longer| - 1] == next && Run(longer, 2)
  {
    hide Apply;
    longer := states + [next];
    assert Apply(states[|states| - 1], t, c).value.threads == next.threads;
    assert Step(states[|states| - 1], next);
  }

  lemma BothFail(states: seq<State>) returns (r: seq<State>)
    requires states != [] && Run(states, 2)
    requires states[|states| - 1] == Two(None, false, 0, 0, Thread(Start, false, 0), Thread(Start, false, 0))
    ensures r != [] && Run(r, 2)
    ensures r[|r| - 1] == Two(None, false, 0, 0, Thread(WantGate, false, 0), Thread(WantGate, false, 0))
  {
    hide Run;
    r := states;
    r := Then(r, 1, Load(Renewable), Two(None, false, 0, 0, Thread(Start, false, 0), Thread(CheckDeadline, false, 0)));
    r := Then(r, 1, Deadline(false), Two(None, false, 0, 0, Thread(Start, false, 0), Thread(WantGate, false, 0)));
    r := Then(r, 0, Load(Renewable),
              Two(None, false, 0, 0, Thread(CheckDeadline, false, 0), Thread(WantGate, false, 0)));
    r := Then(r, 0, Deadline(false), Two(None, false, 0, 0, Thread(WantGate, false, 0), Thread(WantGate, false, 0)));
  }

  lemma FirstIsElected(states: seq<State>) returns (r: seq<State>)
    requires states != [] && Run(states, 2)
    requires states[|states| - 1] == Two(None, false, 0, 0, Thread(WantGate, false, 0), Thread(WantGate, false, 0))
    ensures r != [] && Run(r, 2)
    ensures r[|r| - 1] == Two(None, true, 0, 1, Thread(Polling, false, 1), Thread(WantGate, false, 0))
  {
    hide Run;
    r := states;
    r := Then(r, 0, Go, Two(Some(0), false, 0, 0, Thread(Deciding, false, 0), Thread(WantGate, false, 0)));
    r := Then(r, 0, Go, Two(Some(0), true, 0, 0, Thread(Elected, false, 0), Thread(WantGate, false, 0)));
    r := Then(r, 0, Go, Two(None, true, 0, 0, Thread(Refreshing, false, 0), Thread(WantGate, false, 0)));
    r := Then(r, 0, Go, Two(None, true, 0, 1, Thread(Polling, false, 1), Thread(WantGate, false, 0)));
  }

  lemma FirstRenews(states: seq<State>) returns (r: seq<State>)
    requires states != [] && Run(states, 2)
    requires states[|states| - 1] == Two(None, true, 0, 1, Thread(Polling, false, 1), Thread(WantGate, false, 0))
    ensures r != [] && Run(r, 2)
    ensures r[|r| - 1] == Two(None, false, 1, 1, Thread(Done(true), false, 1), Thread(WantGate, false, 0))
  {
    hide Run;
    r := states;
    r := Then(r, 0, Load(Loaded),
              Two(None, true, 0, 1, Thread(WantFinish(true), false, 1), Thread(WantGate, false, 0)));
    r := Then(r, 0, Go, Two(Some(0), true, 0, 1, Thread(Finishing(true), false, 1), Thread(WantGate, false, 0)));
    r := Then(r, 0, Go, Two(Some(0), false, 1, 1, Thread(Announcing(true), false, 1), Thread(WantGate, false, 0)));
    r := Then(r, 0, Go, Two(Some(0), false, 1, 1, Thread(Announced(true), false, 1), Thread(WantGate, false, 0)));
    r := Then(r, 0, Go, Two(None, false, 1, 1, Thread(Done(true), false, 1), Thread(WantGate, false, 0)));
  }

  lemma SecondLaunches(states: seq<State>) returns (r: seq<State>)
    requires states != [] && Run(states, 2)
    requires states[|states| - 1] == Two(None, false, 1, 1, Thread(Done(true), false, 1), Thread(WantGate, false, 0))
    ensures r != [] && Run(r, 2)
    ensures r[|r| - 1] == Two(None, true, 1, 2, Thread(Done(true), false, 1), Thread(Polling, false, 1))
  {
    hide Run;
    r := states;
    r := Then(r, 1, Go, Two(Some(1), false, 1, 1, Thread(Done(true), false, 1), Thread(Deciding, false, 0)));
    r := Then(r, 1, Go, Two(Some(1), true, 1, 1, Thread(Done(true), false, 1), Thread(Elected, false, 0)));
    r := Then(r, 1, Go, Two(None, true, 1, 1, Thread(Done(true), false, 1), Thread(Refreshing, false, 0)));
    r := Then(r, 1, Go, Two(None, true, 1, 2, Thread(Done(true), false, 1), Thread(Polling, false, 1)));
  }

  /**
  A caller that failed before a renewal ended and reaches the gate after it launches another
  helper: both threads fail, thread 0 renews, then thread 1 is elected.
  */
  lemma LatecomerLaunchesAgain()
    ensures exists states: seq<State> :: states != [] && Run(states, 2) && states[|states| - 1].launches == 2
  {
    var r := [Two(None, false, 0, 0, Thread(Start, false, 0), Thread(Start, false, 0))];
    assert Equal(Init(2), r[0]) && Init(2).threads == r[0].threads;
    r := BothFail(r);
    r := FirstIsElected(r);
    r := FirstRenews(r);
    r := SecondLaunches(r);
  }
}
