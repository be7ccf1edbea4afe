/** Status and timer of the strategy on every run whatsoever: how the two can come apart, for how
    long, and whether a strategy that was stopped stays stopped. */
module StrategyRuns {
  import opened Common
  import opened StrategyTimer
  import opened Strategy
  import opened StrategyMachine

  // ---------- Timers and suspended starts ----------

  /** The registry holds exactly the live timers, and none but the execution timer. */
  ghost predicate TimersOk(c: Canister) {
    RegistryOk(c.timers) && c.timers.timers.Keys <= {EXECUTION_TIMER_ID}
  }

  predicate Armed(c: Canister) { c.timers.armed != {} }

  predicate IsStart(t: Task) { t.PoolCall? || t.StartCall? || t.ApproveCall? }

  /** Some `start` waits for an answer. */
  ghost predicate Starting(m: Machine) { exists t :: t in m.tasks && IsStart(m.tasks[t]) }

  lemma ArmedMeansListed(c: Canister)
    requires TimersOk(c)
    ensures Armed(c) <==> EXECUTION_TIMER_ID in c.timers.timers
  {
    if EXECUTION_TIMER_ID in c.timers.timers {
      assert c.timers.timers[EXECUTION_TIMER_ID] in c.timers.armed;
    }
    if t :| t in c.timers.armed {
      var id :| id in c.timers.timers && c.timers.timers[id] == t;
      assert id in {EXECUTION_TIMER_ID};
    }
  }

  lemma AgreementMeansNeither(c: Canister)
    requires TimersOk(c)
    ensures Agreement(c) <==> (c.cell.status.Running? <==> Armed(c))
  {
    ArmedMeansListed(c);
    assert EXECUTION_TIMER_ID in {EXECUTION_TIMER_ID};
    assert c.timers.timers.Keys == {} || c.timers.timers.Keys == {EXECUTION_TIMER_ID};
  }

  lemma OkAfterClear(c: Canister)
    requires TimersOk(c)
    ensures var r := ClearTimer(c.timers, EXECUTION_TIMER_ID); RegistryOk(r) && r.timers == map[] && r.armed == {}
  {
    var r := ClearTimer(c.timers, EXECUTION_TIMER_ID);
    ClearKeepsRegistry(c.timers, EXECUTION_TIMER_ID);
    assert r.timers.Keys <= c.timers.timers.Keys;
    assert r.timers.Keys == {};
    assert forall id :: id !in r.timers;
    assert forall t :: t !in r.armed;
  }

  lemma OkAfterStart(c: Canister, now: u64)
    requires TimersOk(c)
    ensures TimersOk(FinishStart(c, now)) && Armed(FinishStart(c, now))
  {
    SetKeepsRegistry(c.timers, EXECUTION_TIMER_ID, true, now);
    var r := SetTimer(c.timers, EXECUTION_TIMER_ID, true, now);
    assert forall i :: i in r.timers ==> i == EXECUTION_TIMER_ID;
  }

  // ---------- What a step does to status and timer ----------

  predicate AutoPauses(m: Machine, task: nat, answer: Option<Unused>) {
    && task in m.tasks && m.tasks[task].BalanceCall? && answer.Some?
    && Held(m.tasks[task].snapshot, answer.value) < m.tasks[task].snapshot.transactionSize / 20
    && VerifyOwner(m.c, m.tasks[task].caller, m.self)
  }

  predicate StartEnds(m: Machine, e: Event) {
    e.StartApproved? && e.approved && e.task in m.tasks && m.tasks[e.task].ApproveCall?
  }

  predicate Reinitialises(m: Machine, e: Event) { e.Init? && InitAccepted(m.c, e.config, e.slippageOk) }

  predicate Stops(m: Machine, e: Event) { e.CallStop? && VerifyOwner(m.c, e.caller, m.self) }

  /** Pause, stop, the pause of an execution, or an initialisation. */
  predicate Halts(m: Machine, e: Event) {
    || (e.CallPause? && VerifyOwner(m.c, e.caller, m.self))
    || Stops(m, e)
    || (e.BalanceAnswered? && AutoPauses(m, e.task, e.answer))
    || Reinitialises(m, e)
  }

  predicate Disarms(m: Machine, e: Event) {
    e.UpgradeCanister? || Stops(m, e) || (m.c.cell.status.Running? && Halts(m, e) && !Reinitialises(m, e))
  }

  /** The whole effect of a step on status and timer. */
  lemma StatusAndTimer(m: Machine, e: Event)
    requires TimersOk(m.c)
    ensures var c, c' := m.c, Step(m, e).c;
            && TimersOk(c')
            && (c'.cell.status.Running? <==> StartEnds(m, e) || (c.cell.status.Running? && !Halts(m, e)))
            && (Armed(c') <==> StartEnds(m, e) || (Armed(c) && !Disarms(m, e)))
  {
    hide RegistryOk, SetTimer, ClearTimer;
    if e.StartApproved? {
      OkAfterStart(m.c, m.now);
    } else if e.CallPause? || e.CallStop? || e.BalanceAnswered? || e.Init? || e.UpgradeCanister? {
      hide FinishStart;
      OkAfterClear(m.c);
      match e
      case BalanceAnswered(task, answer) =>
        hide DoBalanceAnswered;
        if task in m.tasks && m.tasks[task].BalanceCall? { StatusAfterBalance(m, task, answer); }
      case UpgradeCanister => NoTimers(Upgrade(m.c));
      case _ =>
    } else {
      StatusUntouched(m, e);
    }
  }

  lemma StatusUntouched(m: Machine, e: Event)
    requires !e.StartApproved? && !e.CallPause? && !e.CallStop? && !e.BalanceAnswered? && !e.Init? && !e.UpgradeCanister?
    ensures Step(m, e).c.timers == m.c.timers && Step(m, e).c.cell.status == m.c.cell.status
  {
  }

  lemma NoTimers(c: Canister)
    requires c.timers.timers == map[] && c.timers.armed == {}
    ensures TimersOk(c)
  {
  }

  lemma StatusAfterBalance(m: Machine, task: nat, answer: Option<Unused>)
    requires TimersOk(m.c) && task in m.tasks && m.tasks[task].BalanceCall?
    ensures var c, c' := m.c, DoBalanceAnswered(m, task, answer).c;
            if c.cell.status.Running? && AutoPauses(m, task, answer)
            then !c'.cell.status.Running? && c'.timers == ClearTimer(c.timers, EXECUTION_TIMER_ID)
            else c'.cell.status == c.cell.status && c'.timers == c.timers
  {
    hide RegistryOk, ClearTimer;
  }

  /** Only `start` suspends a start. */
  lemma NoNewStart(m: Machine, e: Event)
    requires !Starting(m) && !(e.BeginStart? && StartAllowed(m.c, e.caller, m.self))
    ensures !Starting(Step(m, e))
  {
    hide AfterBalance, BeginExecution, FinishExecution, FinishStart, InitSelfHedging, UpdateConfig, UpdateVolumeConfig, Pause, Stop;
    assert forall t :: t in m.tasks ==> !IsStart(m.tasks[t]);
  }

  // ---------- Running without a timer, a timer without Running ----------

  predicate Stalled(c: Canister) { c.cell.status.Running? && !Armed(c) }

  predicate LeftOver(c: Canister) { !c.cell.status.Running? && Armed(c) }

  predicate Stalls(m: Machine, e: Event) { e.UpgradeCanister? && m.c.cell.status.Running? }

  predicate Leaves(m: Machine, e: Event) { Reinitialises(m, e) && Armed(m.c) }

  predicate Clears(m: Machine, e: Event) { e.UpgradeCanister? || Stops(m, e) || StartEnds(m, e) }

  ghost predicate RunOk(m: Machine) { TimersOk(m.c) && (Stalled(m.c) ==> !Starting(m)) }

  /** One step: an upgrade that meets Running stalls the strategy until it is halted; an
      initialisation that meets a timer leaves it behind until it is cleared. */
  lemma ApartAfterStep(m: Machine, e: Event)
    requires RunOk(m)
    ensures var c' := Step(m, e).c;
            && RunOk(Step(m, e))
            && (Stalled(c') <==> Stalls(m, e) || (Stalled(m.c) && !Halts(m, e)))
            && (LeftOver(c') <==> Leaves(m, e) || (LeftOver(m.c) && !Clears(m, e)))
  {
    hide TimersOk, Step, AutoPauses;
    StatusAndTimer(m, e);
    if Stalled(m.c) {
      NoStartEnds(m, e);
      if !(e.BeginStart? && StartAllowed(m.c, e.caller, m.self)) {
        NoNewStart(m, e);
      }
    } else if e.UpgradeCanister? {
      NothingSuspended(m);
    }
  }

  lemma NothingSuspended(m: Machine)
    ensures !Starting(Step(m, UpgradeCanister))
  {
  }

  /** The last upgrade that met Running was not followed by a halt. */
  ghost predicate StalledSince(r: Run, k: nat)
    requires YieldPoint(r, k)
  {
    exists j {:trigger r.events[j]} :: 0 <= j < k && Stalls(r.states[j], r.events[j]) && NoneHalts(r, j, k)
  }

  ghost predicate NoneHalts(r: Run, j: nat, k: nat)
    requires YieldPoint(r, k)
  {
    forall i {:trigger r.events[i]} :: j < i < k ==> !Halts(r.states[i], r.events[i])
  }

  ghost predicate LeftSince(r: Run, k: nat)
    requires YieldPoint(r, k)
  {
    exists j {:trigger r.events[j]} :: 0 <= j < k && Leaves(r.states[j], r.events[j]) && NoneClears(r, j, k)
  }

  ghost predicate NoneClears(r: Run, j: nat, k: nat)
    requires YieldPoint(r, k)
  {
    forall i {:trigger r.events[i]} :: j < i < k ==> !Clears(r.states[i], r.events[i])
  }

  lemma SinceUnfolds(r: Run, k: nat)
    requires YieldPoint(r, k) && k > 0
    ensures var m, e := r.states[k - 1], r.events[k - 1];
            && (StalledSince(r, k) <==> Stalls(m, e) || (StalledSince(r, k - 1) && !Halts(m, e)))
            && (LeftSince(r, k) <==> Leaves(m, e) || (LeftSince(r, k - 1) && !Clears(m, e)))
  {
    hide Step, Stalls, Halts, Leaves, Clears;
    var m, e := r.states[k - 1], r.events[k - 1];
    forall j: nat | j < k
      ensures NoneHalts(r, j, k) <==> j == k - 1 || (NoneHalts(r, j, k - 1) && !Halts(m, e))
      ensures NoneClears(r, j, k) <==> j == k - 1 || (NoneClears(r, j, k - 1) && !Clears(m, e))
    {
      SinceOne(r, j, k);
    }
  }

  lemma SinceOne(r: Run, j: nat, k: nat)
    requires YieldPoint(r, k) && j < k
    ensures NoneHalts(r, j, k) <==> j == k - 1 || (NoneHalts(r, j, k - 1) && !Halts(r.states[k - 1], r.events[k - 1]))
    ensures NoneClears(r, j, k) <==> j == k - 1 || (NoneClears(r, j, k - 1) && !Clears(r.states[k - 1], r.events[k - 1]))
  {
    hide Step, Halts, Clears;
    var last := r.events[k - 1];
    forall i | j < i < k - 1 && NoneHalts(r, j, k) ensures !Halts(r.states[i], r.events[i]) {
    }
    forall i | j < i < k - 1 && NoneClears(r, j, k) ensures !Clears(r.states[i], r.events[i]) {
    }
  }

  /** On every run, without any assumption: the strategy is Running without a timer exactly from an
      upgrade that met it Running until the next pause, stop, pause of an execution or
      initialisation; and a timer outlives Running exactly from an initialisation that met it
      until the next stop, finished start or upgrade. */
  lemma {:induction false} ApartExactly(r: Run, k: nat)
    requires YieldPoint(r, k)
    ensures RunOk(r.states[k])
    ensures Stalled(r.states[k].c) <==> StalledSince(r, k)
    ensures LeftOver(r.states[k].c) <==> LeftSince(r, k)
  {
    if k > 0 {
      hide RunOk, Step, Stalls, Halts, Leaves, Clears, StalledSince, LeftSince, Stalled, LeftOver;
      ApartExactly(r, k - 1);
      ApartAfterStep(r.states[k - 1], r.events[k - 1]);
      SinceUnfolds(r, k);
    } else {
      FirstIsOk(r);
    }
  }

  lemma FirstIsOk(r: Run)
    requires YieldPoint(r, 0)
    ensures RunOk(r.states[0]) && !Stalled(r.states[0].c) && !LeftOver(r.states[0].c)
  {
  }

  /** Status and timer agree exactly if neither holds, and there is never a second timer. */
  lemma AgreementExactly(r: Run, k: nat)
    requires YieldPoint(r, k)
    ensures Agreement(r.states[k].c) <==> !StalledSince(r, k) && !LeftSince(r, k)
    ensures var c := r.states[k].c; c.timers.armed == c.timers.timers.Values && |c.timers.armed| <= 1
  {
    hide StalledSince, LeftSince, Agreement, TimersOk;
    ApartExactly(r, k);
    AgreementMeansNeither(r.states[k].c);
    OneTimerAtMost(r.states[k].c);
  }

  lemma OneTimerAtMost(c: Canister)
    requires TimersOk(c)
    ensures c.timers.armed == c.timers.timers.Values && |c.timers.armed| <= 1
  {
    forall t ensures t in c.timers.armed <==> t in c.timers.timers.Values {
      if t in c.timers.armed {
        var id :| id in c.timers.timers && c.timers.timers[id] == t;
      }
      if t in c.timers.timers.Values {
        var id :| id in c.timers.timers && c.timers.timers[id] == t;
        assert c.timers.timers[id] in c.timers.armed;
      }
    }
    if EXECUTION_TIMER_ID in c.timers.timers {
      assert forall id :: id in c.timers.timers ==> id == EXECUTION_TIMER_ID;
      assert c.timers.armed == {c.timers.timers[EXECUTION_TIMER_ID]};
    } else {
      assert c.timers.timers.Keys == {};
      assert c.timers.armed == {};
    }
  }

  // ---------- Whether a stop holds ----------

  /** Not running, and no start under way. */
  ghost predicate Quiet(m: Machine) { !m.c.cell.status.Running? && !Starting(m) }

  function AfterEvents(m: Machine, es: seq<Event>): Machine {
    if es == [] then m else Step(AfterEvents(m, es[..|es| - 1]), es[|es| - 1])
  }

  ghost predicate NoStartCalls(es: seq<Event>) { forall i :: 0 <= i < |es| ==> !es[i].BeginStart? }

  /** The strategy can reach Running although nobody calls `start` any more. */
  ghost predicate CanRestart(m: Machine) {
    exists es :: NoStartCalls(es) && AfterEvents(m, es).c.cell.status.Running?
  }

  lemma QuietStays(m: Machine, e: Event)
    requires Quiet(m) && !e.BeginStart?
    ensures Quiet(Step(m, e))
  {
    NoNewStart(m, e);
    StatusOnly(m, e);
    NoStartEnds(m, e);
  }

  lemma NoStartEnds(m: Machine, e: Event)
    requires !Starting(m)
    ensures !StartEnds(m, e)
  {
  }

  lemma StatusOnly(m: Machine, e: Event)
    ensures Step(m, e).c.cell.status.Running? ==> StartEnds(m, e) || m.c.cell.status.Running?
  {
    hide SetTimer, ClearTimer;
  }

  lemma {:induction false} QuietAfterEvents(m: Machine, es: seq<Event>)
    requires Quiet(m) && NoStartCalls(es)
    ensures Quiet(AfterEvents(m, es))
  {
    if es != [] {
      hide Quiet, Step;
      QuietAfterEvents(m, es[..|es| - 1]);
      QuietStays(AfterEvents(m, es[..|es| - 1]), es[|es| - 1]);
    }
  }

  lemma {:induction false} AfterFirst(m: Machine, e: Event, es: seq<Event>)
    ensures AfterEvents(m, [e] + es) == AfterEvents(Step(m, e), es)
  {
    hide Step;
    if es == [] {
      assert [e] + es == [e] && [e][..0] == [];
    } else {
      AfterFirst(m, e, es[..|es| - 1]);
      assert ([e] + es)[..|es|] == [e] + es[..|es| - 1];
    }
  }

  /** What a suspended start waits for, answered in its favour. */
  function GoodAnswer(t: nat, task: Task): Event
    requires IsStart(task)
  {
    match task
    case PoolCall => StartPool(t, true)
    case StartCall(_) => StartBalance(t, Some(Unused(1, 1, "")))
    case ApproveCall => StartApproved(t, true)
  }

  function CallsLeft(task: Task): nat { if task.PoolCall? then 2 else if task.StartCall? then 1 else 0 }

  lemma GoodAnswerAdvances(m: Machine, t: nat)
    requires t in m.tasks && IsStart(m.tasks[t])
    ensures var m' := Step(m, GoodAnswer(t, m.tasks[t]));
            if m.tasks[t].ApproveCall? then m'.c.cell.status.Running?
            else m.nextTask in m'.tasks && IsStart(m'.tasks[m.nextTask]) && CallsLeft(m'.tasks[m.nextTask]) < CallsLeft(m.tasks[t])
  {
    hide SetTimer;
  }

  /** A suspended start is all it takes: its pool found, its balance positive, its approval given. */
  lemma {:induction false} StartCompletes(m: Machine, t: nat) returns (es: seq<Event>)
    requires t in m.tasks && IsStart(m.tasks[t])
    ensures NoStartCalls(es) && AfterEvents(m, es).c.cell.status.Running?
    decreases CallsLeft(m.tasks[t])
  {
    hide Step;
    var e := GoodAnswer(t, m.tasks[t]);
    GoodAnswerAdvances(m, t);
    if m.tasks[t].ApproveCall? {
      es := [];
    } else {
      es := StartCompletes(Step(m, e), m.nextTask);
    }
    AfterFirst(m, e, es);
    es := [e] + es;
  }

  /** A strategy that is not running can come back without a new start exactly if one is under way. */
  lemma RestartNeedsStart(m: Machine)
    requires !m.c.cell.status.Running?
    ensures CanRestart(m) <==> Starting(m)
  {
    hide Step, AfterEvents;
    if Starting(m) {
      var t :| t in m.tasks && IsStart(m.tasks[t]);
      var es := StartCompletes(m, t);
    } else {
      forall es | NoStartCalls(es) ensures !AfterEvents(m, es).c.cell.status.Running? {
        QuietAfterEvents(m, es);
      }
    }
  }

  /** A stop, or a pause, can be overridden without a new start exactly if a start waits for an
      answer at that moment. */
  lemma StopHolds(m: Machine, caller: Principal)
    requires VerifyOwner(m.c, caller, m.self)
    ensures CanRestart(Step(m, CallStop(caller))) <==> Starting(m)
    ensures m.c.cell.status.Running? ==> (CanRestart(Step(m, CallPause(caller))) <==> Starting(m))
  {
    hide CanRestart;
    RestartNeedsStart(Step(m, CallStop(caller)));
    assert Starting(Step(m, CallStop(caller))) <==> Starting(m);
    if m.c.cell.status.Running? {
      RestartNeedsStart(Step(m, CallPause(caller)));
      assert Starting(Step(m, CallPause(caller))) <==> Starting(m);
    }
  }

  /** The shortest way back: a start that waits for its approval overrides a stop issued meanwhile. */
  lemma StopOverriddenByStart(m: Machine, task: nat, caller: Principal)
    requires Agreement(m.c) && task in m.tasks && m.tasks[task].ApproveCall? && VerifyOwner(m.c, caller, m.self)
    ensures var stopped := Step(m, CallStop(caller));
            var m' := Step(stopped, StartApproved(task, true));
            && stopped.c.cell.status.Terminated? && stopped.c.timers.armed == {}
            && m'.c.cell.status.Running? && |m'.c.timers.armed| == 1
  {
    AgreementAfterClear(m.c, Terminated);
    hide Agreement, RegistryOk, SetTimer, ClearTimer;
    var stopped := Step(m, CallStop(caller));
    AgreementMeansOneTimer(stopped.c);
    AgreementAfterStart(stopped.c, m.now);
    AgreementMeansOneTimer(FinishStart(stopped.c, m.now));
  }

  /** On every run: after a stop that met no start under way, and until somebody calls `start`, the
      strategy does not run, no timer is live, and an owned strategy stays Terminated. */
  lemma StoppedUntilStarted(r: Run, j: nat, k: nat)
    requires YieldPoint(r, k) && j < k && Stops(r.states[j], r.events[j]) && !Starting(r.states[j])
    requires forall i {:trigger r.events[i]} :: j < i < k ==> !r.events[i].BeginStart?
    ensures StoppedFor(r.states[k], r.states[j].c.cell.owner)
  {
    hide TimersOk, Step, Stalls, Halts, Leaves, Clears, StalledSince, LeftSince;
    ApartExactly(r, j);
    StopStops(r.states[j], r.events[j]);
    StoppedRest(r, j + 1, k, r.states[j].c.cell.owner);
  }

  /** Cycles completed, and those that still may. */
  ghost function Cycles(m: Machine): nat { |m.completed| + |Executions(m.tasks)| }

  /** While the strategy is quiet no execution begins. */
  lemma CyclesAfterStep(m: Machine, e: Event)
    requires Quiet(m) && SingleExecution(m) && !e.BeginStart?
    ensures Cycles(Step(m, e)) <= Cycles(m)
  {
    hide SetTimer, ClearTimer, CountersOk, StampsSpaced, UpdateConfig, UpdateVolumeConfig, InitSelfHedging;
    if e.StartPool? || e.StartBalance? || e.StartApproved? || e.BalanceAnswered? || e.Traded? || e.RefreshAnswered? || e.QueryAnswered? {
      CyclesAfterAnswer(m, e);
    } else if e.BeginQuery? {
      ExecutionsSuspend(m.tasks, m.nextTask, QueryCall(m.c.cell.config));
    } else if e.UpgradeCanister? {
      assert Executions(map[]) == {};
    }
  }

  lemma CyclesAfterAnswer(m: Machine, e: Event)
    requires Quiet(m) && SingleExecution(m)
    requires e.StartPool? || e.StartBalance? || e.StartApproved? || e.BalanceAnswered? || e.Traded? || e.RefreshAnswered? || e.QueryAnswered?
    ensures Cycles(Step(m, e)) <= Cycles(m)
  {
    hide SetTimer, AfterBalance, FinishExecution, FinishStart, CountersOk, StampsSpaced, Executions;
    if e.task in m.tasks {
      ExecutionsResume(m.tasks, e.task);
      match m.tasks[e.task]
      case BalanceCall(_, _) => ExecutionsSuspend(m.tasks - {e.task}, m.nextTask, TradeCall);
      case TradeCall =>
        if e.Traded? && e.volume.Some? {
          ExecutionsSuspend(m.tasks - {e.task}, m.nextTask, RefreshCall(m.c.cell.config, e.volume.value));
        }
      case _ =>
    }
  }

  lemma {:induction false} CyclesWhileStopped(r: Run, j: nat, k: nat)
    requires YieldPoint(r, k) && j <= k && Quiet(r.states[j])
    requires forall i {:trigger r.events[i]} :: j <= i < k ==> !r.events[i].BeginStart?
    ensures Quiet(r.states[k]) && Cycles(r.states[k]) <= Cycles(r.states[j])
  {
    if j < k {
      hide Step, Quiet, Cycles, SingleExecution;
      var m, e := r.states[k - 1], r.events[k - 1];
      CyclesWhileStopped(r, j, k - 1);
      SingleOnEveryRun(r, k - 1);
      QuietStays(m, e);
      CyclesAfterStep(m, e);
    }
  }

  /** After a stop that met no start under way, and until somebody calls `start`, at most one more
      cycle completes, and none if no execution was in flight. */
  lemma StopLetsOneCycleEnd(r: Run, j: nat, k: nat)
    requires YieldPoint(r, k) && j < k && Stops(r.states[j], r.events[j]) && !Starting(r.states[j])
    requires forall i {:trigger r.events[i]} :: j < i < k ==> !r.events[i].BeginStart?
    ensures |r.states[k].completed| <= |r.states[j].completed| + (if r.states[j].c.inProgress then 1 else 0)
  {
    hide TimersOk, Step, Stalls, Halts, Leaves, Clears, StalledSince, LeftSince, Starting, ClearTimer;
    ApartExactly(r, j);
    StopStops(r.states[j], r.events[j]);
    CyclesWhileStopped(r, j + 1, k);
    OneExecutionAtATime(r, j);
    StopKeepsCycles(r.states[j], r.events[j]);
  }

  lemma StopKeepsCycles(m: Machine, e: Event)
    requires e.CallStop?
    ensures Cycles(Step(m, e)) == Cycles(m)
  {
    hide ClearTimer;
  }

  ghost predicate StoppedFor(m: Machine, owner: Principal) {
    && Quiet(m) && m.c.timers.armed == {}
    && (owner != ANONYMOUS ==> m.c.cell.owner == owner && m.c.cell.status.Terminated?)
  }

  lemma StopStops(m: Machine, e: Event)
    requires TimersOk(m.c) && Stops(m, e) && !Starting(m)
    ensures StoppedFor(Step(m, e), m.c.cell.owner)
  {
    hide RegistryOk, ClearTimer;
    OkAfterClear(m.c);
  }

  lemma {:induction false} StoppedRest(r: Run, j: nat, k: nat, owner: Principal)
    requires YieldPoint(r, k) && j <= k && StoppedFor(r.states[j], owner)
    requires forall i {:trigger r.events[i]} :: j <= i < k ==> !r.events[i].BeginStart?
    ensures StoppedFor(r.states[k], owner)
  {
    if j < k {
      hide Step, StoppedFor;
      StoppedRest(r, j, k - 1, owner);
      StoppedStep(r.states[k - 1], r.events[k - 1], owner);
    }
  }

  lemma StoppedStep(m: Machine, e: Event, owner: Principal)
    requires StoppedFor(m, owner) && !e.BeginStart?
    ensures StoppedFor(Step(m, e), owner)
  {
    QuietStays(m, e);
    NoStartEnds(m, e);
    hide Quiet, SetTimer;
  }
}
