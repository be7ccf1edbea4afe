/** The factory as a step machine: any interleaving of message segments, with the answers of
    the ledger and of the management canister left open. */
module FactoryMachine {
  import opened Common
  import opened Ledger
  import opened Deployments
  import opened Factory
  import Ids

  /** What happened outside canister memory, for specification only.
      `created` lists the ids of all stored deployments, `archived` the records removed since,
      `issued` counts generated ids; the maps total, per user, what the ledger confirmed and
      what the administrators granted, and, per deployment, the executions begun (`started`)
      and those that entered the failure handler with their record stored (`handled`). */
  datatype History = History(
    created: seq<string>,
    archived: Records,
    issued: nat,
    cacheBase: nat,
    paidIn: map<Principal, nat>,
    paidOut: map<Principal, nat>,
    undebited: map<Principal, nat>,
    adjusted: map<Principal, nat>,
    orphaned: map<Principal, nat>,
    started: map<string, nat>,
    handled: map<string, nat>,
    canisters: set<Principal>)

  datatype Machine = Machine(
    s: State,
    now: u64,
    self: string,
    tasks: map<nat, Task>,
    nextTask: nat,
    h: History)

  datatype Event =
    | Tick(t: u64)
    | SetFee(fee: u64)
    | Adjust(user: Principal, amount: u64, reason: string, admin: Principal)
    | BeginDeposit(user: Principal, amount: u64)
    | EndDeposit(task: nat, paid: bool)
    | BeginWithdrawal(user: Principal, amount: u64, cycles: nat)
    | EndWithdrawal(task: nat, paid: bool)
    | RequestStrategy(caller: Principal, request: Request, cycles: nat)
    | ForceExecute(admin: Principal, id: string, cycles: nat)
    | CreateAnswered(task: nat, created: Option<Principal>)
    | InstallAnswered(task: nat, installed: bool, decodes: bool)
    | InitAnswered(task: nat, initialized: bool, decodes: bool)
    | Cleanup(shouldArchive: bool, order: seq<string>)
    | UpgradeCanister

  function EnvOf(m: Machine, caller: Principal): Env { Env(m.now, caller, m.self) }

  function Initial(now: u64, self: string): Machine {
    Machine(
      State(Books(map[], map[], [], []), map[], Index(map[], map[]), 0, DEFAULT_DEPLOYMENT_FEE),
      now, self, map[], 0,
      History([], map[], 0, 0, map[], map[], map[], map[], map[], map[], map[], {}))
  }

  function Suspend(m: Machine, t: Task): Machine {
    m.(tasks := m.tasks[m.nextTask := t], nextTask := m.nextTask + 1)
  }

  function Resume(m: Machine, t: nat): Machine { m.(tasks := m.tasks - {t}) }

  /** The segment's new memory, and its task if it is suspended again. */
  function Continue(m: Machine, g: Segment): Machine {
    var m' := m.(s := g.state);
    if g.progress.Waiting? then Suspend(m', g.progress.task) else m'
  }

  function CountStart(m: Machine, id: string): Machine { m.(h := m.h.(started := Bump(m.h.started, id, 1))) }

  /** An execution enters the failure handler; it counts when the record is stored. */
  function CountHandled(m: Machine, id: string): Machine {
    if id in m.s.records then m.(h := m.h.(handled := Bump(m.h.handled, id, 1))) else m
  }

  function DoAdjust(m: Machine, e: Event): Machine
    requires e.Adjust?
  {
    m.(s := m.s.(books := AdjustBalance(m.s.books, e.user, e.amount, e.reason, EnvOf(m, e.admin))),
       h := m.h.(adjusted := Bump(m.h.adjusted, e.user, e.amount)))
  }

  function DoEndDeposit(m: Machine, task: nat, paid: bool): Machine
    requires task in m.tasks && m.tasks[task].DepositCall?
  {
    var t := m.tasks[task];
    var b := FinishDeposit(m.s.books, t.user, t.amount, paid, EnvOf(m, t.user));
    var m1 := Resume(m, task);
    var m2 := if paid then m1.(h := m1.h.(paidIn := Bump(m1.h.paidIn, t.user, t.amount))) else m1;
    if b.Ok? then m2.(s := m2.s.(books := b.value)) else m2
  }

  function DoEndWithdrawal(m: Machine, task: nat, paid: bool): Machine
    requires task in m.tasks && m.tasks[task].WithdrawCall?
  {
    var t := m.tasks[task];
    var b := FinishWithdrawal(m.s.books, t.user, t.amount, paid, EnvOf(m, t.user));
    var m1 := Resume(m, task);
    var m2 := if paid then m1.(h := m1.h.(paidOut := Bump(m1.h.paidOut, t.user, t.amount))) else m1;
    if b.Ok? then m2.(s := m2.s.(books := b.value))
    else if paid then m2.(h := m2.h.(undebited := Bump(m2.h.undebited, t.user, t.amount)))
    else m2
  }

  function DoRequest(m: Machine, caller: Principal, request: Request, cycles: nat): Machine {
    var env := EnvOf(m, caller);
    var g := CreateStrategyRequest(m.s, request, cycles, env);
    var paid := request.valid && request.strategyType.SelfHedging? && ProcessBalancePayment(m.s.books, caller, m.s.fee, env).Ok?;
    if !paid then m.(s := g.state)
    else
      var m1 := m.(h := m.h.(issued := m.h.issued + 1));
      if !request.encodes then m1.(s := g.state, h := m1.h.(orphaned := Bump(m1.h.orphaned, caller, m.s.fee)))
      else
        var id := Ids.DeploymentId(m.now, caller, m.s.idCounter);
        var m2 := CountStart(m1.(h := m1.h.(created := m1.h.created + [id])), id);
        var m3 := if cycles < CREATION_CYCLES then m2.(h := m2.h.(handled := Bump(m2.h.handled, id, 1))) else m2;
        var m4 := m3.(s := g.state);
        if g.next.Some? then Suspend(m4, g.next.value) else m4
  }

  function DoForce(m: Machine, admin: Principal, id: string, cycles: nat): Machine {
    if id !in m.s.records then m
    else
      var m1 := CountStart(m, id);
      var m2 := if cycles < CREATION_CYCLES then CountHandled(m1, id) else m1;
      Continue(m2, ExecuteDeployment(m.s, id, false, cycles, EnvOf(m, admin)))
  }

  function DoCreateAnswered(m: Machine, task: nat, created: Option<Principal>): Machine
    requires task in m.tasks && m.tasks[task].CreateCall?
  {
    var x := m.tasks[task].x;
    var m1 := Resume(m, task);
    var m2 := if created.None? || !x.record.strategyType.SelfHedging? then CountHandled(m1, x.id) else m1;
    var m3 := if created.Some? then m2.(h := m2.h.(canisters := m2.h.canisters + {created.value})) else m2;
    Continue(m3, AfterCreate(m.s, x, created, EnvOf(m, x.caller)))
  }

  function DoInstallAnswered(m: Machine, task: nat, installed: bool, decodes: bool): Machine
    requires task in m.tasks && m.tasks[task].InstallCall?
  {
    var x := m.tasks[task].x;
    var m1 := Resume(m, task);
    var m2 := if !installed || !decodes then CountHandled(m1, x.id) else m1;
    Continue(m2, AfterInstall(m.s, x, m.tasks[task].canister, installed, decodes, EnvOf(m, x.caller)))
  }

  function DoInitAnswered(m: Machine, task: nat, initialized: bool, decodes: bool): Machine
    requires task in m.tasks && m.tasks[task].InitCall?
  {
    var x := m.tasks[task].x;
    var m1 := Resume(m, task);
    var m2 := if !initialized || !decodes then CountHandled(m1, x.id) else m1;
    Continue(m2, AfterInit(m.s, x, m.tasks[task].canister, initialized, decodes, EnvOf(m, x.caller)))
  }

  ghost function DoCleanup(m: Machine, shouldArchive: bool, order: seq<string>): Machine {
    var s := ExecuteCleanupTasks(m.s, shouldArchive, order, EnvOf(m, m.self));
    var gone := m.s.records.Keys - s.records.Keys;
    m.(s := s, h := m.h.(archived := m.h.archived + (map id | id in gone :: m.s.records[id])))
  }

  function DoUpgrade(m: Machine): Machine {
    m.(s := Upgrade(m.s), tasks := map[], h := m.h.(cacheBase := |m.s.books.log|))
  }

  /** One step. An answer to a call nobody waits for, a clock running backwards and a cleanup
      with a wrong iteration order are not possible and leave the machine as it is. */
  ghost function Step(m: Machine, e: Event): Machine {
    match e
    case Tick(t) => if m.now <= t then m.(now := t) else m
    case SetFee(fee) => m.(s := m.s.(fee := fee))
    case Adjust(_, _, _, _) => DoAdjust(m, e)
    case BeginDeposit(user, amount) =>
      if CheckDeposit(user, amount).Ok? then Suspend(m, DepositCall(user, amount)) else m
    case EndDeposit(task, paid) =>
      if task in m.tasks && m.tasks[task].DepositCall? then DoEndDeposit(m, task, paid) else m
    case BeginWithdrawal(user, amount, cycles) =>
      if CheckWithdrawal(m.s.books, user, amount, cycles).Ok? then Suspend(m, WithdrawCall(user, amount)) else m
    case EndWithdrawal(task, paid) =>
      if task in m.tasks && m.tasks[task].WithdrawCall? then DoEndWithdrawal(m, task, paid) else m
    case RequestStrategy(caller, request, cycles) => if caller == ANONYMOUS then m else DoRequest(m, caller, request, cycles)
    case ForceExecute(admin, id, cycles) => DoForce(m, admin, id, cycles)
    case CreateAnswered(task, created) =>
      if task in m.tasks && m.tasks[task].CreateCall? then DoCreateAnswered(m, task, created) else m
    case InstallAnswered(task, installed, decodes) =>
      if task in m.tasks && m.tasks[task].InstallCall? then DoInstallAnswered(m, task, installed, decodes) else m
    case InitAnswered(task, initialized, decodes) =>
      if task in m.tasks && m.tasks[task].InitCall? then DoInitAnswered(m, task, initialized, decodes) else m
    case Cleanup(shouldArchive, order) =>
      if Enumerates(order, m.s.records) then DoCleanup(m, shouldArchive, order) else m
    case UpgradeCanister => DoUpgrade(m)
  }

  /** A run: its events and the states at its yield points, one more than there are events. */
  datatype Run = Run(events: seq<Event>, states: seq<Machine>)

  ghost predicate IsRun(r: Run) {
    && |r.states| == |r.events| + 1
    && (exists now: u64, self: string :: r.states[0] == Initial(now, self))
    && (forall i {:trigger r.events[i]} :: 0 <= i < |r.events| ==> r.states[i + 1] == Step(r.states[i], r.events[i]))
  }

  /** Yield point `k` of a run during which the 64-bit id counter has not wrapped. */
  ghost predicate YieldPoint(r: Run, k: nat) {
    IsRun(r) && k < |r.states| && r.states[k].h.issued <= TWO_64
  }

  /** No execution of `id` is forced between yield points `j` and `k`; others may be. */
  ghost predicate NotForced(r: Run, j: nat, k: nat, id: string) {
    forall i :: j <= i < k && i < |r.events| && r.events[i].ForceExecute? ==> r.events[i].id != id
  }

  /** The management canister never hands out a canister id twice. */
  ghost predicate FreshCanister(m: Machine, e: Event) {
    e.CreateAnswered? && e.created.Some? ==> e.created.value !in m.h.canisters
  }

  ghost predicate FreshCanisters(r: Run) {
    |r.states| == |r.events| + 1 &&
    forall i {:trigger r.events[i]} :: 0 <= i < |r.events| ==> FreshCanister(r.states[i], r.events[i])
  }
}
