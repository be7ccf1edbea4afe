/** What a single step may add to the history of the factory, and what every run therefore
    knows about each entry of its log: when and for whom it was posted, and what a refund paid. */
module FactoryTrace {
  import opened Common
  import opened Ledger
  import opened Deployments
  import opened Factory
  import opened FactoryMachine
  import opened FactorySegments
  import opened FactoryInvariant
  import opened FactoryConservation
  import Ids

  /** The caller under whom the segment of `e` runs. */
  function Poster(m: Machine, e: Event): Principal {
    match e
    case Adjust(_, _, _, admin) => admin
    case EndDeposit(task, _) => if task in m.tasks && m.tasks[task].DepositCall? then m.tasks[task].user else m.self
    case EndWithdrawal(task, _) => if task in m.tasks && m.tasks[task].WithdrawCall? then m.tasks[task].user else m.self
    case RequestStrategy(caller, _, _) => caller
    case ForceExecute(admin, _, _) => admin
    case CreateAnswered(task, _) => Resumer(m, task)
    case InstallAnswered(task, _, _) => Resumer(m, task)
    case InitAnswered(task, _, _) => Resumer(m, task)
    case _ => m.self
  }

  function Resumer(m: Machine, task: nat): Principal {
    if task in m.tasks && IsExecution(m.tasks[task]) then m.tasks[task].x.caller else m.self
  }

  /** A refund pays the fee of the deployment it names to that deployment's owner. */
  ghost predicate RefundPaysFee(t: TransactionRecord, all: Records) {
    t.transactionType.Refund? ==>
      && t.description.RefundForDeployment?
      && t.description.id in all
      && t.user == all[t.description.id].owner
      && t.amount == all[t.description.id].feeAmount
  }

  ghost predicate EntryOk(t: TransactionRecord, env: Env, all: Records) {
    t.transactionId == TransactionId(env) && t.timestamp == env.now && RefundPaysFee(t, all)
  }

  ghost predicate LogGrows(log: seq<TransactionRecord>, log': seq<TransactionRecord>, env: Env, all: Records) {
    log <= log' && forall i :: |log| <= i < |log'| ==> EntryOk(log'[i], env, all)
  }

  /** The history only grows: entries are appended, archived records stay archived, and no
      deployment is forgotten or changes owner or fee. */
  ghost predicate Grows(m: Machine, m': Machine, env: Env) {
    && m'.self == m.self
    && m.h.archived.Keys <= m'.h.archived.Keys
    && SameTerms(All(m), All(m'))
    && LogGrows(m.s.books.log, m'.s.books.log, env, All(m'))
  }

  // ---------- Building blocks ----------

  lemma GrowsAlone(m: Machine, m': Machine, env: Env)
    requires m'.self == m.self && m'.h.archived == m.h.archived && m'.s.records == m.s.records
    requires m'.s.books.log == m.s.books.log
    ensures Grows(m, m', env)
  {
  }

  lemma GrowsByPost(m: Machine, m': Machine, user: Principal, amount: u64, kind: TransactionType, description: Description, env: Env)
    requires kind != Transfer && !kind.Refund? && (IsCredit(kind) || GetUserAccount(m.s.books, user).balance >= amount)
    requires m'.self == m.self && m'.h.archived == m.h.archived && m'.s.records == m.s.records
    requires m'.s.books == Post(m.s.books, user, amount, kind, description, env)
    ensures Grows(m, m', env)
  {
    hide Post;
    PostShape(m.s.books, user, amount, kind, description, env);
  }

  lemma GrowsByRecord(m: Machine, m': Machine, id: string, r: DeploymentRecord, env: Env)
    requires m'.self == m.self && m'.h.archived == m.h.archived && m'.s.records == m.s.records[id := r]
    requires m'.s.books.log == m.s.books.log
    requires if id in m.s.records then r.owner == m.s.records[id].owner && r.feeAmount == m.s.records[id].feeAmount
             else id !in m.h.archived
    ensures Grows(m, m', env)
  {
  }

  lemma GrowsByRefund(m: Machine, id: string, canister: Option<Principal>, caller: Principal)
    requires id in m.s.records
    ensures Grows(m, RefundIn(m, id, canister, caller), EnvOf(m, caller))
  {
    hide Post;
    var r := m.s.records[id];
    PostShape(m.s.books, r.owner, r.feeAmount, Refund, RefundForDeployment(id), EnvOf(m, caller));
    TermsAfterUpdate(m.s.records, m.h.archived, id, RefundedRecord(r, canister, m.now));
  }

  lemma GrowsTwice(m: Machine, m1: Machine, m2: Machine, env: Env)
    requires Grows(m, m1, env) && Grows(m1, m2, env)
    ensures Grows(m, m2, env)
  {
    hide SameTerms, RefundPaysFee;
    TermsTwice(All(m), All(m1), All(m2));
    EntriesTwice(m.s.books.log, m1.s.books.log, m2.s.books.log, env, All(m1), All(m2));
  }

  lemma TermsTwice(a: Records, b: Records, c: Records)
    requires SameTerms(a, b) && SameTerms(b, c)
    ensures SameTerms(a, c)
  {
  }

  lemma StillPaysFee(t: TransactionRecord, all: Records, all': Records)
    requires RefundPaysFee(t, all) && SameTerms(all, all')
    ensures RefundPaysFee(t, all')
  {
  }

  lemma EntriesTwice(log: seq<TransactionRecord>, log1: seq<TransactionRecord>, log2: seq<TransactionRecord>, env: Env, all1: Records, all2: Records)
    requires LogGrows(log, log1, env, all1) && LogGrows(log1, log2, env, all2) && SameTerms(all1, all2)
    ensures LogGrows(log, log2, env, all2)
  {
    hide SameTerms, RefundPaysFee;
    forall i | |log| <= i < |log2| ensures EntryOk(log2[i], env, all2) {
      if i < |log1| {
        assert log2[i] == log1[i];
        StillPaysFee(log1[i], all1, all2);
      }
    }
  }

  // ---------- Every step ----------

  lemma GrowsAfterRequest(m: Machine, caller: Principal, request: Request, cycles: nat)
    requires Inv(m) && DoRequest(m, caller, request, cycles).h.issued <= TWO_64
    ensures Grows(m, DoRequest(m, caller, request, cycles), EnvOf(m, caller))
  {
    hide Inv, DoRequest, Post, Grows, Ids.DeploymentId;
    RequestCases(m, caller, request, cycles);
    var m', env := DoRequest(m, caller, request, cycles), EnvOf(m, caller);
    if !Accepted(m, caller, request) {
      GrowsAlone(m, m', env);
    } else {
      var paid := PayFee(m, caller);
      if !request.encodes {
        GrowsByPost(m, m', caller, m.s.fee, DeploymentFee, FeeForStrategy, env);
      } else {
        GrowsByPost(m, paid, caller, m.s.fee, DeploymentFee, FeeForStrategy, env);
        var id := NewId(m, caller);
        NewIdIsNew(m, caller);
        var c := CreateRecord(paid, id, caller, m.s.fee);
        GrowsByRecord(paid, c, id, NewRecord(id, SelfHedging, caller, m.s.fee, m.now), env);
        GrowsTwice(m, paid, c, env);
        if cycles < CREATION_CYCLES {
          GrowsByRefund(c, id, None, caller);
        } else {
          GrowsAlone(c, m', env);
        }
        GrowsTwice(m, c, m', env);
      }
    }
  }

  lemma NewIdIsNew(m: Machine, caller: Principal)
    requires Inv(m) && m.h.issued < TWO_64
    ensures NewId(m, caller) !in m.s.records && NewId(m, caller) !in m.h.archived
  {
    hide IssuedBelow, Distinct;
    NewIdIsFresh(m, caller);
    assert NewId(m, caller) !in SetOf(m.h.created);
  }

  lemma FactsInside(m: Machine)
    requires Inv(m)
    ensures FeesPositive(m)
    ensures forall t :: t in m.tasks && IsExecution(m.tasks[t]) ==> m.tasks[t].x.record.strategyType.SelfHedging?
    ensures forall id :: id in m.s.records ==> !m.s.records[id].status.DeploymentFailed?
    ensures m.nextTask !in m.tasks
  {
  }

  lemma GrowsAfterForce(m: Machine, admin: Principal, id: string, cycles: nat)
    requires Inv(m)
    ensures Grows(m, DoForce(m, admin, id, cycles), EnvOf(m, admin))
  {
    FactsInside(m);
    hide Inv, DoForce, Post, Grows;
    ForceCases(m, admin, id, cycles);
    var m', env := DoForce(m, admin, id, cycles), EnvOf(m, admin);
    if id in m.s.records && cycles < CREATION_CYCLES {
      GrowsAlone(m, CountStart(m, id), env);
      GrowsByRefund(CountStart(m, id), id, None, admin);
      GrowsTwice(m, CountStart(m, id), m', env);
    } else {
      GrowsAlone(m, m', env);
    }
  }

  /** The refund of a resumed execution. */
  lemma GrowsByFailure(m: Machine, t: nat, canister: Option<Principal>)
    requires t in m.tasks && IsExecution(m.tasks[t]) && m.tasks[t].x.id in m.s.records
    ensures var x := m.tasks[t].x; Grows(m, RefundIn(Resume(m, t), x.id, canister, x.caller), EnvOf(m, x.caller))
  {
    hide Grows, Post;
    var x := m.tasks[t].x;
    var m1 := Resume(m, t);
    GrowsAlone(m, m1, EnvOf(m, x.caller));
    GrowsByRefund(m1, x.id, canister, x.caller);
    GrowsTwice(m, m1, RefundIn(m1, x.id, canister, x.caller), EnvOf(m, x.caller));
  }

  lemma GrowsAfterCreateAnswered(m: Machine, t: nat, created: Option<Principal>)
    requires Inv(m) && t in m.tasks && m.tasks[t].CreateCall?
    ensures Grows(m, DoCreateAnswered(m, t, created), EnvOf(m, m.tasks[t].x.caller))
  {
    FactsInside(m);
    hide Inv, DoCreateAnswered, Post, Grows;
    CreateAnsweredCases(m, t, created);
    var x, m' := m.tasks[t].x, DoCreateAnswered(m, t, created);
    if x.id !in m.s.records {
      GrowsAlone(m, m', EnvOf(m, x.caller));
    } else if created.None? {
      GrowsByFailure(m, t, None);
    } else {
      GrowsByRecord(m, m', x.id, Advanced(m.s.records[x.id], CanisterCreated, created.value, m.now), EnvOf(m, x.caller));
    }
  }

  lemma GrowsAfterInstallAnswered(m: Machine, t: nat, installed: bool, decodes: bool)
    requires Inv(m) && t in m.tasks && m.tasks[t].InstallCall?
    ensures Grows(m, DoInstallAnswered(m, t, installed, decodes), EnvOf(m, m.tasks[t].x.caller))
  {
    FactsInside(m);
    hide Inv, DoInstallAnswered, Post, Grows;
    InstallAnsweredCases(m, t, installed, decodes);
    var x, cid, m' := m.tasks[t].x, m.tasks[t].canister, DoInstallAnswered(m, t, installed, decodes);
    if x.id !in m.s.records {
      GrowsAlone(m, m', EnvOf(m, x.caller));
    } else if installed && decodes {
      GrowsByRecord(m, m', x.id, Advanced(m.s.records[x.id], CodeInstalled, cid, m.now), EnvOf(m, x.caller));
    } else {
      GrowsByFailure(m, t, Some(cid));
    }
  }

  lemma GrowsAfterInitAnswered(m: Machine, t: nat, initialized: bool, decodes: bool)
    requires Inv(m) && t in m.tasks && m.tasks[t].InitCall?
    ensures Grows(m, DoInitAnswered(m, t, initialized, decodes), EnvOf(m, m.tasks[t].x.caller))
  {
    FactsInside(m);
    hide Inv, DoInitAnswered, Post, Grows, StoreStrategyMetadata;
    InitAnsweredCases(m, t, initialized, decodes);
    var x, cid, m' := m.tasks[t].x, m.tasks[t].canister, DoInitAnswered(m, t, initialized, decodes);
    if x.id !in m.s.records {
      GrowsAlone(m, m', EnvOf(m, x.caller));
    } else if initialized && decodes {
      GrowsByRecord(m, m', x.id, Advanced(m.s.records[x.id], Deployed, cid, m.now), EnvOf(m, x.caller));
    } else {
      GrowsByFailure(m, t, Some(cid));
    }
  }

  lemma GrowsAfterLedgerAnswer(m: Machine, t: nat, paid: bool)
    requires t in m.tasks
    ensures m.tasks[t].DepositCall? ==> Grows(m, DoEndDeposit(m, t, paid), EnvOf(m, m.tasks[t].user))
    ensures m.tasks[t].WithdrawCall? ==> Grows(m, DoEndWithdrawal(m, t, paid), EnvOf(m, m.tasks[t].user))
  {
    hide DoEndDeposit, DoEndWithdrawal, Post, Grows;
    var task := m.tasks[t];
    if task.DepositCall? {
      EndDepositCases(m, t, paid);
      var m' := DoEndDeposit(m, t, paid);
      if paid {
        GrowsByPost(m, m', task.user, task.amount, Deposit, DepositOf(task.amount), EnvOf(m, task.user));
      } else {
        GrowsAlone(m, m', EnvOf(m, task.user));
      }
    } else if task.WithdrawCall? {
      EndWithdrawalCases(m, t, paid);
      var m' := DoEndWithdrawal(m, t, paid);
      if paid && GetUserAccount(m.s.books, task.user).balance >= task.amount {
        GrowsByPost(m, m', task.user, task.amount, Withdrawal, WithdrawalOf(task.amount), EnvOf(m, task.user));
      } else {
        GrowsAlone(m, m', EnvOf(m, task.user));
      }
    }
  }

  lemma GrowsAfterCleanup(m: Machine, shouldArchive: bool, order: seq<string>)
    requires Inv(m) && Enumerates(order, m.s.records)
    ensures Grows(m, DoCleanup(m, shouldArchive, order), EnvOf(m, m.self))
  {
    FactsInside(m);
    hide DoCleanup, Enumerates, Inv;
    var gone := CleanupCases(m, shouldArchive, order);
    CleanupKeepsAll(m, gone);
  }

  lemma CleanupKeepsAll(m: Machine, gone: set<string>)
    requires Inv(m) && gone <= CompletedIn(m.s.records)
    ensures (m.h.archived + (map id | id in gone :: m.s.records[id])) + (m.s.records - gone) == All(m)
  {
    ArchivingKeepsAll(m.s.records, m.h.archived, gone, m.h.created, m.h.issued, m.s.idCounter);
  }

  lemma GrowsAfterAnswer(m: Machine, e: Event)
    requires Inv(m)
    requires e.CreateAnswered? || e.InstallAnswered? || e.InitAnswered? || e.EndDeposit? || e.EndWithdrawal?
    ensures Grows(m, Step(m, e), EnvOf(m, Poster(m, e)))
  {
    hide Inv, Grows, DoCreateAnswered, DoInstallAnswered, DoInitAnswered, DoEndDeposit, DoEndWithdrawal;
    GrowsAlone(m, m, EnvOf(m, Poster(m, e)));
    match e
    case CreateAnswered(t, created) =>
      if t in m.tasks && m.tasks[t].CreateCall? { GrowsAfterCreateAnswered(m, t, created); }
    case InstallAnswered(t, installed, decodes) =>
      if t in m.tasks && m.tasks[t].InstallCall? { GrowsAfterInstallAnswered(m, t, installed, decodes); }
    case InitAnswered(t, initialized, decodes) =>
      if t in m.tasks && m.tasks[t].InitCall? { GrowsAfterInitAnswered(m, t, initialized, decodes); }
    case EndDeposit(t, paid) => if t in m.tasks { GrowsAfterLedgerAnswer(m, t, paid); }
    case EndWithdrawal(t, paid) => if t in m.tasks { GrowsAfterLedgerAnswer(m, t, paid); }
  }

  /** Every step appends to the log under its own time and caller, and pays refunds only as fees. */
  lemma GrowsAfterStep(m: Machine, e: Event)
    requires Inv(m) && Step(m, e).h.issued <= TWO_64
    ensures Grows(m, Step(m, e), EnvOf(m, Poster(m, e)))
  {
    if e.CreateAnswered? || e.InstallAnswered? || e.InitAnswered? || e.EndDeposit? || e.EndWithdrawal? {
      hide *;
      GrowsAfterAnswer(m, e);
    } else {
      hide Inv, Grows, DoRequest, DoForce, DoCleanup, DoUpgrade, AdjustBalance, Enumerates, CheckDeposit, CheckWithdrawal, Post;
      var env := EnvOf(m, Poster(m, e));
      GrowsAlone(m, m, env);
      match e
      case RequestStrategy(caller, request, cycles) =>
        if caller != ANONYMOUS { GrowsAfterRequest(m, caller, request, cycles); }
      case ForceExecute(admin, id, cycles) => GrowsAfterForce(m, admin, id, cycles);
      case Adjust(user, amount, reason, admin) =>
        AdjustCases(m, e);
        GrowsByPost(m, Step(m, e), user, amount, AdminAdjustment, Reason(reason), env);
      case Cleanup(shouldArchive, order) =>
        if Enumerates(order, m.s.records) { GrowsAfterCleanup(m, shouldArchive, order); }
      case UpgradeCanister =>
        UpgradeLogs(m);
        GrowsAlone(m, Step(m, e), env);
      case _ => GrowsAlone(m, Step(m, e), env);
    }
  }

  lemma UpgradeLogs(m: Machine)
    ensures var m' := DoUpgrade(m);
            && m'.self == m.self && m'.h.archived == m.h.archived && m'.s.records == m.s.records
            && m'.s.books.log == m.s.books.log && m'.tasks == map[]
  {
    UpgradeRoundTrip(m.s);
  }

  // ---------- Every run ----------

  /** When and under which caller an entry was posted. */
  datatype Origin = Origin(at: u64, caller: Principal)

  /** The origin of every log entry of yield point `k`. */
  ghost function Origins(r: Run, k: nat): seq<Origin>
    requires k < |r.states| == |r.events| + 1
  {
    if k == 0 then [] else
      var m := r.states[k - 1];
      Origins(r, k - 1) +
      seq(Max(0, |r.states[k].s.books.log| - |m.s.books.log|), _ => Origin(m.now, Poster(m, r.events[k - 1])))
  }

  function OriginEnv(o: Origin, self: string): Env { Env(o.at, o.caller, self) }

  ghost predicate LogOk(log: seq<TransactionRecord>, origins: seq<Origin>, self: string, all: Records) {
    && |origins| == |log|
    && forall i :: 0 <= i < |log| ==> EntryOk(log[i], OriginEnv(origins[i], self), all)
  }

  lemma LogOkGrows(log: seq<TransactionRecord>, log': seq<TransactionRecord>, origins: seq<Origin>, o: Origin, self: string,
                   all: Records, all': Records)
    requires LogOk(log, origins, self, all) && SameTerms(all, all') && LogGrows(log, log', OriginEnv(o, self), all')
    ensures LogOk(log', origins + seq(|log'| - |log|, _ => o), self, all')
  {
    hide SameTerms, RefundPaysFee, OriginEnv;
    var origins' := origins + seq(|log'| - |log|, _ => o);
    forall i | 0 <= i < |log'| ensures EntryOk(log'[i], OriginEnv(origins'[i], self), all') {
      if i < |log| {
        StillPaysFee(log[i], all, all');
      }
    }
  }

  lemma {:induction false} LogOnEveryRun(r: Run, k: nat)
    requires YieldPoint(r, k)
    ensures LogOk(r.states[k].s.books.log, Origins(r, k), r.states[k].self, All(r.states[k]))
  {
    if k > 0 {
      hide LogOk, Step, Inv, Poster, LogGrows, SameTerms;
      var m, e := r.states[k - 1], r.events[k - 1];
      YieldPointBefore(r, k);
      LogOnEveryRun(r, k - 1);
      InvOnEveryRun(r, k - 1);
      GrowsAfterStep(m, e);
      var log, log' := m.s.books.log, r.states[k].s.books.log;
      NotShorter(log, log', EnvOf(m, Poster(m, e)), All(r.states[k]));
      LogOkGrows(log, log', Origins(r, k - 1), Origin(m.now, Poster(m, e)), m.self, All(m), All(r.states[k]));
    } else {
      var now, self :| r.states[0] == Initial(now, self);
    }
  }

  lemma NotShorter(log: seq<TransactionRecord>, log': seq<TransactionRecord>, env: Env, all: Records)
    requires LogGrows(log, log', env, all)
    ensures |log| <= |log'|
  {
  }

  /** Every refund of the log, forced executions included, paid the fee of a deployment stored
      once, to its owner. */
  lemma RefundsPayFees(r: Run, k: nat, i: nat)
    requires YieldPoint(r, k) && i < |r.states[k].s.books.log|
    ensures RefundPaysFee(r.states[k].s.books.log[i], All(r.states[k]))
  {
    LogOnEveryRun(r, k);
  }

  // ---------- Transaction ids ----------

  /** Within one canister a transaction id says when and under which caller it was made, no more. */
  lemma TransactionIdInjective(a: Origin, b: Origin, self: string)
    ensures TransactionId(OriginEnv(a, self)) == TransactionId(OriginEnv(b, self)) <==> a == b
  {
    var x, y := a.caller + "-" + self, b.caller + "-" + self;
    assert TransactionId(OriginEnv(a, self)) == Ids.Decimal(a.at) + "-" + x;
    assert TransactionId(OriginEnv(b, self)) == Ids.Decimal(b.at) + "-" + y;
    if TransactionId(OriginEnv(a, self)) == TransactionId(OriginEnv(b, self)) {
      Ids.DecimalHasNoDash(a.at);
      Ids.DecimalHasNoDash(b.at);
      Ids.CutAtFirstDash(Ids.Decimal(a.at), x, Ids.Decimal(b.at), y);
      Ids.DecimalInjective(a.at, b.at);
      assert |a.caller| == |b.caller|;
      assert a.caller == x[..|a.caller|] == y[..|b.caller|] == b.caller;
    }
  }

  /** Time, caller and canister, in this order. */
  lemma TransactionIdReads(env: Env)
    ensures var id, time := TransactionId(env), |Ids.Decimal(env.now)|;
            Ids.ValueOf(id[..time]) == env.now && id[time..] == "-" + env.caller + "-" + env.self
  {
    Ids.DecimalRoundTrip(env.now);
    var id := TransactionId(env);
    assert id[..|Ids.Decimal(env.now)|] == Ids.Decimal(env.now);
    assert id[|Ids.Decimal(env.now)|..] == "-" + env.caller + "-" + env.self;
  }

  /** On every run two stored transactions share an id exactly if they were posted at the same
      time under the same caller. */
  lemma SharedIds(r: Run, k: nat, i: nat, j: nat)
    requires YieldPoint(r, k) && i < |r.states[k].s.books.log| && j < |r.states[k].s.books.log|
    ensures |Origins(r, k)| == |r.states[k].s.books.log|
    ensures var log := r.states[k].s.books.log;
            log[i].transactionId == log[j].transactionId <==> Origins(r, k)[i] == Origins(r, k)[j]
  {
    hide RefundPaysFee, TransactionId, OriginEnv;
    LogOnEveryRun(r, k);
    var origins, log := Origins(r, k), r.states[k].s.books.log;
    assert EntryOk(log[i], OriginEnv(origins[i], r.states[k].self), All(r.states[k]));
    assert EntryOk(log[j], OriginEnv(origins[j], r.states[k].self), All(r.states[k]));
    TransactionIdInjective(origins[i], origins[j], r.states[k].self);
  }

  /** Entry `j` is the last one of the origin of entry `i`, and equal to it. */
  ghost predicate LastFrom(log: seq<TransactionRecord>, origins: seq<Origin>, i: nat, j: nat)
    requires i < |log| == |origins|
  {
    && i <= j < |log| && log[j] == log[i]
    && forall n :: j < n < |log| ==> origins[n] != origins[i]
  }

  /** The map still holds a transaction exactly if the last one posted at the same time under the
      same caller equals it. */
  lemma KeptInMap(r: Run, k: nat, i: nat)
    requires YieldPoint(r, k) && i < |r.states[k].s.books.log|
    ensures |Origins(r, k)| == |r.states[k].s.books.log|
    ensures var b, origins := r.states[k].s.books, Origins(r, k);
            && b.log[i].transactionId in b.transactions
            && (b.transactions[b.log[i].transactionId] == b.log[i] <==>
                exists j :: LastFrom(b.log, origins, i, j))
  {
    hide Origins, LastById, Inv;
    var log := r.states[k].s.books.log;
    SharedIds(r, k, i, i);
    forall j | 0 <= j < |log| ensures log[j].transactionId == log[i].transactionId <==> Origins(r, k)[j] == Origins(r, k)[i] {
      SharedIds(r, k, j, i);
    }
    LedgerOnEveryRun(r, k, "");
    FoundInMap(log, i);
    forall j: nat ensures LastEqual(log, i, j) <==> LastFrom(log, Origins(r, k), i, j) {
    }
  }
}
