/** The index from owners to strategies agrees with the strategy table on every run, forced
    executions included, as long as the management canister hands out fresh canister ids. */
module FactoryIndex {
  import opened Common
  import opened Ledger
  import opened Deployments
  import opened Factory
  import opened FactoryMachine
  import opened FactorySegments
  import opened FactoryInvariant
  import opened FactoryConservation
  import Ids

  predicate HasCanister(t: Task) { t.InstallCall? || t.InitCall? }

  /** Each strategy is listed once, under its owner, and nothing else is listed. */
  ghost predicate IndexOk(x: Index) {
    && (forall c :: c in x.strategies ==>
          x.strategies[c].canisterId == c && Listed(x, x.strategies[c].owner, c))
    && (forall o, c :: Listed(x, o, c) ==> c in x.strategies && x.strategies[c].owner == o)
    && (forall o :: o in x.ownerStrategies ==> Distinct(x.ownerStrategies[o]))
  }

  ghost predicate Listed(x: Index, o: Principal, c: Principal) {
    o in x.ownerStrategies && c in x.ownerStrategies[o]
  }

  /** Canisters of suspended executions are pairwise different and not indexed yet. */
  ghost predicate CanistersApart(tasks: map<nat, Task>, x: Index, canisters: set<Principal>) {
    && x.strategies.Keys <= canisters
    && (forall t :: t in tasks && HasCanister(tasks[t]) ==>
          tasks[t].canister in canisters && tasks[t].canister !in x.strategies)
    && (forall t, t' :: t in tasks && t' in tasks && t != t' && HasCanister(tasks[t]) && HasCanister(tasks[t']) ==>
          tasks[t].canister != tasks[t'].canister)
  }

  ghost predicate DeployedIndexed(rs: Records, x: Index) {
    forall id :: id in rs && rs[id].status.Deployed? ==>
      && rs[id].canisterId.Some? && rs[id].canisterId.value in x.strategies
      && x.strategies[rs[id].canisterId.value].owner == rs[id].owner
  }

  ghost predicate IndexInv(m: Machine) {
    && Inv(m)
    && IndexOk(m.s.index)
    && CanistersApart(m.tasks, m.s.index, m.h.canisters)
    && DeployedIndexed(m.s.records, m.s.index)
  }

  lemma IndexAfterStore(x: Index, m: StrategyMetadata)
    requires IndexOk(x) && m.canisterId !in x.strategies
    ensures IndexOk(StoreStrategyMetadata(x, m))
  {
    var x' := StoreStrategyMetadata(x, m);
    var list := if m.owner in x.ownerStrategies then x.ownerStrategies[m.owner] else [];
    assert !Listed(x, m.owner, m.canisterId);
    forall o, c ensures Listed(x', o, c) <==> Listed(x, o, c) || (o == m.owner && c == m.canisterId) {
      assert Listed(x', m.owner, c) <==> c in list + [m.canisterId];
    }
    assert Distinct(list + [m.canisterId]) by {
      assert m.canisterId !in list;
    }
    forall c | c in x'.strategies ensures x'.strategies[c].canisterId == c && Listed(x', x'.strategies[c].owner, c) {
      if c != m.canisterId {
        assert Listed(x, x.strategies[c].owner, c);
      }
    }
  }

  lemma DeployedAfterStore(rs: Records, x: Index, m: StrategyMetadata, id: string, r: DeploymentRecord)
    requires DeployedIndexed(rs, x) && m.canisterId !in x.strategies
    requires r.canisterId == Some(m.canisterId) && r.owner == m.owner
    ensures DeployedIndexed(rs[id := r], StoreStrategyMetadata(x, m))
  {
  }

  lemma ApartAfterStore(tasks: map<nat, Task>, x: Index, canisters: set<Principal>, t: nat, m: StrategyMetadata)
    requires CanistersApart(tasks, x, canisters) && t in tasks && HasCanister(tasks[t]) && m.canisterId == tasks[t].canister
    ensures CanistersApart(tasks - {t}, StoreStrategyMetadata(x, m), canisters)
  {
  }

  lemma ApartAfterResume(tasks: map<nat, Task>, x: Index, canisters: set<Principal>, t: nat)
    requires CanistersApart(tasks, x, canisters)
    ensures CanistersApart(tasks - {t}, x, canisters)
  {
  }

  /** A task moves on with its own canister. */
  lemma ApartAfterAdvance(tasks: map<nat, Task>, x: Index, canisters: set<Principal>, t: nat, t': nat, task: Task)
    requires CanistersApart(tasks, x, canisters) && t in tasks && HasCanister(tasks[t]) && t' !in tasks
    requires HasCanister(task) && task.canister == tasks[t].canister
    ensures CanistersApart((tasks - {t})[t' := task], x, canisters)
  {
  }

  /** A task receives a fresh canister. */
  lemma ApartAfterFresh(tasks: map<nat, Task>, x: Index, canisters: set<Principal>, t': nat, task: Task)
    requires CanistersApart(tasks, x, canisters) && t' !in tasks
    requires HasCanister(task) && task.canister !in canisters
    ensures CanistersApart(tasks[t' := task], x, canisters + {task.canister})
  {
  }

  lemma ApartAfterPlain(tasks: map<nat, Task>, x: Index, canisters: set<Principal>, t': nat, task: Task)
    requires CanistersApart(tasks, x, canisters) && t' !in tasks && !HasCanister(task)
    ensures CanistersApart(tasks[t' := task], x, canisters)
  {
  }

  /** Any change of one record to something not deployed. */
  lemma DeployedAfterOther(rs: Records, x: Index, id: string, r: DeploymentRecord)
    requires DeployedIndexed(rs, x) && !r.status.Deployed?
    ensures DeployedIndexed(rs[id := r], x)
  {
  }

  // ---------- Steps ----------

  lemma IndexAfterRequest(m: Machine, caller: Principal, request: Request, cycles: nat)
    requires IndexInv(m) && Inv(DoRequest(m, caller, request, cycles))
    ensures IndexInv(DoRequest(m, caller, request, cycles))
  {
    hide Inv, IndexOk, CanistersApart, DeployedIndexed, DoRequest, Post, Ids.DeploymentId;
    RequestCases(m, caller, request, cycles);
    if Accepted(m, caller, request) && request.encodes {
      IndexAfterAccepted(m, caller, request, cycles);
    }
  }

  lemma IndexAfterAccepted(m: Machine, caller: Principal, request: Request, cycles: nat)
    requires IndexInv(m) && Accepted(m, caller, request) && request.encodes
    requires Inv(DoRequest(m, caller, request, cycles))
    ensures IndexInv(DoRequest(m, caller, request, cycles))
  {
    hide Inv, IndexOk, CanistersApart, DeployedIndexed, DoRequest, Post, Ids.DeploymentId;
    RequestCases(m, caller, request, cycles);
    var m' := DoRequest(m, caller, request, cycles);
    var id := NewId(m, caller);
    var first := NewRecord(id, SelfHedging, caller, m.s.fee, m.now);
    DeployedAfterOther(m.s.records, m.s.index, id, first);
    if cycles < CREATION_CYCLES {
      DeployedAfterOther(m.s.records[id := first], m.s.index, id, RefundedRecord(first, None, m.now));
      assert m'.s.index == m.s.index && m'.tasks == m.tasks && m'.h.canisters == m.h.canisters;
    } else {
      NewTaskSlot(m);
      ApartAfterPlain(m.tasks, m.s.index, m.h.canisters, m.nextTask, CreateCall(Execution(id, first, true, caller)));
      assert m'.s.index == m.s.index && m'.h.canisters == m.h.canisters;
      assert m'.s.records == m.s.records[id := first];
    }
  }

  lemma NewTaskSlot(m: Machine)
    requires Inv(m)
    ensures m.nextTask !in m.tasks && FeesPositive(m)
    ensures forall id :: id in m.s.records ==> !m.s.records[id].status.DeploymentFailed?
    ensures forall t :: t in m.tasks && IsExecution(m.tasks[t]) ==> m.tasks[t].x.record.strategyType.SelfHedging?
    ensures forall t :: t in m.tasks && IsExecution(m.tasks[t]) && m.tasks[t].x.id in m.s.records ==>
              m.tasks[t].x.record.owner == m.s.records[m.tasks[t].x.id].owner
  {
    hide BooksMatchLog, IdsOk, ExternalOk, FeesOk, RefundSumsOk, CountsOk, ExecutionsOk;
  }

  lemma IndexAfterForce(m: Machine, admin: Principal, id: string, cycles: nat)
    requires IndexInv(m) && Inv(DoForce(m, admin, id, cycles))
    ensures IndexInv(DoForce(m, admin, id, cycles))
  {
    NewTaskSlot(m);
    hide Inv, IndexOk, CanistersApart, DeployedIndexed, DoForce, Post;
    ForceCases(m, admin, id, cycles);
    if id in m.s.records {
      if cycles < CREATION_CYCLES {
        DeployedAfterOther(m.s.records, m.s.index, id, RefundedRecord(m.s.records[id], None, m.now));
      } else {
        ApartAfterPlain(m.tasks, m.s.index, m.h.canisters, m.nextTask, CreateCall(Execution(id, m.s.records[id], false, admin)));
      }
    }
  }

  lemma IndexAfterCreateAnswered(m: Machine, t: nat, created: Option<Principal>)
    requires IndexInv(m) && t in m.tasks && m.tasks[t].CreateCall? && Inv(DoCreateAnswered(m, t, created))
    requires created.Some? ==> created.value !in m.h.canisters
    ensures IndexInv(DoCreateAnswered(m, t, created))
  {
    NewTaskSlot(m);
    ApartAfterResume(m.tasks, m.s.index, m.h.canisters, t);
    hide Inv, IndexOk, CanistersApart, DeployedIndexed, DoCreateAnswered, Post;
    CreateAnsweredCases(m, t, created);
    var x := m.tasks[t].x;
    if created.None? {
      if x.id in m.s.records {
        DeployedAfterOther(m.s.records, m.s.index, x.id, RefundedRecord(m.s.records[x.id], None, m.now));
      }
    } else {
      ApartWithMore(m.tasks - {t}, m.s.index, m.h.canisters, created.value);
      if x.id in m.s.records {
        DeployedAfterOther(m.s.records, m.s.index, x.id, Advanced(m.s.records[x.id], CanisterCreated, created.value, m.now));
        ApartAfterFresh(m.tasks - {t}, m.s.index, m.h.canisters, m.nextTask, InstallCall(x, created.value));
      }
    }
  }

  lemma ApartWithMore(tasks: map<nat, Task>, x: Index, canisters: set<Principal>, c: Principal)
    requires CanistersApart(tasks, x, canisters)
    ensures CanistersApart(tasks, x, canisters + {c})
  {
  }

  lemma IndexAfterInstallAnswered(m: Machine, t: nat, installed: bool, decodes: bool)
    requires IndexInv(m) && t in m.tasks && m.tasks[t].InstallCall? && Inv(DoInstallAnswered(m, t, installed, decodes))
    ensures IndexInv(DoInstallAnswered(m, t, installed, decodes))
  {
    NewTaskSlot(m);
    ApartAfterResume(m.tasks, m.s.index, m.h.canisters, t);
    hide Inv, IndexOk, CanistersApart, DeployedIndexed, DoInstallAnswered, Post;
    InstallAnsweredCases(m, t, installed, decodes);
    var x := m.tasks[t].x;
    var cid := m.tasks[t].canister;
    if x.id in m.s.records {
      if installed && decodes {
        DeployedAfterOther(m.s.records, m.s.index, x.id, Advanced(m.s.records[x.id], CodeInstalled, cid, m.now));
        ApartAfterAdvance(m.tasks, m.s.index, m.h.canisters, t, m.nextTask, InitCall(x, cid));
      } else {
        DeployedAfterOther(m.s.records, m.s.index, x.id, RefundedRecord(m.s.records[x.id], Some(cid), m.now));
      }
    }
  }

  lemma IndexAfterInitAnswered(m: Machine, t: nat, initialized: bool, decodes: bool)
    requires IndexInv(m) && t in m.tasks && m.tasks[t].InitCall? && Inv(DoInitAnswered(m, t, initialized, decodes))
    ensures IndexInv(DoInitAnswered(m, t, initialized, decodes))
  {
    NewTaskSlot(m);
    ApartAfterResume(m.tasks, m.s.index, m.h.canisters, t);
    var cid := m.tasks[t].canister;
    assert cid !in m.s.index.strategies;
    hide Inv, IndexOk, CanistersApart, DeployedIndexed, DoInitAnswered, Post, StoreStrategyMetadata;
    InitAnsweredCases(m, t, initialized, decodes);
    var x := m.tasks[t].x;
    if x.id in m.s.records {
      if initialized && decodes {
        var md := StrategyMetadata(cid, x.record.strategyType, x.record.owner, m.now);
        IndexAfterStore(m.s.index, md);
        DeployedAfterStore(m.s.records, m.s.index, md, x.id, Advanced(m.s.records[x.id], Deployed, cid, m.now));
        ApartAfterStore(m.tasks, m.s.index, m.h.canisters, t, md);
      } else {
        DeployedAfterOther(m.s.records, m.s.index, x.id, RefundedRecord(m.s.records[x.id], Some(cid), m.now));
      }
    }
  }

  lemma IndexAfterCleanup(m: Machine, shouldArchive: bool, order: seq<string>)
    requires IndexInv(m) && Enumerates(order, m.s.records) && Inv(DoCleanup(m, shouldArchive, order))
    ensures IndexInv(DoCleanup(m, shouldArchive, order))
  {
    NewTaskSlot(m);
    hide Inv, IndexOk, CanistersApart, DeployedIndexed, DoCleanup, Enumerates;
    var gone := CleanupCases(m, shouldArchive, order);
    DeployedAfterRemoval(m.s.records, m.s.index, gone);
  }

  lemma DeployedAfterRemoval(rs: Records, x: Index, gone: set<string>)
    requires DeployedIndexed(rs, x)
    ensures DeployedIndexed(rs - gone, x)
  {
  }

  lemma IndexAfterUpgrade(m: Machine)
    requires IndexInv(m) && Inv(DoUpgrade(m))
    ensures IndexInv(DoUpgrade(m))
  {
    hide Inv, IndexOk;
    UpgradeRoundTrip(m.s);
  }

  lemma ApartAfterSubset(tasks: map<nat, Task>, tasks': map<nat, Task>, x: Index, canisters: set<Principal>)
    requires CanistersApart(tasks, x, canisters)
    requires forall t :: t in tasks' && HasCanister(tasks'[t]) ==> t in tasks && tasks[t] == tasks'[t]
    ensures CanistersApart(tasks', x, canisters)
  {
  }

  ghost predicate SameIndex(m: Machine, m': Machine) {
    && m'.s.records == m.s.records && m'.s.index == m.s.index && m'.h.canisters == m.h.canisters
    && (forall t :: t in m'.tasks && HasCanister(m'.tasks[t]) ==> t in m.tasks && m.tasks[t] == m'.tasks[t])
  }

  lemma LedgerAnswersKeepIndex(m: Machine, task: nat, paid: bool)
    requires task in m.tasks
    ensures m.tasks[task].DepositCall? ==> SameIndex(m, DoEndDeposit(m, task, paid))
    ensures m.tasks[task].WithdrawCall? ==> SameIndex(m, DoEndWithdrawal(m, task, paid))
  {
    hide FinishDeposit, FinishWithdrawal;
  }

  lemma LedgerStepKeepsIndex(m: Machine, e: Event)
    requires m.nextTask !in m.tasks
    requires e.Tick? || e.SetFee? || e.Adjust? || e.BeginDeposit? || e.EndDeposit? || e.BeginWithdrawal? || e.EndWithdrawal?
    ensures SameIndex(m, Step(m, e))
  {
    hide AdjustBalance, CheckDeposit, CheckWithdrawal, DoEndDeposit, DoEndWithdrawal,
         DoRequest, DoForce, DoCreateAnswered, DoInstallAnswered, DoInitAnswered, DoCleanup, DoUpgrade, Enumerates;
    match e
    case EndDeposit(task, paid) => if task in m.tasks { LedgerAnswersKeepIndex(m, task, paid); }
    case EndWithdrawal(task, paid) => if task in m.tasks { LedgerAnswersKeepIndex(m, task, paid); }
    case _ =>
  }

  lemma IndexAfterLedgerStep(m: Machine, e: Event)
    requires IndexInv(m) && Inv(Step(m, e))
    requires e.Tick? || e.SetFee? || e.Adjust? || e.BeginDeposit? || e.EndDeposit? || e.BeginWithdrawal? || e.EndWithdrawal?
    ensures IndexInv(Step(m, e))
  {
    NewTaskSlot(m);
    LedgerStepKeepsIndex(m, e);
    hide Inv, IndexOk, CanistersApart, DeployedIndexed, Step;
    ApartAfterSubset(m.tasks, Step(m, e).tasks, m.s.index, m.h.canisters);
  }

  lemma IndexAfterAnswer(m: Machine, e: Event)
    requires IndexInv(m) && FreshCanister(m, e) && Inv(Step(m, e))
    requires e.CreateAnswered? || e.InstallAnswered? || e.InitAnswered?
    ensures IndexInv(Step(m, e))
  {
    hide IndexInv, Inv, DoCreateAnswered, DoInstallAnswered, DoInitAnswered;
    match e
    case CreateAnswered(t, created) =>
      if t in m.tasks && m.tasks[t].CreateCall? { IndexAfterCreateAnswered(m, t, created); }
    case InstallAnswered(t, installed, decodes) =>
      if t in m.tasks && m.tasks[t].InstallCall? { IndexAfterInstallAnswered(m, t, installed, decodes); }
    case InitAnswered(t, initialized, decodes) =>
      if t in m.tasks && m.tasks[t].InitCall? { IndexAfterInitAnswered(m, t, initialized, decodes); }
  }

  lemma IndexAfterCommand(m: Machine, e: Event)
    requires IndexInv(m) && Inv(Step(m, e)) && Step(m, e).h.issued <= TWO_64
    requires e.RequestStrategy? || e.ForceExecute? || e.Cleanup? || e.UpgradeCanister?
    ensures IndexInv(Step(m, e))
  {
    hide IndexInv, Inv, DoRequest, DoForce, DoCleanup, DoUpgrade, Enumerates;
    match e
    case RequestStrategy(caller, request, cycles) =>
      if caller != ANONYMOUS { IndexAfterRequest(m, caller, request, cycles); }
    case ForceExecute(admin, id, cycles) => IndexAfterForce(m, admin, id, cycles);
    case Cleanup(shouldArchive, order) =>
      if Enumerates(order, m.s.records) { IndexAfterCleanup(m, shouldArchive, order); }
    case UpgradeCanister => IndexAfterUpgrade(m);
  }

  lemma InvInside(m: Machine)
    requires IndexInv(m)
    ensures Inv(m)
  {
    hide Inv;
  }

  lemma IndexAfterStep(m: Machine, e: Event)
    requires IndexInv(m) && FreshCanister(m, e) && Step(m, e).h.issued <= TWO_64
    ensures IndexInv(Step(m, e))
  {
    hide IndexInv, Inv, Step, FreshCanister;
    InvInside(m);
    InvAfterStep(m, e);
    if e.CreateAnswered? || e.InstallAnswered? || e.InitAnswered? {
      IndexAfterAnswer(m, e);
    } else if e.RequestStrategy? || e.ForceExecute? || e.Cleanup? || e.UpgradeCanister? {
      IndexAfterCommand(m, e);
    } else {
      IndexAfterLedgerStep(m, e);
    }
  }

  lemma {:induction false} IndexInvOnEveryRun(r: Run, k: nat)
    requires YieldPoint(r, k) && FreshCanisters(r)
    ensures IndexInv(r.states[k])
  {
    if k == 0 {
      var now, self :| r.states[0] == Initial(now, self);
      InitialInv(now, self);
    } else {
      hide IndexInv, Step, FreshCanister;
      YieldPointBefore(r, k);
      IndexInvOnEveryRun(r, k - 1);
      IndexAfterStep(r.states[k - 1], r.events[k - 1]);
    }
  }

  /** A look-up of known ids answers with their metadata, in order. */
  lemma {:induction false} LookupKnown(strategies: map<Principal, StrategyMetadata>, ids: seq<Principal>)
    requires forall i :: 0 <= i < |ids| ==> ids[i] in strategies
    ensures |Lookup(strategies, ids)| == |ids|
    ensures forall i :: 0 <= i < |ids| ==> Lookup(strategies, ids)[i] == strategies[ids[i]]
  {
    if ids != [] {
      LookupKnown(strategies, ids[..|ids| - 1]);
    }
  }

  /** The indexed query answers what a scan of the strategy table would: every strategy of the
      owner exactly once and no other. Deployed records have their canister in the table. */
  lemma IndexRefinesScan(r: Run, k: nat, owner: Principal)
    requires YieldPoint(r, k) && FreshCanisters(r)
    ensures var x := r.states[k].s.index;
            var answer := GetStrategiesByOwner(x, owner);
            && Distinct(answer)
            && (forall md :: md in answer <==> md.canisterId in x.strategies && x.strategies[md.canisterId] == md && md.owner == owner)
    ensures DeployedIndexed(r.states[k].s.records, r.states[k].s.index)
  {
    IndexInvOnEveryRun(r, k);
    QueryIsScan(r.states[k].s.index, owner);
  }

  lemma QueryIsScan(x: Index, owner: Principal)
    requires IndexOk(x)
    ensures var answer := GetStrategiesByOwner(x, owner);
            && Distinct(answer)
            && (forall md :: md in answer <==> md.canisterId in x.strategies && x.strategies[md.canisterId] == md && md.owner == owner)
  {
    var answer := GetStrategiesByOwner(x, owner);
    if owner in x.ownerStrategies {
      var ids := x.ownerStrategies[owner];
      forall i | 0 <= i < |ids| ensures ids[i] in x.strategies {
        assert Listed(x, owner, ids[i]);
      }
      LookupKnown(x.strategies, ids);
      forall i | 0 <= i < |ids| ensures answer[i].canisterId == ids[i] && answer[i].owner == owner {
        assert Listed(x, owner, ids[i]);
      }
      forall md: StrategyMetadata | md.canisterId in x.strategies && x.strategies[md.canisterId] == md && md.owner == owner ensures md in answer {
        assert Listed(x, owner, md.canisterId);
        var i :| 0 <= i < |ids| && ids[i] == md.canisterId;
        assert answer[i] == md;
      }
    } else {
      forall md: StrategyMetadata | md.canisterId in x.strategies && x.strategies[md.canisterId] == md ensures md.owner != owner {
        assert Listed(x, md.owner, md.canisterId);
      }
    }
  }
}
