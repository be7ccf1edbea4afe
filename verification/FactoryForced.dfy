/** Forced executions: how often a fee can go back, exactly, and when a forced execution makes a
    second refund possible. */
module FactoryForced {
  import opened Common
  import opened Ledger
  import opened Deployments
  import opened Factory
  import opened FactoryMachine
  import opened FactorySegments
  import opened FactoryInvariant
  import opened FactoryConservation
  import opened FactoryTrace
  import opened FactoryView
  import opened FactorySimulation
  import opened FactoryStranded

  /** The refunds a deployment has had and those its suspended executions may still bring. */
  ghost function Potential(m: Machine, id: string): nat { At(m.h.handled, id) + |InFlight(m.tasks, id)| }

  // ---------- No more than the potential ----------

  lemma PotentialOfView(m: Machine, id: string)
    ensures Potential(m, id) == Weight(ViewOf(m, id))
  {
    ExecutionsAreInFlight(m.tasks, id);
  }

  ghost function Weight(v: View): nat { v.handled + |v.tasks| }

  lemma WeightAfterAdvance(v: View, mv: Move, id: string)
    requires mv.Advance? && Legal(v, mv)
    ensures Weight(AfterMove(v, mv, id)) == Weight(v)
  {
    hide Advanced, NextCall;
    FewerTasks(v.tasks, mv.t);
    MoreTasks(v.tasks - {mv.t}, mv.n, mv.task);
  }

  lemma WeightAfterEnd(v: View, mv: Move, id: string)
    requires (mv.Deploy? || mv.GiveBack? || mv.Drop?) && Legal(v, mv)
    ensures Weight(AfterMove(v, mv, id)) == Weight(v) - (if mv.GiveBack? then 0 else 1)
  {
    hide Advanced, RefundedRecord, CanisterOf;
    FewerTasks(v.tasks, mv.t);
  }

  lemma WeightAfterForce(v: View, mv: Move, id: string)
    requires ByForce(mv) && Legal(v, mv)
    ensures Weight(AfterMove(v, mv, id)) == Weight(v) + 1
  {
    hide RefundedRecord;
    if mv.ForceCall? {
      MoreTasks(v.tasks, mv.n, CreateCall(Execution(id, v.live.value, false, mv.admin)));
    }
  }

  lemma StaysOnRecord(v: View, mv: Move, id: string)
    requires Legal(v, mv) && v.Record().Some?
    ensures AfterMove(v, mv, id).Record().Some?
  {
    hide Advanced, RefundedRecord, NextCall, CanisterOf, Completed;
  }

  /** Every move of a known deployment that is not forced keeps or lowers the potential; a forced one
      raises it by exactly one. */
  lemma PotentialAfterMove(v: View, mv: Move, id: string)
    requires Legal(v, mv) && v.Record().Some?
    ensures AfterMove(v, mv, id).Record().Some?
    ensures if ByForce(mv) then Weight(AfterMove(v, mv, id)) == Weight(v) + 1 else Weight(AfterMove(v, mv, id)) <= Weight(v)
  {
    StaysOnRecord(v, mv, id);
    if ByForce(mv) || mv.Advance? || mv.Deploy? || mv.GiveBack? || mv.Drop? {
      hide Legal, AfterMove, Weight;
      match mv
      case Advance(_, _, _, _) => WeightAfterAdvance(v, mv, id);
      case ForceCall(_, _) => WeightAfterForce(v, mv, id);
      case ForceRefund(_) => WeightAfterForce(v, mv, id);
      case _ => WeightAfterEnd(v, mv, id);
    }
  }

  lemma PotentialAfterStep(m: Machine, e: Event, id: string)
    requires Inv(m) && Step(m, e).h.issued <= TWO_64 && id in All(m)
    ensures id in All(Step(m, e))
    ensures if e.ForceExecute? && e.id == id && id in m.s.records then Potential(Step(m, e), id) == Potential(m, id) + 1
            else Potential(Step(m, e), id) <= Potential(m, id)
  {
    hide Inv, Step, ViewOf, Legal, AfterMove, Potential, All, Weight;
    var mv := MoveOfStep(m, e, id);
    RecordInAll(m, id);
    RecordInAll(Step(m, e), id);
    PotentialAfterMove(ViewOf(m, id), mv, id);
    PotentialOfView(m, id);
    PotentialOfView(Step(m, e), id);
  }

  lemma {:induction false} PotentialOnRun(r: Run, j: nat, k: nat, id: string)
    requires YieldPoint(r, k) && j <= k && id in All(r.states[j]) && NotForced(r, j, k, id)
    ensures id in All(r.states[k]) && Potential(r.states[k], id) <= Potential(r.states[j], id)
  {
    if j < k {
      hide Step, Inv, Potential, All;
      YieldPointBefore(r, k);
      PotentialOnRun(r, j, k - 1, id);
      InvOnEveryRun(r, k - 1);
      PotentialAfterStep(r.states[k - 1], r.events[k - 1], id);
    }
  }

  /** While a known deployment is not forced, its refunds stay within those it had plus one for each
      execution suspended at the start. */
  lemma RefundsBounded(r: Run, j: nat, k: nat, id: string)
    requires YieldPoint(r, k) && j <= k && id in All(r.states[j]) && NotForced(r, j, k, id)
    ensures RefundCount(r.states[k].s.books.log, id) <= At(r.states[j].h.handled, id) + |InFlight(r.states[j].tasks, id)|
  {
    hide IsRun, All, RefundCount, InFlight;
    PotentialOnRun(r, j, k, id);
    RefundsAreHandledExecutions(r, k, id);
  }

  // ---------- Every refund of the potential can happen ----------

  ghost function AfterEvents(m: Machine, es: seq<Event>): Machine
    decreases |es|
  {
    if es == [] then m else AfterEvents(Step(m, es[0]), es[1..])
  }

  ghost predicate NeverForces(es: seq<Event>, id: string) {
    forall i :: 0 <= i < |es| && es[i].ForceExecute? ==> es[i].id != id
  }

  /** Some continuation that does not force `id` brings it to `n` refunds. */
  ghost predicate CanReach(m: Machine, id: string, n: nat) {
    exists es :: NeverForces(es, id) && AfterEvents(m, es).h.issued <= TWO_64 && RefundCount(AfterEvents(m, es).s.books.log, id) >= n
  }

  lemma {:induction false} IssuedAfterEvents(m: Machine, es: seq<Event>)
    ensures m.h.issued <= AfterEvents(m, es).h.issued
    decreases |es|
  {
    if es != [] {
      hide Step;
      IssuedGrows(m, es[0]);
      IssuedAfterEvents(Step(m, es[0]), es[1..]);
    }
  }

  lemma {:induction false} PotentialAfterEvents(m: Machine, es: seq<Event>, id: string)
    requires Inv(m) && id in All(m) && NeverForces(es, id) && AfterEvents(m, es).h.issued <= TWO_64
    ensures Inv(AfterEvents(m, es)) && Potential(AfterEvents(m, es), id) <= Potential(m, id)
    decreases |es|
  {
    if es != [] {
      assert NeverForces(es[1..], id) && (es[0].ForceExecute? ==> es[0].id != id);
      hide Step, Inv, Potential, All, NeverForces;
      IssuedAfterEvents(Step(m, es[0]), es[1..]);
      InvAfterStep(m, es[0]);
      PotentialAfterStep(m, es[0], id);
      PotentialAfterEvents(Step(m, es[0]), es[1..], id);
    }
  }

  /** The answer that makes a suspended execution fail. */
  function Failing(t: nat, task: Task): Event
    requires IsExecution(task)
  {
    match task
    case CreateCall(_) => CreateAnswered(t, None)
    case InstallCall(_, _) => InstallAnswered(t, false, false)
    case InitCall(_, _) => InitAnswered(t, false, false)
  }

  /** A failing execution of a stored deployment is one refund, and takes nothing from the others. */
  lemma FailureRefunds(m: Machine, t: nat)
    requires Inv(m) && t in m.tasks && IsExecution(m.tasks[t]) && m.tasks[t].x.id in m.s.records
    ensures var x := m.tasks[t].x;
            Step(m, Failing(t, m.tasks[t])) == RefundIn(Resume(m, t), x.id, CanisterOf(m.tasks[t]), x.caller)
  {
    hide Inv, DoCreateAnswered, DoInstallAnswered, DoInitAnswered, RefundIn, FeesPositive;
    FactsInside(m);
    match m.tasks[t]
    case CreateCall(_) => CreateAnsweredCases(m, t, None);
    case InstallCall(_, _) => InstallAnsweredCases(m, t, false, false);
    case InitCall(_, _) => InitAnsweredCases(m, t, false, false);
  }

  lemma AfterFailure(m: Machine, t: nat)
    requires Inv(m) && t in m.tasks && IsExecution(m.tasks[t]) && m.tasks[t].x.id in m.s.records
    ensures var id := m.tasks[t].x.id;
            var m' := Step(m, Failing(t, m.tasks[t]));
            && id in m'.s.records && m'.h.issued == m.h.issued
            && At(m'.h.handled, id) == At(m.h.handled, id) + 1
            && InFlight(m'.tasks, id) == InFlight(m.tasks, id) - {t}
  {
    hide Step, Inv, Post;
    FailureRefunds(m, t);
  }

  /** All suspended executions of a stored deployment can fail, one after the other. */
  lemma {:induction false} AllFail(m: Machine, id: string) returns (es: seq<Event>)
    requires Inv(m) && id in m.s.records && m.h.issued <= TWO_64
    ensures NeverForces(es, id)
    ensures Inv(AfterEvents(m, es)) && AfterEvents(m, es).h.issued == m.h.issued && At(AfterEvents(m, es).h.handled, id) == Potential(m, id)
    decreases |InFlight(m.tasks, id)|
  {
    es := [];
    hide Step, Inv, InFlight;
    if InFlight(m.tasks, id) != {} {
      var t :| t in InFlight(m.tasks, id);
      hide AfterEvents, NeverForces;
      Suspended(m, id, t);
      var e := Failing(t, m.tasks[t]);
      AfterFailure(m, t);
      InvAfterStep(m, e);
      var rest := AllFail(Step(m, e), id);
      AfterFirst(m, e, rest, id);
      es := [e] + rest;
    }
  }

  lemma Suspended(m: Machine, id: string, t: nat)
    requires t in InFlight(m.tasks, id)
    ensures t in m.tasks && IsExecution(m.tasks[t]) && m.tasks[t].x.id == id && !Failing(t, m.tasks[t]).ForceExecute?
  {
  }

  lemma AfterFirst(m: Machine, e: Event, es: seq<Event>, id: string)
    requires NeverForces(es, id) && !e.ForceExecute?
    ensures AfterEvents(m, [e] + es) == AfterEvents(Step(m, e), es) && NeverForces([e] + es, id)
  {
    hide Step;
    assert ([e] + es)[1..] == es;
  }

  /** The number of refunds a stored deployment can reach without being forced is exactly the number
      it has had plus the number of its suspended executions. */
  lemma MostRefunds(m: Machine, id: string, n: nat)
    requires Inv(m) && id in m.s.records && m.h.issued <= TWO_64
    ensures CanReach(m, id, n) <==> n <= At(m.h.handled, id) + |InFlight(m.tasks, id)|
  {
    StoredIsKnown(m, id);
    hide Inv, Step, AfterEvents, All, RefundCount, InFlight;
    if n <= Potential(m, id) {
      var es := AllFail(m, id);
      CountedInLog(AfterEvents(m, es), id);
    }
    forall es | NeverForces(es, id) && AfterEvents(m, es).h.issued <= TWO_64
      ensures RefundCount(AfterEvents(m, es).s.books.log, id) <= Potential(m, id)
    {
      PotentialAfterEvents(m, es, id);
      CountedInLog(AfterEvents(m, es), id);
    }
  }

  lemma StoredIsKnown(m: Machine, id: string)
    requires id in m.s.records
    ensures id in All(m)
  {
  }

  lemma CountedInLog(m: Machine, id: string)
    requires Inv(m)
    ensures RefundCount(m.s.books.log, id) == At(m.h.handled, id)
  {
    hide RefundCount;
  }

  // ---------- A forced execution ----------

  /** A forced execution of a stored deployment, whatever the cycles and the administrator, makes a
      second refund possible exactly if there was a refund or an unfinished execution before. */
  lemma ForceAllowsSecondRefund(m: Machine, admin: Principal, id: string, cycles: nat)
    requires Inv(m) && id in m.s.records && m.h.issued <= TWO_64
    ensures var m' := Step(m, ForceExecute(admin, id, cycles));
            && Potential(m', id) == Potential(m, id) + 1
            && (CanReach(m', id, 2) <==> At(m.h.handled, id) > 0 || InFlight(m.tasks, id) != {})
  {
    hide Step, Inv, CanReach, RefundCount, All;
    AfterForce(m, admin, id, cycles);
    MostRefunds(Step(m, ForceExecute(admin, id, cycles)), id, 2);
    assert InFlight(m.tasks, id) == {} <==> |InFlight(m.tasks, id)| == 0;
  }

  lemma AfterForce(m: Machine, admin: Principal, id: string, cycles: nat)
    requires Inv(m) && id in m.s.records && m.h.issued <= TWO_64
    ensures var m' := Step(m, ForceExecute(admin, id, cycles));
            Inv(m') && id in m'.s.records && m'.h.issued == m.h.issued && Potential(m', id) == Potential(m, id) + 1
  {
    var e := ForceExecute(admin, id, cycles);
    hide DoForce, Inv, InFlight, Potential;
    ForceKeepsIssued(m, admin, id, cycles);
    ForceKeepsRecord(m, admin, id, cycles);
    StoredIsKnown(m, id);
    hide Step, All;
    PotentialAfterStep(m, e, id);
    InvAfterStep(m, e);
  }

  lemma ForceKeepsRecord(m: Machine, admin: Principal, id: string, cycles: nat)
    requires Inv(m) && id in m.s.records
    ensures Step(m, ForceExecute(admin, id, cycles)) == DoForce(m, admin, id, cycles) && id in DoForce(m, admin, id, cycles).s.records
  {
    hide Inv, DoForce, FeesPositive, Post;
    FactsInside(m);
    ForceParts(m, admin, id, cycles);
  }

  /** For a deployment that was never forced an administrator can tell before the call: a forced
      execution makes a second refund possible exactly if the record says Refunded, or is unfinished
      and was not met by an upgrade. Forcing a deployed or a stranded deployment is safe. */
  lemma ForceIsSafeExactly(r: Run, k: nat, admin: Principal, id: string, cycles: nat)
    requires YieldPoint(r, k) && NotForced(r, 0, k, id) && id in r.states[k].s.records
    ensures var m := r.states[k];
            CanReach(Step(m, ForceExecute(admin, id, cycles)), id, 2) <==>
            m.s.records[id].status.Refunded? || (!Completed(m.s.records[id]) && !MetUpgrade(r, k, id))
  {
    var m := r.states[k];
    hide Step, Inv, CanReach, MetUpgrade, NotForced, IsRun, Sim, FindsRecord;
    InvOnEveryRun(r, k);
    ForceAllowsSecondRefund(m, admin, id, cycles);
    RecordsFollowTasks(r, k, id);
    SimOnEveryRun(r, k, id);
    StoredIsKnown(m, id);
    HandledIfRefunded(m, id);
    AllIsLive(m, id);
  }

  lemma AllIsLive(m: Machine, id: string)
    requires id in m.s.records
    ensures id in All(m) && All(m)[id] == m.s.records[id]
  {
  }
}
