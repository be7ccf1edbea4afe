/** Deployments an upgrade leaves without a task, and with them the exact relation of a record to
    its tasks on every run that does not force it. */
module FactoryStranded {
  import opened Common
  import opened Ledger
  import opened Deployments
  import opened Factory
  import opened FactoryMachine
  import opened FactorySegments
  import opened FactoryInvariant
  import opened FactoryConservation
  import opened FactoryTrace
  import opened FactoryView
  import opened FactorySimulation

  /** A paid deployment nobody works on: neither delivered nor refunded, and without a task. */
  ghost predicate Stranded(m: Machine, id: string) {
    id in m.s.records && !Completed(m.s.records[id]) && InFlight(m.tasks, id) == {}
  }

  /** Every unfinished record has a task. */
  ghost predicate Attended(m: Machine) {
    forall id :: id in m.s.records && !Completed(m.s.records[id]) ==> InFlight(m.tasks, id) != {}
  }

  /** Some earlier upgrade found `id` stored and unfinished. */
  ghost predicate MetUpgrade(r: Run, k: nat, id: string) {
    exists j {:trigger r.events[j]} :: 0 <= j < k && j < |r.events| && j < |r.states| && r.events[j].UpgradeCanister?
                                       && id in r.states[j].s.records && !Completed(r.states[j].s.records[id])
  }

  lemma StrandedView(m: Machine, id: string)
    ensures var v := ViewOf(m, id);
            && (Stranded(m, id) <==> v.live.Some? && !Completed(v.live.value) && v.tasks == map[])
            && (InFlight(m.tasks, id) == {} <==> v.tasks == map[])
            && |InFlight(m.tasks, id)| == |v.tasks|
  {
    ExecutionsAreInFlight(m.tasks, id);
    assert ViewOf(m, id).tasks == map[] <==> ViewOf(m, id).tasks.Keys == {};
  }

  /** After an upgrade every record has what it needs exactly if none was unfinished. */
  lemma UpgradeAttends(m: Machine)
    ensures Attended(DoUpgrade(m)) <==> forall id :: id in m.s.records ==> Completed(m.s.records[id])
  {
    UpgradeLogs(m);
    forall id ensures InFlight(DoUpgrade(m).tasks, id) == {} {
    }
  }

  /** A stranded deployment keeps its record and all its counts, and gets no task, in any step but a
      forced execution of it, even when others are forced. */
  lemma StrandedStays(m: Machine, e: Event, id: string)
    requires Inv(m) && Step(m, e).h.issued <= TWO_64 && Stranded(m, id)
    requires e.ForceExecute? ==> e.id != id
    ensures Stranded(Step(m, e), id) && ViewOf(Step(m, e), id) == ViewOf(m, id)
  {
    hide Inv, Step, ViewOf, Stranded;
    StrandedView(m, id);
    StrandedView(Step(m, e), id);
    var mv := MoveOfStep(m, e, id);
  }

  lemma {:induction false} YieldPointsBefore(r: Run, j: nat, k: nat)
    requires YieldPoint(r, k) && j <= k
    ensures YieldPoint(r, j)
  {
    if j < k {
      hide Step;
      YieldPointBefore(r, k);
      YieldPointsBefore(r, j, k - 1);
    }
  }

  lemma {:induction false} StrandedKept(r: Run, j: nat, k: nat, id: string)
    requires YieldPoint(r, k) && j <= k && Stranded(r.states[j], id) && NotForced(r, j, k, id)
    ensures Stranded(r.states[k], id) && ViewOf(r.states[k], id) == ViewOf(r.states[j], id)
  {
    if j < k {
      hide Step, Inv, ViewOf, Stranded;
      YieldPointBefore(r, k);
      StrandedKept(r, j, k - 1, id);
      InvOnEveryRun(r, k - 1);
      StrandedStays(r.states[k - 1], r.events[k - 1], id);
    }
  }

  /** From the upgrade that strands it, a deployment that is not forced stays as it is: its fee is
      neither earned by a deployment nor given back. */
  lemma StrandedForGood(r: Run, j: nat, k: nat, id: string)
    requires YieldPoint(r, k) && j <= k && Stranded(r.states[j], id) && NotForced(r, j, k, id)
    ensures Stranded(r.states[k], id) && r.states[k].s.records[id] == r.states[j].s.records[id]
    ensures RefundCount(r.states[k].s.books.log, id) == RefundCount(r.states[j].s.books.log, id)
  {
    hide InFlight, IsRun, RefundCount, ExecutionsOf;
    StrandedKept(r, j, k, id);
    YieldPointsBefore(r, j, k);
    RefundsAreHandledExecutions(r, j, id);
    RefundsAreHandledExecutions(r, k, id);
  }

  // ---------- When a deployment is stranded ----------

  /** The deployment is known, and what an unknown one is like. */
  lemma SimKnows(v: View)
    requires Sim(v) && v.Record().None?
    ensures Unknown(v)
  {
    if t :| t in v.tasks { OnlyTask(v, t); }
  }

  /** An unfinished record was unfinished one step before, or is new. */
  lemma UnfinishedBefore(v: View, v': View)
    requires Sim(v) && Sim(v') && RecordMoves(v, v') && v'.live.Some? && !Completed(v'.live.value)
    ensures v.live.Some? ==> !Completed(v.live.value)
    ensures v.live.None? ==> v.Record().None?
  {
  }

  /** A deployment that an upgrade met stays known. */
  lemma {:induction false} StaysKnown(r: Run, j: nat, k: nat, id: string)
    requires YieldPoint(r, k) && j <= k && id in All(r.states[j])
    ensures id in All(r.states[k])
  {
    if j < k {
      hide Step, Inv, LogGrows;
      YieldPointBefore(r, k);
      StaysKnown(r, j, k - 1, id);
      InvOnEveryRun(r, k - 1);
      GrowsAfterStep(r.states[k - 1], r.events[k - 1]);
    }
  }

  lemma MetMeansKnown(r: Run, k: nat, id: string)
    requires YieldPoint(r, k) && MetUpgrade(r, k, id)
    ensures id in All(r.states[k])
  {
    hide IsRun, Completed;
    var j :| 0 <= j < k && j < |r.events| && j < |r.states| && r.events[j].UpgradeCanister? && id in r.states[j].s.records;
    StaysKnown(r, j, k, id);
  }

  lemma MetStep(r: Run, k: nat, id: string)
    requires YieldPoint(r, k) && k > 0
    ensures MetUpgrade(r, k, id) <==>
            MetUpgrade(r, k - 1, id) ||
            (r.events[k - 1].UpgradeCanister? && id in r.states[k - 1].s.records && !Completed(r.states[k - 1].s.records[id]))
  {
  }

  lemma MetNoneAtFirst(r: Run, id: string)
    requires IsRun(r)
    ensures id !in r.states[0].s.records
  {
  }

  /** A deployment that was not forced is unfinished without a task exactly if it is unfinished and
      an upgrade met it so. */
  lemma {:induction false} StrandedByUpgrade(r: Run, k: nat, id: string)
    requires YieldPoint(r, k) && NotForced(r, 0, k, id) && id in r.states[k].s.records && !Completed(r.states[k].s.records[id])
    ensures InFlight(r.states[k].tasks, id) == {} <==> MetUpgrade(r, k, id)
  {
    MetNoneAtFirst(r, id);
    if k > 0 {
      hide Sim, Step, MetUpgrade, InFlight, IsRun, ExecutionsOf, Inv, RecordMoves, TaskStays, Stranded;
      var m, e, m' := r.states[k - 1], r.events[k - 1], r.states[k];
      YieldPointBefore(r, k);
      SimOnEveryRun(r, k - 1, id);
      SimOnEveryRun(r, k, id);
      InvOnEveryRun(r, k - 1);
      SimAfterStep(m, e, id);
      UnfinishedBefore(ViewOf(m, id), ViewOf(m', id));
      StrandedView(m, id);
      StrandedView(m', id);
      MetStep(r, k, id);
      if id in m.s.records {
        StrandedByUpgrade(r, k - 1, id);
      }
      StrandedOneStep(r, k, id);
    }
  }

  /** The step of the induction, on views. */
  lemma StrandedOneStep(r: Run, k: nat, id: string)
    requires YieldPoint(r, k) && k > 0 && YieldPoint(r, k - 1) && r.states[k] == Step(r.states[k - 1], r.events[k - 1])
    requires NotForced(r, 0, k, id) && Inv(r.states[k - 1]) && Sim(ViewOf(r.states[k - 1], id))
    requires id in r.states[k].s.records && !Completed(r.states[k].s.records[id])
    requires id in r.states[k - 1].s.records ==> !Completed(r.states[k - 1].s.records[id])
    ensures var v, v', e := ViewOf(r.states[k - 1], id), ViewOf(r.states[k], id), r.events[k - 1];
            if id in r.states[k - 1].s.records then v'.tasks == map[] <==> v.tasks == map[] || e.UpgradeCanister?
            else v'.tasks != map[] && !MetUpgrade(r, k - 1, id) && !e.UpgradeCanister?
  {
    hide Step, MetUpgrade, InFlight, ExecutionsOf, Inv, Sim, TaskStays, RecordMoves;
    var m, e := r.states[k - 1], r.events[k - 1];
    SimAfterStep(m, e, id);
    OneStep(m, e, id);
    if id !in m.s.records && MetUpgrade(r, k - 1, id) {
      MetMeansKnown(r, k - 1, id);
      RecordInAll(m, id);
    }
  }

  lemma OneStep(m: Machine, e: Event, id: string)
    requires Inv(m) && Step(m, e).h.issued <= TWO_64 && Sim(ViewOf(m, id)) && (e.ForceExecute? ==> e.id != id)
    requires id in Step(m, e).s.records && !Completed(Step(m, e).s.records[id])
    ensures var v, v' := ViewOf(m, id), ViewOf(Step(m, e), id);
            if id in m.s.records then v'.tasks == map[] <==> v.tasks == map[] || e.UpgradeCanister?
            else v'.tasks != map[] && v.Record().None? && !e.UpgradeCanister?
  {
    hide Step, Inv, ExecutionsOf;
    var mv := MoveOfStep(m, e, id);
    var v := ViewOf(m, id);
    match mv
    case Create(n, r, caller) => assert n in AfterMove(v, mv, id).tasks;
    case Advance(t, n, task, now) => assert n in AfterMove(v, mv, id).tasks && t in v.tasks;
    case _ =>
  }

  /** The simulation seen from outside, for a deployment that was not forced, whatever was forced
      beside it: every suspended execution of it finds the record its program counter implies; a
      completed record has no task, an unfinished one exactly one, or none exactly if an upgrade
      met it unfinished. */
  lemma RecordsFollowTasks(r: Run, k: nat, id: string)
    requires YieldPoint(r, k) && NotForced(r, 0, k, id)
    ensures var m := r.states[k];
            && (forall t :: t in InFlight(m.tasks, id) ==> FindsRecord(m.tasks[t], Find(m.s.records, id)))
            && (id in m.s.records ==>
                  |InFlight(m.tasks, id)| == if Completed(m.s.records[id]) || MetUpgrade(r, k, id) then 0 else 1)
  {
    hide MetUpgrade, NotForced, IsRun, Sim;
    var m := r.states[k];
    SimOnEveryRun(r, k, id);
    StrandedView(m, id);
    TasksInSim(ViewOf(m, id));
    ExecutionsAreInFlight(m.tasks, id);
    if id in m.s.records && !Completed(m.s.records[id]) {
      StrandedByUpgrade(r, k, id);
    }
  }

  lemma TasksInSim(v: View)
    requires Sim(v)
    ensures |v.tasks| <= 1 && forall t :: t in v.tasks ==> FindsRecord(v.tasks[t], v.live)
    ensures |v.tasks| == 0 <==> v.tasks == map[]
    ensures v.live.Some? && Completed(v.live.value) ==> v.tasks == map[]
  {
    if t :| t in v.tasks { OnlyTask(v, t); }
  }
}
