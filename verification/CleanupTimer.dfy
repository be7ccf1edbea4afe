/** The factory's cleanup timer: a chain of one-shot timers, each firing scheduling the next. */
module CleanupTimer {
  import opened Common

  /** `cleanup` is the stored timer id; `armed` the timers the system will still fire. */
  datatype Timers = Timers(cleanup: Option<nat>, armed: set<nat>, next: nat)

  function ScheduleCleanup(t: Timers): Timers {
    Timers(Some(t.next), t.armed + {t.next}, t.next + 1)
  }

  function CancelTimers(t: Timers): Timers {
    match t.cleanup
    case None => t
    case Some(id) => t.(cleanup := None, armed := t.armed - {id})
  }

  datatype Event = ResetSystemTimers | Fire(id: nat) | Upgrade

  /** A fired one-shot timer is no longer armed when its callback runs; the callback ends by
      scheduling anew. An upgrade drops all timers and the stored id, and starts none. */
  function Step(t: Timers, e: Event): Timers {
    match e
    case ResetSystemTimers => ScheduleCleanup(CancelTimers(t))
    case Fire(id) => if id in t.armed then ScheduleCleanup(t.(armed := t.armed - {id})) else t
    case Upgrade => t.(cleanup := None, armed := {})
  }

  function Run(es: seq<Event>): Timers {
    if es == [] then Timers(None, {}, 0) else Step(Run(es[..|es| - 1]), es[|es| - 1])
  }

  predicate ResetSinceUpgrade(es: seq<Event>) {
    es != [] && (es[|es| - 1].ResetSystemTimers? || (es[|es| - 1].Fire? && ResetSinceUpgrade(es[..|es| - 1])))
  }

  /** Over any sequence of firings, resets and upgrades at most one cleanup timer is pending,
      and it is the stored one. There is one exactly if the timers were reset since the last
      upgrade: firing never breaks the chain. */
  lemma {:induction false} OneCleanupChain(es: seq<Event>)
    ensures Run(es).armed == (if Run(es).cleanup.Some? then {Run(es).cleanup.value} else {})
    ensures forall id :: id in Run(es).armed ==> id < Run(es).next
    ensures Run(es).cleanup.Some? <==> ResetSinceUpgrade(es)
  {
    if es != [] {
      OneCleanupChain(es[..|es| - 1]);
    }
  }

  /** Scheduling without cancelling first would start a second chain beside a pending one. */
  lemma ScheduleAloneForks(t: Timers, id: nat)
    requires t.armed == {id} && id < t.next
    ensures |ScheduleCleanup(t).armed| == 2 && ScheduleCleanup(t).cleanup != Some(id)
  {
    assert ScheduleCleanup(t).armed == {id, t.next};
  }
}

/** The timer functions of the factory, updating their cells in place. */
module CleanupTimerModule {
  import opened Common
  import T = CleanupTimer

  class TimerModule {
    var cleanup: Option<nat>
    var armed: set<nat>
    var next: nat

    ghost function State(): T.Timers
      reads this
    {
      T.Timers(cleanup, armed, next)
    }

    method ScheduleCleanup()
      modifies this
      ensures State() == T.ScheduleCleanup(old(State()))
    {
      armed := armed + {next};
      cleanup := Some(next);
      next := next + 1;
    }

    method CancelTimers()
      modifies this
      ensures State() == T.CancelTimers(old(State()))
    {
      var stored := cleanup;
      if stored.Some? {
        cleanup := None;
      }
      if stored.Some? {
        armed := armed - {stored.value};
      }
    }

    method ResetSystemTimers()
      modifies this
      ensures State() == T.Step(old(State()), T.ResetSystemTimers)
    {
      CancelTimers();
      ScheduleCleanup();
    }

    /** The callback of timer `id`. */
    method Fire(id: nat)
      requires id in armed
      modifies this
      ensures State() == T.Step(old(State()), T.Fire(id))
    {
      armed := armed - {id};
      ScheduleCleanup();
    }
  }
}
