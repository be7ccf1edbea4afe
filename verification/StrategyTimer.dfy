/** The timer helper shared by strategies: a registry of interval timers by name and a rate
    limit on manual triggers. */
module StrategyTimer {
  import opened Common

  const NS_PER_SECOND := 1_000_000_000

  /** `timers` and `lastExecution` are the canister's maps; `armed` holds the interval timers the
      system will keep firing, `next` the next id it hands out. */
  datatype Registry = Registry(
    timers: map<string, nat>,
    lastExecution: map<string, u64>,
    armed: set<nat>,
    next: nat)

  function ClearTimer(r: Registry, id: string): Registry {
    if id in r.timers then r.(timers := r.timers - {id}, armed := r.armed - {r.timers[id]}) else r
  }

  function SetTimer(r: Registry, id: string, enabled: bool, now: u64): Registry {
    var r1 := ClearTimer(r, id);
    if !enabled then r1
    else r1.(lastExecution := r1.lastExecution[id := now],
             timers := r1.timers[id := r1.next],
             armed := r1.armed + {r1.next},
             next := r1.next + 1)
  }

  function LastTime(r: Registry, id: string): u64 { if id in r.lastExecution then r.lastExecution[id] else 0 }

  predicate Due(r: Registry, id: string, interval: u64, now: u64) {
    WrapSub64(now, LastTime(r, id)) >= WrapMul64(interval, NS_PER_SECOND)
  }

  function ShouldTrigger(r: Registry, id: string, interval: u64, now: u64): (Registry, bool) {
    if Due(r, id, interval, now) then (r.(lastExecution := r.lastExecution[id := now]), true) else (r, false)
  }

  function TimeUntilNextExecution(r: Registry, id: string, interval: u64, now: u64): u64 {
    var elapsed := WrapSub64(now, LastTime(r, id));
    var total := WrapMul64(interval, NS_PER_SECOND);
    if elapsed >= total then 0 else WrapSub64(total, elapsed) / NS_PER_SECOND
  }

  // ---------- The registry holds exactly the live timers ----------

  ghost predicate RegistryOk(r: Registry) {
    && (forall id :: id in r.timers ==> r.timers[id] in r.armed && r.timers[id] < r.next)
    && (forall t :: t in r.armed ==> exists id :: id in r.timers && r.timers[id] == t)
    && (forall id, id' :: id in r.timers && id' in r.timers && r.timers[id] == r.timers[id'] ==> id == id')
  }

  lemma ClearKeepsRegistry(r: Registry, id: string)
    requires RegistryOk(r)
    ensures RegistryOk(ClearTimer(r, id)) && id !in ClearTimer(r, id).timers
  {
    if id in r.timers {
      RemoveKeepsRegistry(r, id, ClearTimer(r, id));
    }
  }

  lemma RemoveKeepsRegistry(r: Registry, id: string, r': Registry)
    requires RegistryOk(r) && id in r.timers
    requires r'.timers == r.timers - {id} && r'.armed == r.armed - {r.timers[id]} && r'.next == r.next
    ensures RegistryOk(r')
  {
    forall t | t in r'.armed ensures exists i :: i in r'.timers && r'.timers[i] == t {
      var i :| i in r.timers && r.timers[i] == t;
      assert i in r'.timers && r'.timers[i] == t;
    }
  }

  /** Setting a timer replaces the one of the same name by a new one that counts from now, and leaves
      the others armed and counting as they did. */
  lemma SetKeepsRegistry(r: Registry, id: string, enabled: bool, now: u64)
    requires RegistryOk(r)
    ensures var r' := SetTimer(r, id, enabled, now);
            && RegistryOk(r')
            && (id in r'.timers <==> enabled)
            && (enabled ==> r'.timers[id] !in r.armed)
            && (if enabled then LastTime(r', id) == now else r'.lastExecution == r.lastExecution)
            && (forall i :: i != id ==> (i in r'.timers <==> i in r.timers) && (i in r.timers ==> r'.timers[i] == r.timers[i]))
            && (forall i :: i != id ==> LastTime(r', i) == LastTime(r, i))
  {
    hide RegistryOk;
    ClearKeepsRegistry(r, id);
    NextIsNew(r);
    SetLeavesOthers(r, id, enabled, now);
    SetSame(r, id, enabled, now);
    if enabled {
      hide ClearTimer, LastTime;
      ArmKeepsRegistry(ClearTimer(r, id), id);
      SameTimersOk(ClearTimer(r, id), id, SetTimer(r, id, enabled, now));
    }
  }

  lemma SetSame(r: Registry, id: string, enabled: bool, now: u64)
    ensures var r' := SetTimer(r, id, enabled, now);
            && (enabled ==> id in r'.timers && r'.timers[id] == r.next && LastTime(r', id) == now)
            && (!enabled ==> id !in r'.timers && r'.lastExecution == r.lastExecution)
  {
  }

  lemma SetLeavesOthers(r: Registry, id: string, enabled: bool, now: u64)
    ensures var r' := SetTimer(r, id, enabled, now);
            && (forall i :: i != id ==> (i in r'.timers <==> i in r.timers) && (i in r.timers ==> r'.timers[i] == r.timers[i]))
            && (forall i :: i != id ==> LastTime(r', i) == LastTime(r, i))
  {
  }

  lemma SameTimersOk(r: Registry, id: string, r': Registry)
    requires RegistryOk(r.(timers := r.timers[id := r.next], armed := r.armed + {r.next}, next := r.next + 1))
    requires r'.timers == r.timers[id := r.next] && r'.armed == r.armed + {r.next} && r'.next == r.next + 1
    ensures RegistryOk(r')
  {
    var a := r.(timers := r.timers[id := r.next], armed := r.armed + {r.next}, next := r.next + 1);
    assert r' == a.(lastExecution := r'.lastExecution);
  }

  lemma NextIsNew(r: Registry)
    requires RegistryOk(r)
    ensures r.next !in r.armed
  {
  }

  lemma ArmKeepsRegistry(r: Registry, id: string)
    requires RegistryOk(r) && id !in r.timers
    ensures RegistryOk(r.(timers := r.timers[id := r.next], armed := r.armed + {r.next}, next := r.next + 1))
  {
    var timers := r.timers[id := r.next];
    forall t | t in r.armed + {r.next} ensures exists i :: i in timers && timers[i] == t {
      if t == r.next {
        assert timers[id] == t;
      } else {
        var i :| i in r.timers && r.timers[i] == t;
        assert i in timers && timers[i] == t;
      }
    }
  }

  // ---------- Rate limit ----------

  /** What can happen to last-execution times. */
  datatype Call =
    | Trigger(id: string, interval: u64, at: u64)
    | Touch(id: string, at: u64)
    | Arm(id: string, enabled: bool, at: u64)
    | Clear(id: string, at: u64)

  function After(r: Registry, c: Call): Registry {
    match c
    case Trigger(id, interval, at) => ShouldTrigger(r, id, interval, at).0
    case Touch(id, at) => r.(lastExecution := r.lastExecution[id := at])
    case Arm(id, enabled, at) => SetTimer(r, id, enabled, at)
    case Clear(id, _) => ClearTimer(r, id)
  }

  function AfterAll(r: Registry, cs: seq<Call>): Registry {
    if cs == [] then r else After(AfterAll(r, cs[..|cs| - 1]), cs[|cs| - 1])
  }

  predicate Succeeds(r: Registry, c: Call, id: string) {
    c.Trigger? && c.id == id && Due(r, id, c.interval, c.at)
  }

  /** The times at which triggers of `id` succeeded. */
  function SuccessTimes(r: Registry, cs: seq<Call>, id: string): seq<u64> {
    if cs == [] then [] else
      var c := cs[|cs| - 1];
      SuccessTimes(r, cs[..|cs| - 1], id) + (if Succeeds(AfterAll(r, cs[..|cs| - 1]), c, id) then [c.at] else [])
  }

  /** A clock that never runs backwards, and one interval for `id` that fits 64 bits of
      nanoseconds. */
  ghost predicate Orderly(r: Registry, cs: seq<Call>, id: string, interval: u64) {
    && interval * NS_PER_SECOND <= U64_MAX
    && (forall i :: 0 <= i < |cs| ==> LastTime(r, id) <= cs[i].at)
    && (forall i, j :: 0 <= i < j < |cs| ==> cs[i].at <= cs[j].at)
    && (forall i :: 0 <= i < |cs| && cs[i].Trigger? && cs[i].id == id ==> cs[i].interval == interval)
  }

  /** One call moves the last-execution time to now or leaves it. */
  lemma LastTimeAfter(r: Registry, c: Call, id: string, interval: u64)
    requires LastTime(r, id) <= c.at && interval * NS_PER_SECOND <= U64_MAX
    requires c.Trigger? && c.id == id ==> c.interval == interval
    ensures LastTime(r, id) <= LastTime(After(r, c), id) <= c.at
    ensures Succeeds(r, c, id) ==> LastTime(After(r, c), id) == c.at >= LastTime(r, id) + interval * NS_PER_SECOND
  {
    assert WrapSub64(c.at, LastTime(r, id)) == c.at - LastTime(r, id);
    assert WrapMul64(interval, NS_PER_SECOND) == interval * NS_PER_SECOND;
  }

  ghost predicate TimesOk(times: seq<u64>, last: u64, gap: nat) {
    && (times != [] ==> times[|times| - 1] <= last)
    && (forall i :: 0 <= i < |times| - 1 ==> times[i + 1] >= times[i] + gap)
  }

  lemma TimesAppend(times: seq<u64>, last: u64, at: u64, gap: nat)
    requires TimesOk(times, last, gap) && at >= last + gap
    ensures TimesOk(times + [at], at, gap)
  {
  }

  lemma {:induction false} LastTimeFollows(r: Registry, cs: seq<Call>, id: string, interval: u64)
    requires Orderly(r, cs, id, interval)
    ensures TimesOk(SuccessTimes(r, cs, id), LastTime(AfterAll(r, cs), id), interval * NS_PER_SECOND)
    ensures cs != [] ==> LastTime(AfterAll(r, cs), id) <= cs[|cs| - 1].at
    ensures cs == [] ==> LastTime(AfterAll(r, cs), id) == LastTime(r, id)
  {
    if cs != [] {
      hide TimesOk, After, Succeeds, LastTime;
      var front, c := cs[..|cs| - 1], cs[|cs| - 1];
      LastTimeFollows(r, front, id, interval);
      var before := AfterAll(r, front);
      assert LastTime(before, id) <= c.at by {
        if front != [] {
          assert front[|front| - 1] == cs[|cs| - 2];
        }
      }
      LastTimeAfter(before, c, id, interval);
      var times := SuccessTimes(r, front, id);
      if Succeeds(before, c, id) {
        TimesAppend(times, LastTime(before, id), c.at, interval * NS_PER_SECOND);
      } else {
        TimesLater(times, LastTime(before, id), LastTime(After(before, c), id), interval * NS_PER_SECOND);
        assert times + [] == times;
      }
    }
  }

  lemma TimesLater(times: seq<u64>, last: u64, last': u64, gap: nat)
    requires TimesOk(times, last, gap) && last <= last'
    ensures TimesOk(times, last', gap)
  {
  }

  lemma {:induction false} SpanGrows(times: seq<u64>, gap: nat)
    requires |times| > 0
    requires forall i :: 0 <= i < |times| - 1 ==> times[i + 1] >= times[i] + gap
    ensures times[|times| - 1] - times[0] >= (|times| - 1) * gap
  {
    if |times| > 1 {
      var front := times[..|times| - 1];
      SpanGrows(front, gap);
      assert (|times| - 1) * gap == (|front| - 1) * gap + gap;
    }
  }

  /** When a trigger succeeds, and what it then writes: nothing else changes, and a name never executed
      counts as executed at time zero. Interval and difference wrap in 64 bits, so a clock behind the
      last execution is far ahead of it. */
  lemma TriggerSucceedsExactly(r: Registry, id: string, interval: u64, now: u64)
    ensures var last := if id in r.lastExecution then r.lastExecution[id] else 0;
            var elapsed := if last <= now then now - last else TWO_64 + now - last;
            var (r', ok) := ShouldTrigger(r, id, interval, now);
            && (ok <==> elapsed >= interval * 1_000_000_000 % 0x1_0000_0000_0000_0000)
            && r' == (if ok then r.(lastExecution := r.lastExecution[id := now]) else r)
  {
    assert WrapSub64(now, LastTime(r, id)) == if LastTime(r, id) <= now then now - LastTime(r, id) else TWO_64 + now - LastTime(r, id);
  }

  /** `n` successful triggers of one name span at least `n - 1` intervals, whatever else sets,
      clears or touches timers in between. */
  lemma RateLimit(r: Registry, cs: seq<Call>, id: string, interval: u64)
    requires Orderly(r, cs, id, interval)
    ensures var times := SuccessTimes(r, cs, id);
            |times| > 0 ==> times[|times| - 1] - times[0] >= (|times| - 1) * (interval * NS_PER_SECOND)
  {
    LastTimeFollows(r, cs, id, interval);
    var times := SuccessTimes(r, cs, id);
    if |times| > 0 {
      SpanGrows(times, interval * NS_PER_SECOND);
    }
  }

  /** The wait that is announced: with last execution untouched, no trigger succeeds before that
      many seconds have passed and every one does a second later. */
  lemma AnnouncedWait(r: Registry, id: string, interval: u64, now: u64, later: u64)
    requires interval * NS_PER_SECOND <= U64_MAX && LastTime(r, id) <= now <= later
    ensures var wait := TimeUntilNextExecution(r, id, interval, now);
            && (later < now + wait * NS_PER_SECOND ==> !Due(r, id, interval, later))
            && (later >= now + (wait + 1) * NS_PER_SECOND ==> Due(r, id, interval, later))
  {
    var last := LastTime(r, id);
    assert WrapSub64(now, last) == now - last && WrapSub64(later, last) == later - last;
    assert WrapMul64(interval, NS_PER_SECOND) == interval * NS_PER_SECOND;
  }

  /** During the announced wait no trigger succeeds, whatever is triggered, touched, set or cleared
      in between: nothing can bring the last execution further back. */
  lemma {:induction false} NoTriggerDuringWait(r: Registry, cs: seq<Call>, id: string, interval: u64, now: u64)
    requires Orderly(r, cs, id, interval) && LastTime(r, id) <= now
    requires forall i :: 0 <= i < |cs| ==> now <= cs[i].at < now + TimeUntilNextExecution(r, id, interval, now) * NS_PER_SECOND
    ensures SuccessTimes(r, cs, id) == []
  {
    if cs != [] {
      hide Due, TimeUntilNextExecution, After, LastTime;
      var front, c := cs[..|cs| - 1], cs[|cs| - 1];
      NoTriggerDuringWait(r, front, id, interval, now);
      LastTimeGrows(r, front, id, interval);
      assert LastTime(AfterAll(r, front), id) <= c.at by {
        if front != [] {
          assert front[|front| - 1] == cs[|cs| - 2];
        }
      }
      AnnouncedWait(r, id, interval, now, c.at);
      DueLater(r, AfterAll(r, front), id, interval, c.at);
    }
  }

  /** A later last execution makes nothing due that was not. */
  lemma DueLater(r: Registry, r': Registry, id: string, interval: u64, now: u64)
    requires LastTime(r, id) <= LastTime(r', id) <= now && interval * NS_PER_SECOND <= U64_MAX
    ensures Due(r', id, interval, now) ==> Due(r, id, interval, now)
  {
    var last, last' := LastTime(r, id), LastTime(r', id);
    assert WrapSub64(now, last) == now - last && WrapSub64(now, last') == now - last';
  }

  lemma {:induction false} LastTimeGrows(r: Registry, cs: seq<Call>, id: string, interval: u64)
    requires Orderly(r, cs, id, interval)
    ensures LastTime(r, id) <= LastTime(AfterAll(r, cs), id)
    ensures cs != [] ==> LastTime(AfterAll(r, cs), id) <= cs[|cs| - 1].at
  {
    if cs != [] {
      hide After, LastTime;
      var front, c := cs[..|cs| - 1], cs[|cs| - 1];
      LastTimeGrows(r, front, id, interval);
      assert front != [] ==> front[|front| - 1] == cs[|cs| - 2];
      LastTimeAfter(AfterAll(r, front), c, id, interval);
    }
  }

  /** An announced wait of zero means due, except within the last second before the time. */
  lemma ZeroWait(r: Registry, id: string, interval: u64, now: u64)
    requires interval * NS_PER_SECOND <= U64_MAX && LastTime(r, id) <= now
    ensures var left := LastTime(r, id) + interval * NS_PER_SECOND - now;
            && (TimeUntilNextExecution(r, id, interval, now) == 0 <==> left < NS_PER_SECOND)
            && (Due(r, id, interval, now) <==> left <= 0)
  {
    var last := LastTime(r, id);
    assert WrapSub64(now, last) == now - last;
    assert WrapMul64(interval, NS_PER_SECOND) == interval * NS_PER_SECOND;
  }
}

/** The timer helper itself, updating its maps in place. */
module StrategyTimerModule {
  import opened Common
  import T = StrategyTimer

  class TimerModule {
    var timers: map<string, nat>
    var lastExecution: map<string, u64>
    var armed: set<nat>
    var next: nat

    ghost function State(): T.Registry
      reads this
    {
      T.Registry(timers, lastExecution, armed, next)
    }

    method ClearTimer(id: string)
      modifies this
      ensures State() == T.ClearTimer(old(State()), id)
    {
      if id in timers {
        armed := armed - {timers[id]};
        timers := timers - {id};
      }
    }

    method SetTimer(id: string, enabled: bool, now: u64)
      modifies this
      ensures State() == T.SetTimer(old(State()), id, enabled, now)
    {
      ClearTimer(id);
      if !enabled {
        return;
      }
      lastExecution := lastExecution[id := now];
      armed := armed + {next};
      timers := timers[id := next];
      next := next + 1;
    }

    method ShouldTrigger(id: string, interval: u64, now: u64) returns (b: bool)
      modifies this`lastExecution
      ensures (State(), b) == T.ShouldTrigger(old(State()), id, interval, now)
    {
      var last := if id in lastExecution then lastExecution[id] else 0;
      if WrapSub64(now, last) >= WrapMul64(interval, T.NS_PER_SECOND) {
        lastExecution := lastExecution[id := now];
        b := true;
      } else {
        b := false;
      }
    }

    method TimeUntilNextExecution(id: string, interval: u64, now: u64) returns (seconds: u64)
      ensures seconds == T.TimeUntilNextExecution(State(), id, interval, now)
    {
      var last := if id in lastExecution then lastExecution[id] else 0;
      var elapsed := WrapSub64(now, last);
      var total := WrapMul64(interval, T.NS_PER_SECOND);
      if elapsed >= total {
        seconds := 0;
      } else {
        seconds := (total - elapsed) / T.NS_PER_SECOND;
      }
    }
  }
}
