/** The two-stage hedge in its own imperative form, trading against an account at the pool. */
module HedgeExecution {
  import opened Common
  import opened Split
  import opened Hedge

  /** One executed order and the pool's answer to it. */
  datatype Filling = Filling(amount: u128, reply: Reply)

  function Fillings(orders: seq<u128>, replies: Replies, n: nat): seq<Filling>
    requires n <= |orders|
  {
    if n == 0 then [] else
      Fillings(orders, replies, n - 1) + (if orders[n - 1] == 0 then [] else [Filling(orders[n - 1], replies(n - 1))])
  }

  function FilledIn(fs: seq<Filling>): nat {
    if fs == [] then 0 else
      FilledIn(fs[..|fs| - 1]) + (if fs[|fs| - 1].reply.Some? then fs[|fs| - 1].amount else 0)
  }

  function ReceivedIn(fs: seq<Filling>): nat {
    if fs == [] then 0 else
      ReceivedIn(fs[..|fs| - 1]) + (if fs[|fs| - 1].reply.Some? then fs[|fs| - 1].reply.value else 0)
  }

  predicate AllFilled(fs: seq<Filling>) {
    fs == [] || (AllFilled(fs[..|fs| - 1]) && fs[|fs| - 1].reply.Some?)
  }

  /** What the results of a list of orders add up to. */
  lemma {:induction false} FillingsTotals(orders: seq<u128>, replies: Replies, n: nat)
    requires n <= |orders|
    ensures var fs := Fillings(orders, replies, n);
            && FilledIn(fs) == Filled(orders, replies, n)
            && ReceivedIn(fs) == Received(orders, replies, n)
            && (AllFilled(fs) <==> Unfilled(orders, replies, n) == 0)
  {
    if n > 0 {
      FillingsTotals(orders, replies, n - 1);
      var front := Fillings(orders, replies, n - 1);
      var last := Filling(orders[n - 1], replies(n - 1));
      assert front + [] == front;
      assert (front + [last])[..|front|] == front;
    }
  }

  lemma {:induction false} NotAllFilled(fs: seq<Filling>, i: nat)
    requires i < |fs| && fs[i].reply.None?
    ensures !AllFilled(fs)
  {
    if i < |fs| - 1 {
      NotAllFilled(fs[..|fs| - 1], i);
    }
  }

  lemma {:induction false} SumAppend(s: seq<u128>, a: u128)
    ensures Sum(s + [a]) == Sum(s) + a
  {
    if s == [] {
      SumOfOne(a);
      assert s + [a] == [a];
    } else {
      SumAppend(s[1..], a);
      assert (s + [a])[1..] == s[1..] + [a];
    }
  }

  lemma CapAdds(a: nat, b: u128)
    ensures SatAdd128(Cap128(a), b) == Cap128(a + b)
  {
  }

  /** Adding up the filled orders of stage two; failed ones are passed over. */
  method AddFilled(results: seq<Filling>, volume: u128) returns (totalVolume: u128)
    ensures totalVolume == Cap128(volume + FilledIn(results))
  {
    totalVolume := volume;
    for i := 0 to |results|
      invariant totalVolume == Cap128(volume + FilledIn(results[..i]))
    {
      assert results[..i + 1][..i] == results[..i];
      if results[i].reply.Some? {
        CapAdds(volume + FilledIn(results[..i]), results[i].amount);
        totalVolume := SatAdd128(totalVolume, results[i].amount);
      }
    }
    assert results[..|results|] == results;
  }

  class PoolAccount {
    var token0: int
    var token1: int

    ghost function State(): Holdings
      reads this
    {
      Holdings(token0, token1)
    }

    method CallSwap(zeroForOne: bool, amount: u128, reply: Reply)
      modifies this
      ensures State() == Swap(old(State()), zeroForOne, amount, reply)
    {
      if reply.Some? {
        if zeroForOne {
          token0, token1 := token0 - amount, token1 + reply.value;
        } else {
          token0, token1 := token0 + reply.value, token1 - amount;
        }
      }
    }

    method ExecuteTrade(pair: Pair, d: TradeDirection, amount: u128, reply: Reply)
      modifies this
      ensures State() == Trade(pair, old(State()), d, amount, reply)
    {
      var input, output := pair.base, pair.quote;
      if d.Buy? {
        input, output := pair.quote, pair.base;
      }
      CallSwap(LexLess(input, output), amount, reply);
    }

    /** All non-zero orders of a split, awaited together; results keep their order. */
    method ExecuteSplit(pair: Pair, d: TradeDirection, orders: seq<u128>, replies: Replies) returns (results: seq<Filling>)
      modifies this
      ensures results == Fillings(orders, replies, |orders|)
      ensures State() == Execute(pair, old(State()), d, orders, replies, |orders|)
    {
      results := [];
      for i := 0 to |orders|
        invariant results == Fillings(orders, replies, i)
        invariant State() == Execute(pair, old(State()), d, orders, replies, i)
      {
        if orders[i] == 0 {
          continue;
        }
        ExecuteTrade(pair, d, orders[i], replies(i));
        results := results + [Filling(orders[i], replies(i))];
      }
    }

    /** Stage one: volume and total output, or nothing if any order failed. */
    method SellHold(c: Cycle) returns (r: Option<(u128, u128)>)
      modifies this
      ensures State() == AfterFirst(c, old(State()))
      ensures var n := |FirstOrders(c)|;
              r == if Unfilled(FirstOrders(c), c.first, n) > 0 then None
                   else Some((Cap128(Filled(FirstOrders(c), c.first, n)), Proceeds(c)))
    {
      var totalVolume: u128 := 0;
      var outputs: seq<u128> := [];
      if SplitFirst(c.splitType, c.holdIsBase) {
        var results := ExecuteSplit(c.pair, c.direction, c.amounts, c.first);
        FillingsTotals(c.amounts, c.first, |c.amounts|);
        for i := 0 to |results|
          invariant State() == AfterFirst(c, old(State()))
          invariant totalVolume == Cap128(FilledIn(results[..i]))
          invariant Sum(outputs) == ReceivedIn(results[..i])
          invariant AllFilled(results[..i])
        {
          assert results[..i + 1][..i] == results[..i];
          if results[i].reply.None? {
            NotAllFilled(results, i);
            return None;
          }
          CapAdds(FilledIn(results[..i]), results[i].amount);
          SumAppend(outputs, results[i].reply.value);
          totalVolume := SatAdd128(totalVolume, results[i].amount);
          outputs := outputs + [results[i].reply.value];
        }
        assert results[..|results|] == results;
      } else {
        var amount := WrapSum(c.amounts);
        OneOrder(amount, c.first);
        if amount > 0 {
          var reply := c.first(0);
          ExecuteTrade(c.pair, c.direction, amount, reply);
          if reply.None? {
            return None;
          }
          totalVolume := SatAdd128(totalVolume, amount);
          outputs := [reply.value];
          SumOfOne(reply.value);
        }
      }
      return Some((totalVolume, WrapSum(outputs)));
    }

    /** Stage two with split orders: failures are skipped over. */
    method BuyBackSplit(c: Cycle, orders: seq<u128>, volume: u128) returns (totalVolume: u128)
      modifies this
      ensures State() == Execute(c.pair, old(State()), Reverse(c.direction), orders, c.second, |orders|)
      ensures totalVolume == Cap128(volume + Filled(orders, c.second, |orders|))
    {
      var results := ExecuteSplit(c.pair, Reverse(c.direction), orders, c.second);
      FillingsTotals(orders, c.second, |orders|);
      totalVolume := AddFilled(results, volume);
    }

    /** `execute_hedge_trades`, after the pool was found. */
    method ExecuteHedgeTrades(c: Cycle) returns (r: Result<u128, ()>)
      modifies this
      ensures (State(), r) == HedgeTrades(c, old(State()))
    {
      var stage1 := SellHold(c);
      if stage1.None? {
        return Err(());
      }
      var (totalVolume, proceeds) := stage1.value;
      if proceeds == 0 {
        return Ok(totalVolume);
      }
      var d := Reverse(c.direction);
      if SplitSecond(c.splitType, d) {
        var orders := SplitAmountLoop(proceeds, c.count, c.seed);
        totalVolume := BuyBackSplit(c, orders, totalVolume);
        CapTwice(Filled(FirstOrders(c), c.first, |FirstOrders(c)|), Filled(orders, c.second, |orders|));
      } else {
        var reply := c.second(0);
        ExecuteTrade(c.pair, d, proceeds, reply);
        OneOrder(proceeds, c.second);
        if reply.None? {
          return Err(());
        }
        CapAdds(Filled(FirstOrders(c), c.first, |FirstOrders(c)|), proceeds);
        totalVolume := SatAdd128(totalVolume, proceeds);
      }
      return Ok(totalVolume);
    }
  }

  lemma CapTwice(a: nat, b: nat)
    ensures Cap128(Cap128(a) + b) == Cap128(a + b)
  {
  }

  /** A single order as a list of one. */
  lemma OneOrder(amount: u128, replies: Replies)
    ensures Filled([amount], replies, 1) == (if replies(0).Some? then amount else 0)
    ensures Unfilled([amount], replies, 1) == (if replies(0).None? then amount else 0)
    ensures Received([amount], replies, 1) == (if amount != 0 && replies(0).Some? then replies(0).value else 0)
    ensures forall pair, h, d :: Execute(pair, h, d, [amount], replies, 1) ==
                                 if amount == 0 then h else Trade(pair, h, d, amount, replies(0))
  {
    assert Filled([amount], replies, 0) == 0 && Unfilled([amount], replies, 0) == 0 && Received([amount], replies, 0) == 0;
    forall pair, h, d ensures Execute(pair, h, d, [amount], replies, 1) ==
                              if amount == 0 then h else Trade(pair, h, d, amount, replies(0))
    {
      assert Execute(pair, h, d, [amount], replies, 0) == h;
    }
  }
}
