/** One hedge cycle: sell the hold token, then buy it back with the proceeds. */
module Hedge {
  import opened Common
  import opened Split

  datatype TradeDirection = Buy | Sell

  datatype OrderSplitType = NoSplit | SplitBuy | SplitSell | SplitBoth

  datatype Pair = Pair(base: Principal, quote: Principal)

  /** The canister's unused balances at the pool, in the pool's own token order. */
  datatype Holdings = Holdings(token0: int, token1: int)

  /** What the pool answers to a swap: the output amount, or a failure without effect. */
  type Reply = Option<u128>

  // ---------- The swap call ----------

  /** Byte order of canister ids in text form, which fixes the pool's token order. */
  predicate LexLess(a: string, b: string) {
    if b == "" then false
    else if a == "" then true
    else if a[0] != b[0] then a[0] < b[0]
    else LexLess(a[1..], b[1..])
  }

  lemma {:induction false} LexTotal(a: string, b: string)
    ensures LexLess(a, b) && LexLess(b, a) ==> false
    ensures a != b <==> LexLess(a, b) || LexLess(b, a)
  {
    if a != "" && b != "" && a[0] == b[0] {
      LexTotal(a[1..], b[1..]);
      assert a == [a[0]] + a[1..] && b == [b[0]] + b[1..];
    }
  }

  /** `a` and `b` agree on their first `k` characters and then `a` ends or has the smaller one. */
  ghost predicate SmallerFrom(a: string, b: string, k: nat) {
    k <= |a| && k < |b| && a[..k] == b[..k] && (k == |a| || a[k] < b[k])
  }

  /** The order is the lexicographic one. */
  lemma {:induction false} LexMeans(a: string, b: string)
    ensures LexLess(a, b) <==> exists k :: SmallerFrom(a, b, k)
  {
    forall k: nat | SmallerFrom(a, b, k) && k > 0 ensures a != "" && b != "" && a[0] == b[0] {
      assert a[0] == a[..k][0] && b[0] == b[..k][0];
    }
    if a == "" || b == "" || a[0] != b[0] {
      assert LexLess(a, b) <==> SmallerFrom(a, b, 0);
    } else {
      LexMeans(a[1..], b[1..]);
      forall k: nat | SmallerFrom(a[1..], b[1..], k) ensures SmallerFrom(a, b, k + 1) {
        assert a[..k + 1] == [a[0]] + a[1..][..k] && b[..k + 1] == [b[0]] + b[1..][..k];
      }
      forall k: nat | SmallerFrom(a, b, k) ensures k > 0 && SmallerFrom(a[1..], b[1..], k - 1) {
        assert a[1..][..k - 1] == a[..k][1..] && b[1..][..k - 1] == b[..k][1..];
      }
    }
  }

  predicate IsZeroForOne(input: Principal, output: Principal) { LexLess(input, output) }

  function InputToken(pair: Pair, d: TradeDirection): Principal { if d.Buy? then pair.quote else pair.base }

  function OutputToken(pair: Pair, d: TradeDirection): Principal { if d.Buy? then pair.base else pair.quote }

  function Swap(h: Holdings, zeroForOne: bool, amount: u128, reply: Reply): Holdings {
    match reply
    case None => h
    case Some(out) =>
      if zeroForOne then Holdings(h.token0 - amount, h.token1 + out) else Holdings(h.token0 + out, h.token1 - amount)
  }

  /** `execute_call_trade_no_slippage`. */
  function Trade(pair: Pair, h: Holdings, d: TradeDirection, amount: u128, reply: Reply): Holdings {
    Swap(h, IsZeroForOne(InputToken(pair, d), OutputToken(pair, d)), amount, reply)
  }

  /** The pool lists the token with the smaller id first. */
  function PoolToken0(pair: Pair): Principal { if LexLess(pair.base, pair.quote) then pair.base else pair.quote }

  /** `check_icpswap_balance`: base and quote balance, picked by the id of token 0. */
  function BaseAndQuote(pair: Pair, h: Holdings): (int, int) {
    if pair.base == PoolToken0(pair) then (h.token0, h.token1) else (h.token1, h.token0)
  }

  function BalanceOf(pair: Pair, h: Holdings, token: Principal): int {
    if token == pair.base then BaseAndQuote(pair, h).0 else BaseAndQuote(pair, h).1
  }

  /** The token sold is debited and the token bought is credited, as the balance check reports them. */
  predicate MovesItsTokens(pair: Pair, h: Holdings, h': Holdings, d: TradeDirection, amount: u128, reply: Reply) {
    && BalanceOf(pair, h', InputToken(pair, d)) == BalanceOf(pair, h, InputToken(pair, d)) - (if reply.Some? then amount else 0)
    && BalanceOf(pair, h', OutputToken(pair, d)) ==
       BalanceOf(pair, h, OutputToken(pair, d)) + (if reply.Some? then reply.value else 0)
  }

  /** A trade moves its tokens, in either order of their ids, exactly if they are two different
      tokens or nothing is moved at all. */
  lemma TradeMovesItsTokens(pair: Pair, h: Holdings, d: TradeDirection, amount: u128, reply: Reply)
    ensures MovesItsTokens(pair, h, Trade(pair, h, d, amount, reply), d, amount, reply) <==>
            pair.base != pair.quote || reply.None? || (amount == 0 && reply.value == 0)
  {
    LexTotal(pair.base, pair.quote);
  }

  // ---------- A list of orders ----------

  /** The pool's answers by order number; orders of zero are skipped. */
  type Replies = nat -> Reply

  function Filled(orders: seq<u128>, replies: Replies, n: nat): nat
    requires n <= |orders|
  {
    if n == 0 then 0 else
      Filled(orders, replies, n - 1) + (if replies(n - 1).Some? then orders[n - 1] else 0)
  }

  function Received(orders: seq<u128>, replies: Replies, n: nat): nat
    requires n <= |orders|
  {
    if n == 0 then 0 else
      Received(orders, replies, n - 1) +
      (if orders[n - 1] != 0 && replies(n - 1).Some? then replies(n - 1).value else 0)
  }

  function Unfilled(orders: seq<u128>, replies: Replies, n: nat): nat
    requires n <= |orders|
  {
    if n == 0 then 0 else
      Unfilled(orders, replies, n - 1) + (if replies(n - 1).None? then orders[n - 1] else 0)
  }

  function Execute(pair: Pair, h: Holdings, d: TradeDirection, orders: seq<u128>, replies: Replies, n: nat): Holdings
    requires n <= |orders|
  {
    if n == 0 then h else
      var h1 := Execute(pair, h, d, orders, replies, n - 1);
      if orders[n - 1] == 0 then h1 else Trade(pair, h1, d, orders[n - 1], replies(n - 1))
  }

  lemma {:induction false} SumPrefix(s: seq<u128>, n: nat)
    requires n < |s|
    ensures Sum(s[..n + 1]) == Sum(s[..n]) + s[n]
  {
    if n > 0 {
      SumPrefix(s[1..], n - 1);
      assert s[..n + 1][1..] == s[1..][..n] && s[..n][1..] == s[1..][..n - 1];
    }
  }

  /** Every order is filled or not. */
  lemma {:induction false} FilledOrNot(orders: seq<u128>, replies: Replies, n: nat)
    requires n <= |orders|
    ensures Filled(orders, replies, n) + Unfilled(orders, replies, n) == Sum(orders[..n])
  {
    if n > 0 {
      FilledOrNot(orders, replies, n - 1);
      SumPrefix(orders, n - 1);
    }
  }

  /** A list of orders moves its filled inputs and its outputs, by position at the pool. */
  lemma {:induction false} ExecuteMovesPositions(pair: Pair, h: Holdings, d: TradeDirection, orders: seq<u128>, replies: Replies, n: nat)
    requires n <= |orders|
    ensures Execute(pair, h, d, orders, replies, n) ==
            if IsZeroForOne(InputToken(pair, d), OutputToken(pair, d))
            then Holdings(h.token0 - Filled(orders, replies, n), h.token1 + Received(orders, replies, n))
            else Holdings(h.token0 + Received(orders, replies, n), h.token1 - Filled(orders, replies, n))
  {
    if n > 0 {
      ExecuteMovesPositions(pair, h, d, orders, replies, n - 1);
    }
  }

  /** The token sold pays the filled inputs and the token bought receives the outputs. */
  predicate OrdersMoved(pair: Pair, h: Holdings, h': Holdings, d: TradeDirection, orders: seq<u128>, replies: Replies, n: nat)
    requires n <= |orders|
  {
    && BalanceOf(pair, h', InputToken(pair, d)) == BalanceOf(pair, h, InputToken(pair, d)) - Filled(orders, replies, n)
    && BalanceOf(pair, h', OutputToken(pair, d)) == BalanceOf(pair, h, OutputToken(pair, d)) + Received(orders, replies, n)
  }

  /** A list of orders moves its filled inputs and its outputs, token by token, exactly if the tokens
      differ or nothing is moved. */
  lemma ExecuteMoves(pair: Pair, h: Holdings, d: TradeDirection, orders: seq<u128>, replies: Replies, n: nat)
    requires n <= |orders|
    ensures OrdersMoved(pair, h, Execute(pair, h, d, orders, replies, n), d, orders, replies, n) <==>
            pair.base != pair.quote || (Filled(orders, replies, n) == 0 && Received(orders, replies, n) == 0)
  {
    ExecuteMovesPositions(pair, h, d, orders, replies, n);
    LexTotal(pair.base, pair.quote);
    hide Execute, Filled, Received, LexLess;
  }

  // ---------- The two stages ----------

  function Reverse(d: TradeDirection): TradeDirection { if d.Buy? then Sell else Buy }

  /** The first stage is split by the hold token of the configuration read at its start. */
  predicate SplitFirst(t: OrderSplitType, holdIsBase: bool) {
    match t
    case NoSplit => false
    case SplitBuy => !holdIsBase
    case SplitSell => holdIsBase
    case SplitBoth => true
  }

  /** The second stage is split by the direction it trades in. */
  predicate SplitSecond(t: OrderSplitType, d: TradeDirection) {
    match t
    case NoSplit => false
    case SplitBuy => d.Buy?
    case SplitSell => d.Sell?
    case SplitBoth => true
  }

  function WrapSum(s: seq<u128>): u128 { Sum(s) % TWO_128 }

  /** What one cycle is given: the direction of its first stage, the planned amounts, the split
      type, what is read of the configuration, the order count and seed drawn before stage two,
      and the answers of the pool. */
  datatype Cycle = Cycle(
    pair: Pair,
    direction: TradeDirection,
    amounts: seq<u128>,
    splitType: OrderSplitType,
    holdIsBase: bool,
    first: Replies,
    count: u64,
    seed: u64,
    second: Replies)

  function FirstOrders(c: Cycle): seq<u128> {
    if SplitFirst(c.splitType, c.holdIsBase) then c.amounts else [WrapSum(c.amounts)]
  }

  /** The proceeds of stage one, added up in 128 bits. */
  function Proceeds(c: Cycle): u128 { Received(FirstOrders(c), c.first, |FirstOrders(c)|) % TWO_128 }

  function SecondOrders(c: Cycle): seq<u128> {
    if SplitSecond(c.splitType, Reverse(c.direction)) then SplitAmount(Proceeds(c), c.count, c.seed) else [Proceeds(c)]
  }

  function AfterFirst(c: Cycle, h: Holdings): Holdings {
    Execute(c.pair, h, c.direction, FirstOrders(c), c.first, |FirstOrders(c)|)
  }

  function AfterSecond(c: Cycle, h: Holdings): Holdings {
    Execute(c.pair, AfterFirst(c, h), Reverse(c.direction), SecondOrders(c), c.second, |SecondOrders(c)|)
  }

  function Cap128(n: nat): u128 { if n <= U128_MAX then n else U128_MAX }

  /** The outcome: holdings, and the volume if the cycle counts as successful. */
  function HedgeTrades(c: Cycle, h: Holdings): (Holdings, Result<u128, ()>) {
    var orders := FirstOrders(c);
    var volume := Filled(orders, c.first, |orders|);
    if Unfilled(orders, c.first, |orders|) > 0 then (AfterFirst(c, h), Err(()))
    else if Proceeds(c) == 0 then (AfterFirst(c, h), Ok(Cap128(volume)))
    else
      var orders' := SecondOrders(c);
      if !SplitSecond(c.splitType, Reverse(c.direction)) && Unfilled(orders', c.second, |orders'|) > 0 then
        (AfterSecond(c, h), Err(()))
      else
        (AfterSecond(c, h), Ok(Cap128(volume + Filled(orders', c.second, |orders'|))))
  }

  // ---------- When a cycle succeeds, and what is split ----------

  /** Which stage is split, by split type and by what it does: stage one sells the hold token, and stage
      two trades the other way. */
  lemma SplittingTable(c: Cycle)
    ensures FirstOrders(c) ==
            match c.splitType
            case NoSplit => [WrapSum(c.amounts)]
            case SplitBuy => if c.holdIsBase then [WrapSum(c.amounts)] else c.amounts
            case SplitSell => if c.holdIsBase then c.amounts else [WrapSum(c.amounts)]
            case SplitBoth => c.amounts
    ensures SecondOrders(c) ==
            match c.splitType
            case NoSplit => [Proceeds(c)]
            case SplitBuy => if c.direction.Sell? then SplitAmount(Proceeds(c), c.count, c.seed) else [Proceeds(c)]
            case SplitSell => if c.direction.Buy? then SplitAmount(Proceeds(c), c.count, c.seed) else [Proceeds(c)]
            case SplitBoth => SplitAmount(Proceeds(c), c.count, c.seed)
  {
    hide Proceeds, SplitAmount;
  }

  predicate StageTwoIsSplit(c: Cycle) {
    c.splitType.SplitBoth? || (c.splitType.SplitBuy? && c.direction.Sell?) || (c.splitType.SplitSell? && c.direction.Buy?)
  }

  lemma {:induction false} UnfilledMeans(orders: seq<u128>, replies: Replies, n: nat)
    requires n <= |orders|
    ensures Unfilled(orders, replies, n) == 0 <==> forall i :: 0 <= i < n && orders[i] != 0 ==> replies(i).Some?
  {
    if n > 0 {
      UnfilledMeans(orders, replies, n - 1);
    }
  }

  /** A cycle succeeds exactly if every order of stage one that is not zero was filled, and its outputs add
      up to nothing in 128 bits, or stage two is split, or its single order was filled. */
  lemma SucceedsExactly(c: Cycle, h: Holdings)
    ensures HedgeTrades(c, h).1.Ok? <==>
            && (forall i :: 0 <= i < |FirstOrders(c)| && FirstOrders(c)[i] != 0 ==> c.first(i).Some?)
            && (Received(FirstOrders(c), c.first, |FirstOrders(c)|) % 0x1_0000_0000_0000_0000_0000_0000_0000_0000 == 0
                || StageTwoIsSplit(c) || c.second(0).Some?)
  {
    hide SplitAmount, Execute, Received, Sum, FirstOrders;
    UnfilledMeans(FirstOrders(c), c.first, |FirstOrders(c)|);
    UnfilledMeans(SecondOrders(c), c.second, |SecondOrders(c)|);
    hide Unfilled;
  }

  /** A cycle that goes on to stage two executes it, whatever it then reports. */
  lemma StageTwoIsExecuted(c: Cycle, h: Holdings)
    requires forall i :: 0 <= i < |FirstOrders(c)| && FirstOrders(c)[i] != 0 ==> c.first(i).Some?
    requires Received(FirstOrders(c), c.first, |FirstOrders(c)|) % 0x1_0000_0000_0000_0000_0000_0000_0000_0000 != 0
    ensures HedgeTrades(c, h).0 ==
            Execute(c.pair, Execute(c.pair, h, c.direction, FirstOrders(c), c.first, |FirstOrders(c)|),
                    if c.direction.Buy? then Sell else Buy, SecondOrders(c), c.second, |SecondOrders(c)|)
  {
    hide SplitAmount, Execute, Received, Sum, FirstOrders, Filled;
    UnfilledMeans(FirstOrders(c), c.first, |FirstOrders(c)|);
  }

  /** Whether the cycle ends after its first stage, without proceeds. */
  predicate Skipped(c: Cycle) { Proceeds(c) == 0 }

  function UnfilledSecond(c: Cycle): nat {
    if Skipped(c) then 0 else Unfilled(SecondOrders(c), c.second, |SecondOrders(c)|)
  }

  function FilledSecond(c: Cycle): nat {
    if Skipped(c) then 0 else Filled(SecondOrders(c), c.second, |SecondOrders(c)|)
  }

  function ReceivedSecond(c: Cycle): nat {
    if Skipped(c) then 0 else Received(SecondOrders(c), c.second, |SecondOrders(c)|)
  }

  /** What an inexact split of stage two takes beyond the proceeds. */
  function Excess(c: Cycle): nat {
    if Skipped(c) || !SplitSecond(c.splitType, Reverse(c.direction)) || c.count < 2 then 0
    else Max(0, c.count - 1 - Proceeds(c))
  }

  /** The other token changes by the unfilled orders of stage two less the excess, the hold token by
      what stage two bought less what stage one sold. */
  predicate Neutral(c: Cycle, h: Holdings, h': Holdings) {
    var other, hold := OutputToken(c.pair, c.direction), InputToken(c.pair, c.direction);
    && BalanceOf(c.pair, h', other) == BalanceOf(c.pair, h, other) + UnfilledSecond(c) - Excess(c)
    && BalanceOf(c.pair, h', hold) == BalanceOf(c.pair, h, hold) - Sum(FirstOrders(c)) + ReceivedSecond(c)
  }

  /** Neutrality. For every split type, direction and pattern of answers, a successful cycle is neutral
      exactly if it trades two different tokens and its proceeds fit 128 bits, or it sells nothing.
      Its volume is the inputs of stage one plus the filled inputs of stage two, and there is an
      excess exactly if the split of stage two is inexact. */
  lemma HedgeNeutrality(c: Cycle, h: Holdings)
    ensures var (h', r) := HedgeTrades(c, h);
            r.Ok? ==>
              && (Neutral(c, h, h') <==>
                  (c.pair.base != c.pair.quote && Received(FirstOrders(c), c.first, |FirstOrders(c)|) <= U128_MAX)
                  || Sum(FirstOrders(c)) == 0)
              && r.value == Min(Sum(FirstOrders(c)) + FilledSecond(c), 0xFFFF_FFFF_FFFF_FFFF_FFFF_FFFF_FFFF_FFFF)
              && (Excess(c) == 0 <==> Skipped(c) || Sum(SecondOrders(c)) == Proceeds(c))
  {
    if HedgeTrades(c, h).1.Ok? {
      SoldNothing(c.first, FirstOrders(c), |FirstOrders(c)|);
      CycleTotals(c, h);
      assert FirstOrders(c)[..|FirstOrders(c)|] == FirstOrders(c);
      if c.pair.base != c.pair.quote {
        TwoTokenCycle(c, h);
      } else {
        hide HedgeTrades, FirstOrders, SecondOrders, Proceeds, Sum, Filled, Received, LexLess, Excess, FilledSecond;
        OneTokenPair(c, h);
        LexTotal(c.pair.base, c.pair.quote);
      }
    }
  }

  /** Sums of a successful cycle. */
  lemma CycleTotals(c: Cycle, h: Holdings)
    requires HedgeTrades(c, h).1.Ok?
    ensures Filled(FirstOrders(c), c.first, |FirstOrders(c)|) == Sum(FirstOrders(c))
    ensures HedgeTrades(c, h).1.value == Cap128(Sum(FirstOrders(c)) + FilledSecond(c))
    ensures FilledSecond(c) + UnfilledSecond(c) == (if Skipped(c) then 0 else Proceeds(c) + Excess(c))
    ensures Excess(c) == 0 <==> Skipped(c) || Sum(SecondOrders(c)) == Proceeds(c)
  {
    hide SplitAmount, Execute, Filled, Received, Unfilled, Sum, FirstOrders;
    var orders, orders' := FirstOrders(c), SecondOrders(c);
    FilledOrNot(orders, c.first, |orders|);
    FilledOrNot(orders', c.second, |orders'|);
    assert orders[..|orders|] == orders && orders'[..|orders'|] == orders';
    if Proceeds(c) > 0 {
      SecondOrdersSum(c);
    }
  }

  lemma TwoTokenCycle(c: Cycle, h: Holdings)
    requires HedgeTrades(c, h).1.Ok? && c.pair.base != c.pair.quote
    requires Sum(FirstOrders(c)) == 0 ==> Received(FirstOrders(c), c.first, |FirstOrders(c)|) == 0
    ensures Neutral(c, h, HedgeTrades(c, h).0) <==> Received(FirstOrders(c), c.first, |FirstOrders(c)|) <= U128_MAX
  {
    CycleTotals(c, h);
    hide SplitAmount, Execute, Filled, Received, Unfilled, LexLess, Sum, FirstOrders, BalanceOf, SecondOrders, Excess, SplitSecond;
    var orders, orders' := FirstOrders(c), SecondOrders(c);
    ExecuteMoves(c.pair, h, c.direction, orders, c.first, |orders|);
    ExecuteMoves(c.pair, AfterFirst(c, h), Reverse(c.direction), orders', c.second, |orders'|);
    Fits(Received(orders, c.first, |orders|));
    NoExcessWhenSkipped(c);
  }

  lemma NoExcessWhenSkipped(c: Cycle)
    ensures Skipped(c) ==> Excess(c) == 0
  {
  }

  /** Orders that add up to nothing are all skipped. */
  lemma {:induction false} SoldNothing(replies: Replies, orders: seq<u128>, n: nat)
    requires n <= |orders|
    ensures Sum(orders[..n]) == 0 ==> Filled(orders, replies, n) == 0 && Received(orders, replies, n) == 0
  {
    if n > 0 {
      SoldNothing(replies, orders, n - 1);
      SumPrefix(orders, n - 1);
    }
  }

  /** With a drawn order count the excess is at most eight units, and there is none once the
      proceeds are nine units. */
  lemma DrawnCountExcess(c: Cycle, now: u64)
    requires c.count == SplitOrderCount(now)
    ensures Excess(c) <= 8 && (Proceeds(c) >= 9 ==> Excess(c) == 0)
  {
    hide Proceeds;
  }

  /** A pair of one token with itself, which initialisation does not reject: both stages trade in
      the same direction. A successful cycle gives away all its inputs in the second position and
      keeps all outputs in the first; a failed one does so with stage one alone. */
  lemma OneTokenPair(c: Cycle, h: Holdings)
    ensures c.pair.base == c.pair.quote ==>
            var (h', r) := HedgeTrades(c, h);
            var n := |FirstOrders(c)|;
            && h'.token0 == h.token0 + Received(FirstOrders(c), c.first, n) + (if r.Ok? then ReceivedSecond(c) else 0)
            && h'.token1 == h.token1 - Filled(FirstOrders(c), c.first, n) - (if r.Ok? then FilledSecond(c) else 0)
  {
    hide SplitAmount, Execute, Filled, Received, Sum, FirstOrders;
    LexTotal(c.pair.base, c.pair.quote);
    var orders, orders' := FirstOrders(c), SecondOrders(c);
    ExecuteMovesPositions(c.pair, h, c.direction, orders, c.first, |orders|);
    ExecuteMovesPositions(c.pair, AfterFirst(c, h), Reverse(c.direction), orders', c.second, |orders'|);
    if Proceeds(c) != 0 && HedgeTrades(c, h).1.Err? && Unfilled(orders, c.first, |orders|) == 0 {
      NothingBought(c, AfterFirst(c, h));
    }
  }

  /** A cycle that reports an error leaves what stage one moved and moves no more, without any bound on
      its proceeds: the other token keeps them, the hold token has paid the filled orders. Token by
      token that holds exactly if the tokens differ or nothing was moved. */
  lemma FailedCycleKeepsProceeds(c: Cycle, h: Holdings)
    ensures var (h', r) := HedgeTrades(c, h);
            var orders := FirstOrders(c);
            r.Err? ==>
              && h' == AfterFirst(c, h)
              && (OrdersMoved(c.pair, h, h', c.direction, orders, c.first, |orders|) <==>
                  c.pair.base != c.pair.quote || (Filled(orders, c.first, |orders|) == 0 && Received(orders, c.first, |orders|) == 0))
  {
    hide SplitAmount, Execute, Filled, Received, LexLess, FirstOrders, OrdersMoved;
    var orders := FirstOrders(c);
    ExecuteMoves(c.pair, h, c.direction, orders, c.first, |orders|);
    if HedgeTrades(c, h).1.Err? && Unfilled(orders, c.first, |orders|) == 0 {
      NothingBought(c, AfterFirst(c, h));
    }
  }

  /** A single order of stage two that fails moves nothing. */
  lemma NothingBought(c: Cycle, h: Holdings)
    requires !SplitSecond(c.splitType, Reverse(c.direction)) && Unfilled(SecondOrders(c), c.second, 1) > 0
    ensures Execute(c.pair, h, Reverse(c.direction), SecondOrders(c), c.second, 1) == h
  {
    assert Unfilled(SecondOrders(c), c.second, 0) == 0;
    assert Execute(c.pair, h, Reverse(c.direction), SecondOrders(c), c.second, 0) == h;
  }

  lemma Fits(n: nat)
    ensures n % TWO_128 == n <==> n <= U128_MAX
  {
  }

  lemma SecondOrdersSum(c: Cycle)
    requires Proceeds(c) > 0
    ensures Sum(SecondOrders(c)) ==
            if SplitSecond(c.splitType, Reverse(c.direction)) && c.count >= 2 then Max(Proceeds(c), c.count - 1) else Proceeds(c)
  {
    hide Received, Filled, Unfilled;
    SumOfOne(Proceeds(c));
    if c.count >= 2 {
      hide SplitAmount;
      SplitIsExact(Proceeds(c), c.count, c.seed);
    }
  }

  lemma SumOfOne(a: u128)
    ensures Sum([a]) == a
  {
    assert [a][1..] == [];
  }

  /** What stage one sells is the amount determined for the cycle exactly if the amount is at
      least the drawn order count less one; a smaller positive amount is exceeded. This holds
      for single orders too, because their amount is the sum of the split. */
  lemma FirstStageSells(c: Cycle, amount: u128, count: u64, seed: u64)
    requires amount > 0 && 2 <= count && c.amounts == SplitAmount(amount, count, seed)
    ensures Sum(FirstOrders(c)) == Max(amount, count - 1)
    ensures Sum(FirstOrders(c)) == amount <==> amount >= count - 1
  {
    hide SplitAmount, Sum;
    SplitIsExact(amount, count, seed);
    Fits(Sum(c.amounts));
    SumOfOne(WrapSum(c.amounts));
  }

  /** `get_split_order_count`: three to ten orders, one more with each nanosecond, then anew. */
  function SplitOrderCount(now: u64): (n: u64)
    ensures 3 <= n <= 10 && (n - now) % 8 == 3
  {
    now % 8 + 3
  }

  /** The smallest amounts show the excess: one unit to sell becomes nine with ten orders. */
  lemma OneUnitOverdraws(c: Cycle, seed: u64)
    requires c.amounts == SplitAmount(1, 10, seed)
    ensures Sum(FirstOrders(c)) == 9
  {
    FirstStageSells(c, 1, 10, seed);
  }
}
