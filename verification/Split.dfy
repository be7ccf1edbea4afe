/** Splitting an amount into pseudo-random orders, in wrapping 128-bit arithmetic. */
module Split {
  import opened Common

  function Mul128(a: u128, b: u128): u128 { (a * b) % TWO_128 }

  function SatSub128(a: u128, b: u128): u128 { if b <= a then a - b else 0 }

  function SatAdd128(a: u128, b: u128): u128 { if a + b <= U128_MAX then a + b else U128_MAX }

  function Sum(s: seq<u128>): nat { if s == [] then 0 else s[0] + Sum(s[1..]) }

  /** At least a tenth of the average, and at least one. */
  function MinAmount(total: u128, count: u64): u128
    requires count > 0
  {
    Max(1, Mul128(total / count, 10) / 100)
  }

  type Percent = n: int | 0 <= n <= 100

  /** The random factor by order number. */
  type Factors = u64 -> Percent

  function RandomFactor(seed: u64, i: u64): Percent {
    (seed + i * 7919 + seed % (i + 1) * 104729) % 101
  }

  function SeededFactors(seed: u64): Factors { i => RandomFactor(seed, i) }

  /** A random part of `range`: that many hundredths of it, rounded down, and within it even where
      the product wraps. */
  function RandomPart(factor: Percent, range: u128): (part: u128)
    ensures part <= range
    ensures factor * range < TWO_128 ==> 100 * part <= factor * range < 100 * part + 100
  {
    MulMonotone(factor, 100, range);
    ModAtMost(factor * range, TWO_128);
    Mul128(factor, range) / 100
  }

  /** Order number `i` when `left` is still to be split into `splits` orders. */
  function Order(left: u128, splits: u64, min: u128, fs: Factors, i: u64): u128
    requires splits > 0
  {
    var most := SatSub128(left, Mul128(min, splits - 1));
    if most <= min then min else min + RandomPart(fs(i), most - min)
  }

  lemma MulMonotone(a: nat, b: nat, c: nat)
    requires a <= b
    ensures a * c <= b * c
  {
  }

  lemma ModAtMost(a: nat, n: nat)
    requires n > 0
    ensures a % n <= a
  {
  }

  function Orders(left: u128, splits: u64, min: u128, fs: Factors, i: u64): seq<u128>
    requires 0 < splits && i + splits <= TWO_64
    decreases splits
  {
    if splits == 1 then [left] else
      var amount := Order(left, splits, min, fs, i);
      [amount] + Orders(SatSub128(left, amount), splits - 1, min, fs, i + 1)
  }

  function SplitAmount(total: u128, count: u64, seed: u64): seq<u128> {
    if count <= 1 || total == 0 then [total] else Orders(total, count, MinAmount(total, count), SeededFactors(seed), 0)
  }

  /** The source's loop; `seed` is the time it starts at. */
  method SplitAmountLoop(total: u128, count: u64, seed: u64) returns (result: seq<u128>)
    ensures result == SplitAmount(total, count, seed)
  {
    hide *;
    ghost var orders := SplitAmount(total, count, seed);
    SplitUnfolds(total, count, seed);
    if count <= 1 || total == 0 {
      return [total];
    }
    result := [];
    var min := MinAmount(total, count);
    ghost var fs := SeededFactors(seed);
    var remaining := total;
    var splits := count;
    for i := 0 to count - 1
      invariant splits == count - i
      invariant result + Orders(remaining, splits, min, fs, i) == orders
    {
      var amount := DrawOrder(remaining, splits, min, seed, i);
      MoveBracket(result, amount, Orders(SatSub128(remaining, amount), splits - 1, min, fs, i + 1));
      result := result + [amount];
      remaining := SatSub128(remaining, amount);
      splits := splits - 1;
    }
    LastOrder(remaining, min, fs, count - 1);
    result := result + [remaining];
  }

  lemma SplitUnfolds(total: u128, count: u64, seed: u64)
    ensures SplitAmount(total, count, seed) ==
            if count <= 1 || total == 0 then [total] else Orders(total, count, MinAmount(total, count), SeededFactors(seed), 0)
  {
    hide Orders, MinAmount;
  }

  lemma MoveBracket(s: seq<u128>, a: u128, t: seq<u128>)
    ensures s + ([a] + t) == (s + [a]) + t
  {
  }

  /** The body of the loop: the minimum if no more can be had, else a random amount. */
  method DrawOrder(left: u128, splits: u64, min: u128, seed: u64, i: u64) returns (amount: u128)
    requires 1 < splits && i + splits <= TWO_64
    ensures var fs := SeededFactors(seed);
            Orders(left, splits, min, fs, i) == [amount] + Orders(SatSub128(left, amount), splits - 1, min, fs, i + 1)
  {
    hide Mul128, RandomFactor, RandomPart, Order, Orders, SatSub128;
    NextOrder(left, splits, min, SeededFactors(seed), i);
    var most := SatSub128(left, Mul128(min, splits - 1));
    if most <= min {
      amount := min;
    } else {
      var factor := RandomFactor(seed, i);
      amount := min + RandomPart(factor, most - min);
    }
  }

  lemma NextOrder(left: u128, splits: u64, min: u128, fs: Factors, i: u64)
    requires 1 < splits && i + splits <= TWO_64
    ensures var most := SatSub128(left, Mul128(min, splits - 1));
            var amount := Order(left, splits, min, fs, i);
            && (most <= min ==> amount == min)
            && (most > min ==> amount == min + RandomPart(fs(i), most - min))
            && Orders(left, splits, min, fs, i) == [amount] + Orders(SatSub128(left, amount), splits - 1, min, fs, i + 1)
  {
    hide Mul128, RandomPart;
  }

  lemma LastOrder(left: u128, min: u128, fs: Factors, i: u64)
    requires i + 1 <= TWO_64
    ensures Orders(left, 1, min, fs, i) == [left]
  {
  }

  // ---------- Exactness ----------

  lemma NoWrap(a: u128, b: u128)
    requires a * b <= U128_MAX
    ensures Mul128(a, b) == a * b
  {
  }

  lemma TimesPred(a: nat, n: nat)
    requires n > 0
    ensures a * n == a * (n - 1) + a
    ensures a * (n - 1) >= 0
  {
  }

  /** An order leaves enough for the minimum of all later ones. */
  lemma OrderInRange(left: u128, splits: u64, min: u128, fs: Factors, i: u64)
    requires splits > 1 && min * splits <= left
    ensures min <= Order(left, splits, min, fs, i) <= left - min * (splits - 1)
  {
    hide Mul128, RandomPart;
    TimesPred(min, splits);
    NoWrap(min, splits - 1);
  }

  /** With enough for everyone the orders are an exact partition into parts of the right size. */
  lemma {:induction false} OrdersExact(left: u128, splits: u64, min: u128, fs: Factors, i: u64, most: nat)
    requires 0 < splits && i + splits <= TWO_64
    requires min * splits <= left && left - min * (splits - 1) <= most
    ensures var r := Orders(left, splits, min, fs, i);
            |r| == splits && Sum(r) == left && forall k :: 0 <= k < splits ==> min <= r[k] <= most
    decreases splits
  {
    if splits > 1 {
      hide Order, Mul128;
      var amount := Order(left, splits, min, fs, i);
      OrderInRange(left, splits, min, fs, i);
      RestFits(left, amount, min, splits);
      var left' := left - amount;
      OrdersExact(left', splits - 1, min, fs, i + 1, most);
      FirstAndRest(left, left', splits, min, fs, i, amount, most);
    }
  }

  lemma FirstAndRest(left: u128, left': u128, splits: u64, min: u128, fs: Factors, i: u64, amount: u128, most: nat)
    requires 1 < splits && i + splits <= TWO_64 && amount == Order(left, splits, min, fs, i) && left' == left - amount
    requires min <= amount <= most
    requires var rest := Orders(left', splits - 1, min, fs, i + 1);
             |rest| == splits - 1 && Sum(rest) == left' && forall k :: 0 <= k < splits - 1 ==> min <= rest[k] <= most
    ensures var r := Orders(left, splits, min, fs, i);
            |r| == splits && Sum(r) == left && forall k :: 0 <= k < splits ==> min <= r[k] <= most
  {
    hide Order, Mul128;
    var rest := Orders(left', splits - 1, min, fs, i + 1);
    var r := Orders(left, splits, min, fs, i);
    assert r == [amount] + rest && r[1..] == rest;
  }

  /** What is left after an order within its range suffices for the rest. */
  lemma RestFits(left: u128, amount: u128, min: u128, splits: u64)
    requires splits > 1 && min <= amount <= left - min * (splits - 1)
    ensures 0 <= left - amount && min * (splits - 1) <= left - amount
    ensures left - amount - min * (splits - 1 - 1) <= left - min * (splits - 1)
  {
    TimesPred(min, splits - 1);
  }

  /** With less than one unit per order every order but the last is one unit. */
  lemma {:induction false} OrdersShort(left: u128, splits: u64, fs: Factors, i: u64)
    requires 0 < splits && i + splits <= TWO_64 && left < splits
    ensures var r := Orders(left, splits, 1, fs, i);
            && |r| == splits && Sum(r) == splits - 1
            && (forall k :: 0 <= k < splits ==> r[k] == if k < splits - 1 then 1 else 0)
    decreases splits
  {
    if splits > 1 {
      NoWrap(1, splits - 1);
      OrdersShort(SatSub128(left, 1), splits - 1, fs, i + 1);
      var rest := Orders(SatSub128(left, 1), splits - 1, 1, fs, i + 1);
      var r := Orders(left, splits, 1, fs, i);
      assert r == [1] + rest && r[1..] == rest;
      forall k | 0 <= k < splits ensures r[k] == if k < splits - 1 then 1 else 0 {
        if k > 0 {
          assert r[k] == rest[k - 1];
        }
      }
    }
  }

  /** On the way through the orders no saturating subtraction clamps: the reserved minimum and each
      order fit what is left. */
  ghost predicate NothingClamps(left: u128, splits: u64, min: u128, fs: Factors, i: u64)
    requires 0 < splits && i + splits <= TWO_64
    decreases splits
  {
    splits == 1 ||
    (var amount := Order(left, splits, min, fs, i);
     Mul128(min, splits - 1) <= left && amount <= left && NothingClamps(left - amount, splits - 1, min, fs, i + 1))
  }

  lemma {:induction false} EnoughClampsNothing(left: u128, splits: u64, min: u128, fs: Factors, i: u64)
    requires 0 < splits && i + splits <= TWO_64 && min * splits <= left
    ensures NothingClamps(left, splits, min, fs, i)
    decreases splits
  {
    if splits > 1 {
      hide Order, Mul128;
      OrderInRange(left, splits, min, fs, i);
      var amount := Order(left, splits, min, fs, i);
      RestFits(left, amount, min, splits);
      NoWrap(min, splits - 1);
      EnoughClampsNothing(left - amount, splits - 1, min, fs, i + 1);
    }
  }

  lemma {:induction false} OnesClampNothing(left: u128, fs: Factors, i: u64)
    requires i + left + 1 <= TWO_64 && left < U64_MAX
    ensures NothingClamps(left, left + 1, 1, fs, i)
  {
    if left > 0 {
      NoWrap(1, left);
      OnesClampNothing(left - 1, fs, i + 1);
    }
  }

  /** Splitting an amount clamps nothing exactly if the amount is at least the order count less one,
      which is when the split is exact. */
  lemma ClampsExactly(total: u128, count: u64, seed: u64)
    requires total > 0 && count >= 2
    ensures NothingClamps(total, count, MinAmount(total, count), SeededFactors(seed), 0) <==> total >= count - 1
  {
    if total >= count {
      MinAmountFits(total, count);
      EnoughClampsNothing(total, count, MinAmount(total, count), SeededFactors(seed), 0);
    } else {
      MinAmountShort(total, count);
      NoWrap(1, count - 1);
      if total == count - 1 {
        OnesClampNothing(total, SeededFactors(seed), 0);
      }
    }
  }

  lemma MinAmountFits(total: u128, count: u64)
    requires count > 0 && total >= count
    ensures MinAmount(total, count) * count <= total
    ensures total / count * 10 <= U128_MAX ==> MinAmount(total, count) == Max(1, total / count / 10)
  {
    var avg := total / count;
    assert avg * count <= total;
    assert total < (avg + 1) * count;
    ModAtMost(avg * 10, TWO_128);
    assert MinAmount(total, count) <= avg;
    MulMonotone(MinAmount(total, count), avg, count);
  }

  lemma MinAmountShort(total: u128, count: u64)
    requires count > 0 && total < count
    ensures MinAmount(total, count) == 1
  {
    assert total / count == 0;
  }

  /** For every amount, order count and seed, and with no bound that would keep the products in
      128 bits: the orders add up to the amount or to one less than their count, whichever is
      more. They are an exact split exactly if the amount is at least the count less one. */
  lemma SplitIsExact(total: u128, count: u64, seed: u64)
    requires total > 0 && count >= 2
    ensures var r := SplitAmount(total, count, seed);
            && |r| == count
            && Sum(r) == Max(total, count - 1)
            && (Sum(r) == total <==> total >= count - 1)
            && (total >= count ==>
                  var min := MinAmount(total, count);
                  && min >= 1
                  && forall k :: 0 <= k < count ==> min <= r[k] <= total - min * (count - 1))
  {
    if total >= count {
      MinAmountFits(total, count);
      OrdersExact(total, count, MinAmount(total, count), SeededFactors(seed), 0, total - MinAmount(total, count) * (count - 1));
    } else {
      MinAmountShort(total, count);
      OrdersShort(total, count, SeededFactors(seed), 0);
    }
  }

  // ---------- The parts, one by one ----------

  lemma PrefixSum(a: u128, t: seq<u128>, k: nat)
    requires 0 < k <= |t| + 1
    ensures ([a] + t)[..k] == [a] + t[..k - 1] && Sum(([a] + t)[..k]) == a + Sum(t[..k - 1])
  {
    assert ([a] + t[..k - 1])[1..] == t[..k - 1];
  }

  /** Order `k` and what is left before it; `ahead` counts the orders from there on. */
  lemma {:induction false} OrdersAt(left: u128, splits: u64, min: u128, fs: Factors, i: u64, k: nat, ahead: nat)
    requires 0 < splits && i + splits <= TWO_64 && min * splits <= left && k < splits && ahead == splits - k
    ensures var r := Orders(left, splits, min, fs, i);
            && |r| == splits
            && var rest := left - Sum(r[..k]);
            && min * ahead <= rest < TWO_128
            && r[k] == if ahead == 1 then rest else Order(rest, ahead, min, fs, i + k)
    decreases splits
  {
    hide Order, Orders, Mul128, SatSub128, Sum;
    if k == 0 {
      OrdersAtFirst(left, splits, min, fs, i);
    } else {
      var amount := Order(left, splits, min, fs, i);
      OrderInRange(left, splits, min, fs, i);
      RestFits(left, amount, min, splits);
      NextOrder(left, splits, min, fs, i);
      Subtracts(left, amount);
      OrdersAt(left - amount, splits - 1, min, fs, i + 1, k - 1, ahead);
      PrefixSum(amount, Orders(left - amount, splits - 1, min, fs, i + 1), k);
    }
  }

  lemma OrdersAtFirst(left: u128, splits: u64, min: u128, fs: Factors, i: u64)
    requires 0 < splits && i + splits <= TWO_64 && min * splits <= left
    ensures var r := Orders(left, splits, min, fs, i);
            && |r| == splits && Sum(r[..0]) == 0
            && r[0] == if splits == 1 then left else Order(left, splits, min, fs, i)
  {
    hide Order, Mul128, SatSub128;
    OrdersExact(left, splits, min, fs, i, left);
    assert Orders(left, splits, min, fs, i)[..0] == [];
  }

  lemma Subtracts(a: u128, b: u128)
    requires b <= a
    ensures SatSub128(a, b) == a - b
  {
  }

  /** One order in exact arithmetic, where enough is left. */
  lemma OrderFormula(left: u128, splits: u64, min: u128, fs: Factors, i: u64)
    requires splits > 1 && min * splits <= left
    ensures var range := left - min * (splits - 1) - min;
            0 <= range < TWO_128 && Order(left, splits, min, fs, i) == min + Mul128(fs(i), range) / 100
  {
    TimesPred(min, splits);
    hide Mul128;
    NoWrap(min, splits - 1);
    MulZero(fs(i));
  }

  lemma MulZero(a: u128)
    ensures Mul128(a, 0) == 0
  {
  }

  /** The smallest part: a tenth of the average, but at least one. */
  lemma MinAmountIs(total: u128, count: u64)
    requires count > 0 && total / count * 10 < TWO_128
    ensures MinAmount(total, count) == Max(1, total / count * 10 / 100)
  {
    NoWrap(total / count, 10);
  }

  /** Every part of a split of at least one unit each. Order `i` is the minimum and the hundredths of
      what can be spared that seed and order number determine; the last order is the rest. Products
      are taken modulo 2^128, which changes nothing where they fit. */
  lemma PartIs(total: u128, count: u64, seed: u64, i: nat)
    requires count >= 2 && total >= count && i < count
    ensures var r, min := SplitAmount(total, count, seed), MinAmount(total, count);
            && |r| == count
            && var remaining := total - Sum(r[..i]);
            if i == count - 1 then r[i] == remaining
            else
              var range := remaining - min * (count - i - 1) - min;
              var factor := (seed + i * 7919 + seed % (i + 1) * 104729) % 101;
              range >= 0 && r[i] == min + factor * range % 0x1_0000_0000_0000_0000_0000_0000_0000_0000 / 100
  {
    hide Order, Orders, MinAmount, Mul128, SeededFactors, Sum, RandomFactor;
    var min, fs := MinAmount(total, count), SeededFactors(seed);
    MinAmountFits(total, count);
    OrdersAt(total, count, min, fs, 0, i, count - i);
    if i < count - 1 {
      var remaining := total - Sum(SplitAmount(total, count, seed)[..i]);
      OrderFormula(remaining, count - i, min, fs, i);
      FactorIs(seed, i, remaining - min * (count - i - 1) - min);
    }
  }

  lemma FactorIs(seed: u64, i: u64, range: u128)
    ensures SeededFactors(seed)(i) == (seed + i * 7919 + seed % (i + 1) * 104729) % 101
    ensures Mul128(SeededFactors(seed)(i), range) == SeededFactors(seed)(i) * range % 0x1_0000_0000_0000_0000_0000_0000_0000_0000
  {
  }

  /** Inverses modulo 101 of the numbers from one to ten. */
  function Inverse(n: nat): nat
    requires 1 <= n <= 10
  {
    [1, 51, 34, 76, 81, 17, 29, 38, 45, 91][n - 1]
  }

  /** For each of the first ten orders every factor from 0 to 100 comes from some seed. */
  lemma EveryFactorOccurs(factor: Percent, i: u64) returns (seed: u64)
    requires i <= 9
    ensures RandomFactor(seed, i) == factor
  {
    var gap := (factor - i * 7919) % 101;
    seed := (i + 1) * (gap * Inverse(i + 1));
    assert 0 <= gap * Inverse(i + 1) <= 100 * 91;
    hide Inverse, RandomFactor;
    NoRest(i + 1, gap * Inverse(i + 1));
    InverseCancels(i + 1, gap);
    FactorFrom(seed, i, factor);
  }

  lemma FactorFrom(seed: u64, i: u64, factor: Percent)
    requires seed % (i + 1) == 0 && seed % 101 == (factor - i * 7919) % 101
    ensures RandomFactor(seed, i) == factor
  {
    WithoutRest(seed, i);
    hide RandomFactor;
    AddBack(seed, i * 7919, factor);
  }

  lemma WithoutRest(seed: u64, i: u64)
    requires seed % (i + 1) == 0
    ensures RandomFactor(seed, i) == (seed + i * 7919) % 101
  {
  }

  lemma AddBack(a: nat, c: nat, f: Percent)
    requires a % 101 == (f - c) % 101
    ensures (a + c) % 101 == f
  {
    var p, q := a / 101, (f - c) / 101;
    assert a + c == 101 * (p - q) + f;
  }

  lemma NoRest(a: nat, b: nat)
    requires a > 0
    ensures a * b % a == 0
  {
    var q, rest := a * b / a, a * b % a;
    assert a * b == a * q + rest;
    if b > q {
      MulMonotone(q + 1, b, a);
    } else if b < q {
      MulMonotone(b + 1, q, a);
    }
  }

  lemma InverseCancels(a: nat, gap: nat)
    requires 1 <= a <= 10 && gap < 101
    ensures a * (gap * Inverse(a)) % 101 == gap
  {
    InverseIs(a);
    hide Inverse;
    OneOver(a, Inverse(a), gap, a * Inverse(a) / 101);
  }

  lemma InverseIs(a: nat)
    requires 1 <= a <= 10
    ensures a * Inverse(a) % 101 == 1
  {
  }

  lemma OneOver(a: nat, b: nat, gap: nat, q: nat)
    requires a * b == 101 * q + 1 && gap < 101
    ensures a * (gap * b) % 101 == gap
  {
    Reorder(a, gap, b);
    Distribute(gap, q);
    assert (101 * (gap * q) + gap) % 101 == gap;
  }

  lemma Reorder(a: nat, b: nat, c: nat)
    ensures a * (b * c) == b * (a * c)
  {
  }

  lemma Distribute(gap: nat, q: nat)
    ensures gap * (101 * q + 1) == 101 * (gap * q) + gap
  {
  }

  /** Nothing to split, or into one order only, is one order. */
  lemma SplitOfNothing(total: u128, count: u64, seed: u64)
    requires count <= 1 || total == 0
    ensures SplitAmount(total, count, seed) == [total]
  {
  }

  /** With less than one unit per order every order but the last is one unit, and the last is nothing. */
  lemma SplitOfLittle(total: u128, count: u64, seed: u64)
    requires 0 < total < count
    ensures var r := SplitAmount(total, count, seed);
            count >= 2 && |r| == count && forall k :: 0 <= k < count ==> r[k] == if k < count - 1 then 1 else 0
  {
    MinAmountShort(total, count);
    OrdersShort(total, count, SeededFactors(seed), 0);
  }
}
