/** The textual identifiers of the factory: `timestamp-caller-suffix`. */
module Ids {
  import opened Common

  /** `n` in decimal, without leading zeros. */
  function Decimal(n: nat): string {
    if n < 10 then [(n + 48) as char] else Decimal(n / 10) + [(n % 10 + 48) as char]
  }

  function DeploymentId(timestamp: u64, caller: Principal, counter: u64): string {
    Decimal(timestamp) + "-" + (caller + "-" + Decimal(counter))
  }

  ghost predicate NoDash(s: string) { forall i :: 0 <= i < |s| ==> s[i] != '-' }

  lemma {:induction false} DecimalHasNoDash(n: nat)
    ensures |Decimal(n)| > 0 && NoDash(Decimal(n))
  {
    if n >= 10 {
      DecimalHasNoDash(n / 10);
    }
  }

  /** The number a string of digits denotes. */
  function ValueOf(s: string): int {
    if s == "" then 0 else ValueOf(s[..|s| - 1]) * 10 + (s[|s| - 1] as int - '0' as int)
  }

  /** Numbers are written in decimal digits, most significant first and without a leading zero. */
  lemma {:induction false} DecimalRoundTrip(n: nat)
    ensures ValueOf(Decimal(n)) == n
    ensures forall i :: 0 <= i < |Decimal(n)| ==> '0' <= Decimal(n)[i] <= '9'
    ensures n > 0 ==> Decimal(n)[0] != '0'
  {
    if n >= 10 {
      DecimalRoundTrip(n / 10);
      assert Decimal(n)[..|Decimal(n)| - 1] == Decimal(n / 10);
    } else {
      assert Decimal(n)[..0] == "";
    }
  }

  /** Time, caller and counter, in this order. */
  lemma DeploymentIdReads(t: u64, c: Principal, k: u64)
    ensures var id, time := DeploymentId(t, c, k), |Decimal(t)|;
            && ValueOf(id[..time]) == t
            && id[time..time + |"-" + c + "-"|] == "-" + c + "-"
            && ValueOf(id[time + |"-" + c + "-"|..]) == k
  {
    DecimalRoundTrip(t);
    DecimalRoundTrip(k);
    hide ValueOf, Decimal;
    Joined(Decimal(t), c, Decimal(k));
    PartsOf(Decimal(t), "-" + c + "-", Decimal(k));
  }

  lemma Joined(a: string, b: string, c: string)
    ensures a + "-" + (b + "-" + c) == a + ("-" + b + "-") + c
  {
  }

  lemma PartsOf(a: string, b: string, c: string)
    ensures var s := a + b + c;
            s[..|a|] == a && s[|a|..|a| + |b|] == b && s[|a| + |b|..] == c
  {
  }

  lemma {:induction false} DecimalInjective(a: nat, b: nat)
    requires Decimal(a) == Decimal(b)
    ensures a == b
  {
    var s, t := Decimal(a), Decimal(b);
    DecimalHasNoDash(a / 10);
    DecimalHasNoDash(b / 10);
    assert s[|s| - 1] == t[|t| - 1];
    if a >= 10 && b >= 10 {
      assert Decimal(a / 10) == s[..|s| - 1] == t[..|t| - 1] == Decimal(b / 10);
      DecimalInjective(a / 10, b / 10);
    }
  }

  /** A dash-free prefix can be cut off in only one way. */
  lemma CutAtFirstDash(x: string, y: string, x': string, y': string)
    requires NoDash(x) && NoDash(x') && x + "-" + y == x' + "-" + y'
    ensures x == x' && y == y'
  {
    var s := x + "-" + y;
    assert s[|x|] == '-' && s[|x'|] == '-';
    assert forall i :: 0 <= i < |x| ==> s[i] == x[i] != '-';
    assert forall i :: 0 <= i < |x'| ==> s[i] == x'[i] != '-';
    assert x == s[..|x|] == x';
    assert y == s[|x| + 1..] == y';
  }

  /** So can a dash-free suffix. */
  lemma CutAtLastDash(x: string, y: string, x': string, y': string)
    requires NoDash(y) && NoDash(y') && x + "-" + y == x' + "-" + y'
    ensures x == x' && y == y'
  {
    var s := x + "-" + y;
    assert s[|x|] == '-' && s[|x'|] == '-';
    assert forall i :: |x| < i < |s| ==> s[i] == y[i - |x| - 1] != '-';
    assert forall i :: |x'| < i < |s| ==> s[i] == y'[i - |x'| - 1] != '-';
    assert x == s[..|x|] == x';
    assert y == s[|x| + 1..] == y';
  }

  /** A deployment id determines the three values it was built from, whatever dashes the
      caller's text contains. */
  lemma DeploymentIdInjective(t: u64, c: Principal, k: u64, t': u64, c': Principal, k': u64)
    ensures DeploymentId(t, c, k) == DeploymentId(t', c', k') <==> t == t' && c == c' && k == k'
  {
    if DeploymentId(t, c, k) == DeploymentId(t', c', k') {
      DecimalHasNoDash(t);
      DecimalHasNoDash(t');
      DecimalHasNoDash(k);
      DecimalHasNoDash(k');
      CutAtFirstDash(Decimal(t), c + "-" + Decimal(k), Decimal(t'), c' + "-" + Decimal(k'));
      CutAtLastDash(c, Decimal(k), c', Decimal(k'));
      DecimalInjective(t, t');
      DecimalInjective(k, k');
    }
  }
}
