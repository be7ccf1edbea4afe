/** Prepaid user accounts and the transaction history of the factory. */
module Ledger {
  import opened Common
  import Ids

  datatype UserAccount = UserAccount(
    owner: Principal,
    balance: u64,
    lastDeposit: u64,
    totalDeposited: u64,
    totalConsumed: u64)

  datatype TransactionType = Deposit | DeploymentFee | Refund | AdminAdjustment | Withdrawal | Transfer

  /** What a transaction was recorded for; the source formats these as text. */
  datatype Description =
    | DepositOf(amount: u64)
    | WithdrawalOf(amount: u64)
    | FeeForStrategy
    | RefundForDeployment(id: string)
    | Reason(text: string)

  datatype TransactionRecord = TransactionRecord(
    transactionId: string,
    user: Principal,
    amount: u64,
    transactionType: TransactionType,
    timestamp: u64,
    description: Description)

  /** What the system tells a running message: the time, the caller and the canister's own id. */
  datatype Env = Env(now: u64, caller: Principal, self: string)

  const MAX_CACHE_SIZE := 1000
  const MAX_TRANSACTION_QUERY_LIMIT := 100

  /** `accounts`, `transactions` and `cache` are canister memory; `log` lists every record ever
      stored, oldest first, and exists for specification only. */
  datatype Books = Books(
    accounts: map<Principal, UserAccount>,
    transactions: map<string, TransactionRecord>,
    cache: seq<TransactionRecord>,
    log: seq<TransactionRecord>)

  function EmptyAccount(user: Principal): UserAccount { UserAccount(user, 0, 0, 0, 0) }

  function GetUserAccount(b: Books, user: Principal): UserAccount {
    if user in b.accounts then b.accounts[user] else EmptyAccount(user)
  }

  function UpdateUserBalance(b: Books, user: Principal, amount: u64, isDeposit: bool, now: u64): Result<Books, ()> {
    var a := GetUserAccount(b, user);
    if isDeposit then
      Ok(b.(accounts := b.accounts[user := a.(
              balance := SatAdd64(a.balance, amount),
              lastDeposit := now,
              totalDeposited := SatAdd64(a.totalDeposited, amount))]))
    else if a.balance < amount then
      Err(())
    else
      Ok(b.(accounts := b.accounts[user := a.(
              balance := SatSub64(a.balance, amount),
              totalConsumed := SatAdd64(a.totalConsumed, amount))]))
  }

  function TransactionId(env: Env): string {
    Ids.Decimal(env.now) + "-" + (env.caller + "-" + env.self)
  }

  function StoreTransactionRecord(b: Books, r: TransactionRecord): Books {
    var pushed := b.cache + [r];
    b.(transactions := b.transactions[r.transactionId := r],
       cache := if |pushed| > MAX_CACHE_SIZE then pushed[1..] else pushed,
       log := b.log + [r])
  }

  function RecordTransaction(b: Books, user: Principal, amount: u64, kind: TransactionType,
                             description: Description, env: Env): Books {
    StoreTransactionRecord(b, TransactionRecord(TransactionId(env), user, amount, kind, env.now, description))
  }

  /** A credit or a covered debit together with the record of it. */
  function Post(b: Books, user: Principal, amount: u64, kind: TransactionType, description: Description, env: Env): Books
    requires kind != Transfer
    requires IsCredit(kind) || GetUserAccount(b, user).balance >= amount
  {
    RecordTransaction(UpdateUserBalance(b, user, amount, IsCredit(kind), env.now).value,
                      user, amount, kind, description, env)
  }

  function GetUserTransactionRecords(b: Books, user: Principal): seq<TransactionRecord> {
    OfUser(b.cache, user)
  }

  function GetTransactionHistory(b: Books, user: Principal): seq<TransactionRecord> {
    var records := GetUserTransactionRecords(b, user);
    if |records| > MAX_TRANSACTION_QUERY_LIMIT then records[..MAX_TRANSACTION_QUERY_LIMIT] else records
  }

  // ---------- What a log says ----------

  predicate IsCredit(k: TransactionType) { k.Deposit? || k.Refund? || k.AdminAdjustment? }

  predicate IsDebit(k: TransactionType) { k.DeploymentFee? || k.Withdrawal? }

  /** The effect of one transaction on the account of `a.owner`. */
  function Apply(a: UserAccount, t: TransactionRecord): UserAccount {
    if t.user != a.owner then a
    else if IsCredit(t.transactionType) then
      a.(balance := Min(a.balance + t.amount, U64_MAX),
         lastDeposit := t.timestamp,
         totalDeposited := Min(a.totalDeposited + t.amount, U64_MAX))
    else if IsDebit(t.transactionType) then
      a.(balance := Max(a.balance - t.amount, 0),
         totalConsumed := Min(a.totalConsumed + t.amount, U64_MAX))
    else a
  }

  /** The account a user must have after the transactions of `log`. */
  function Replay(log: seq<TransactionRecord>, u: Principal): (a: UserAccount)
    ensures a.owner == u
  {
    if log == [] then EmptyAccount(u) else Apply(Replay(log[..|log| - 1], u), log[|log| - 1])
  }

  /** No debit of `log` took more than the balance of its time. */
  ghost predicate Funded(log: seq<TransactionRecord>) {
    log == [] ||
    (var t := log[|log| - 1];
     && Funded(log[..|log| - 1])
     && (IsDebit(t.transactionType) ==> Replay(log[..|log| - 1], t.user).balance >= t.amount))
  }

  function Moved(t: TransactionRecord, u: Principal, k: TransactionType): nat {
    if t.user == u && t.transactionType == k then t.amount else 0
  }

  /** Sum of what `log` moved for `u` in transactions of one kind. */
  function KindSum(log: seq<TransactionRecord>, u: Principal, k: TransactionType): nat {
    if log == [] then 0 else KindSum(log[..|log| - 1], u, k) + Moved(log[|log| - 1], u, k)
  }

  function Credits(log: seq<TransactionRecord>, u: Principal): nat {
    KindSum(log, u, Deposit) + KindSum(log, u, Refund) + KindSum(log, u, AdminAdjustment)
  }

  function Debits(log: seq<TransactionRecord>, u: Principal): nat {
    KindSum(log, u, DeploymentFee) + KindSum(log, u, Withdrawal)
  }

  /** What a saturating credit of `t` to account `a` drops. */
  function Dropped(a: UserAccount, t: TransactionRecord): nat {
    if t.user == a.owner && IsCredit(t.transactionType) then Max(a.balance + t.amount - U64_MAX, 0) else 0
  }

  /** What saturating credits of `u` dropped because the balance stood at its ceiling. */
  function Clipped(log: seq<TransactionRecord>, u: Principal): nat {
    if log == [] then 0 else
      Clipped(log[..|log| - 1], u) + Dropped(Replay(log[..|log| - 1], u), log[|log| - 1])
  }

  function Refunds(t: TransactionRecord, id: string): nat {
    if t.transactionType.Refund? && t.description == RefundForDeployment(id) then 1 else 0
  }

  /** How often `log` refunded deployment `id`. */
  function RefundCount(log: seq<TransactionRecord>, id: string): nat {
    if log == [] then 0 else RefundCount(log[..|log| - 1], id) + Refunds(log[|log| - 1], id)
  }

  function OfUser(rs: seq<TransactionRecord>, u: Principal): seq<TransactionRecord> {
    if rs == [] then [] else
      var t := rs[|rs| - 1];
      OfUser(rs[..|rs| - 1], u) + (if t.user == u then [t] else [])
  }

  function LastN<T>(s: seq<T>, n: nat): seq<T> { if |s| <= n then s else s[|s| - n..] }

  /** The map that keeps, per transaction id, the last record of the log carrying it. */
  function LastById(log: seq<TransactionRecord>): map<string, TransactionRecord> {
    if log == [] then map[] else
      LastById(log[..|log| - 1])[log[|log| - 1].transactionId := log[|log| - 1]]
  }

  // ---------- Invariant of the books ----------

  /** Accounts, transaction map and cache are what the log says they should be; the cache
      covers the log from `base`, its length at installation or at the last upgrade. */
  ghost predicate BooksMatchLog(b: Books, base: nat) {
    && (forall u :: GetUserAccount(b, u) == Replay(b.log, u))
    && Funded(b.log)
    && b.transactions == LastById(b.log)
    && base <= |b.log|
    && b.cache == LastN(b.log[base..], MAX_CACHE_SIZE)
  }

  lemma AppendFacts(log: seq<TransactionRecord>, t: TransactionRecord)
    ensures (log + [t])[..|log + [t]| - 1] == log && (log + [t])[|log|] == t
  {
  }

  lemma LastNAppend<T>(s: seq<T>, x: T, n: nat)
    requires n > 0
    ensures LastN(s + [x], n) == (if |LastN(s, n)| + 1 > n then LastN(s, n)[1..] else LastN(s, n)) + [x]
  {
  }

  /** The one-step unfoldings of everything that is read off a log. */
  lemma AppendToLog(log: seq<TransactionRecord>, t: TransactionRecord, u: Principal)
    ensures Replay(log + [t], u) == Apply(Replay(log, u), t)
    ensures Clipped(log + [t], u) == Clipped(log, u) + Dropped(Replay(log, u), t)
    ensures forall k :: KindSum(log + [t], u, k) == KindSum(log, u, k) + Moved(t, u, k)
    ensures forall id :: RefundCount(log + [t], id) == RefundCount(log, id) + Refunds(t, id)
    ensures LastById(log + [t]) == LastById(log)[t.transactionId := t]
  {
    AppendFacts(log, t);
  }

  /** What a posting does to the account it names, and to nobody else's. */
  lemma PostAccount(b: Books, u: Principal, user: Principal, amount: u64, kind: TransactionType,
                    description: Description, env: Env)
    requires kind != Transfer
    requires IsCredit(kind) || GetUserAccount(b, user).balance >= amount
    requires GetUserAccount(b, u).owner == u
    ensures GetUserAccount(Post(b, user, amount, kind, description, env), u) ==
            Apply(GetUserAccount(b, u), TransactionRecord(TransactionId(env), user, amount, kind, env.now, description))
  {
  }

  lemma PostShape(b: Books, user: Principal, amount: u64, kind: TransactionType, description: Description, env: Env)
    requires kind != Transfer
    requires IsCredit(kind) || GetUserAccount(b, user).balance >= amount
    ensures var t := TransactionRecord(TransactionId(env), user, amount, kind, env.now, description);
            var b' := Post(b, user, amount, kind, description, env);
            && b'.log == b.log + [t]
            && b'.transactions == b.transactions[t.transactionId := t]
            && b'.cache == (if |b.cache| + 1 > MAX_CACHE_SIZE then b.cache[1..] else b.cache) + [t]
  {
  }

  lemma PostKeepsAccounts(b: Books, base: nat, user: Principal, amount: u64, kind: TransactionType,
                          description: Description, env: Env)
    requires BooksMatchLog(b, base) && kind != Transfer
    requires IsCredit(kind) || GetUserAccount(b, user).balance >= amount
    ensures var b' := Post(b, user, amount, kind, description, env);
            forall u :: GetUserAccount(b', u) == Replay(b'.log, u)
  {
    var b' := Post(b, user, amount, kind, description, env);
    var t := TransactionRecord(TransactionId(env), user, amount, kind, env.now, description);
    PostShape(b, user, amount, kind, description, env);
    forall u ensures GetUserAccount(b', u) == Replay(b'.log, u) {
      assert GetUserAccount(b, u) == Replay(b.log, u);
      AppendToLog(b.log, t, u);
      PostAccount(b, u, user, amount, kind, description, env);
    }
  }

  /** Every posting, of any kind and amount, keeps the accounts, the transaction map and the
      cache in step with the log. */
  lemma PostKeepsBooks(b: Books, base: nat, user: Principal, amount: u64, kind: TransactionType,
                       description: Description, env: Env)
    requires BooksMatchLog(b, base) && kind != Transfer
    requires IsCredit(kind) || GetUserAccount(b, user).balance >= amount
    ensures BooksMatchLog(Post(b, user, amount, kind, description, env), base)
  {
    hide Post, Replay, Clipped, KindSum, RefundCount, LastById, TransactionId;
    var t := TransactionRecord(TransactionId(env), user, amount, kind, env.now, description);
    PostKeepsAccounts(b, base, user, amount, kind, description, env);
    PostShape(b, user, amount, kind, description, env);
    AppendToLog(b.log, t, user);
    AppendFacts(b.log, t);
    assert GetUserAccount(b, user) == Replay(b.log, user);
    assert (b.log + [t])[base..] == b.log[base..] + [t];
    LastNAppend(b.log[base..], t, MAX_CACHE_SIZE);
  }

  // ---------- Consequences ----------

  lemma CreditsAppend(log: seq<TransactionRecord>, t: TransactionRecord, u: Principal)
    ensures Credits(log + [t], u) ==
            Credits(log, u) + (if t.user == u && IsCredit(t.transactionType) then t.amount else 0)
    ensures Debits(log + [t], u) ==
            Debits(log, u) + (if t.user == u && IsDebit(t.transactionType) then t.amount else 0)
  {
    hide Replay, Clipped, LastById, RefundCount, KindSum;
    AppendToLog(log, t, u);
  }

  lemma {:induction false} ReplayTotals(log: seq<TransactionRecord>, u: Principal)
    ensures Replay(log, u).totalDeposited == Min(Credits(log, u), U64_MAX)
    ensures Replay(log, u).totalConsumed == Min(Debits(log, u), U64_MAX)
  {
    if log != [] {
      hide Credits, Debits, KindSum, RefundCount, LastById, Clipped;
      var front, t := log[..|log| - 1], log[|log| - 1];
      ReplayTotals(front, u);
      assert front + [t] == log;
      AppendToLog(front, t, u);
      CreditsAppend(front, t, u);
    }
  }

  lemma ApplyBalance(a: UserAccount, t: TransactionRecord)
    requires t.user == a.owner && IsDebit(t.transactionType) ==> a.balance >= t.amount
    ensures var credited := if t.user == a.owner && IsCredit(t.transactionType) then t.amount else 0;
            var debited := if t.user == a.owner && IsDebit(t.transactionType) then t.amount else 0;
            Apply(a, t).balance + Dropped(a, t) + debited == a.balance + credited
  {
  }

  lemma {:induction false} ReplayBalance(log: seq<TransactionRecord>, u: Principal)
    requires Funded(log)
    ensures Replay(log, u).balance + Clipped(log, u) + Debits(log, u) == Credits(log, u)
  {
    if log != [] {
      hide Credits, Debits, KindSum, RefundCount, LastById;
      var front, t := log[..|log| - 1], log[|log| - 1];
      ReplayBalance(front, u);
      assert front + [t] == log;
      assert t.user == u && IsDebit(t.transactionType) ==> Replay(front, u).balance >= t.amount;
      hide Apply, Dropped, Replay, Clipped, Funded;
      AppendToLog(front, t, u);
      ApplyBalance(Replay(front, u), t);
      CreditsAppend(front, t, u);
    }
  }

  lemma {:induction false} NothingClippedInLog(log: seq<TransactionRecord>, u: Principal)
    requires Funded(log) && Credits(log, u) <= U64_MAX
    ensures Clipped(log, u) == 0
  {
    if log != [] {
      hide Credits, Debits, KindSum, RefundCount, LastById;
      var front, t := log[..|log| - 1], log[|log| - 1];
      assert front + [t] == log;
      AppendToLog(front, t, u);
      CreditsAppend(front, t, u);
      NothingClippedInLog(front, u);
      ReplayBalance(front, u);
    }
  }

  /** The exact arithmetic of a funded log, without any bound on its amounts. */
  lemma ReplayAccounting(log: seq<TransactionRecord>, u: Principal)
    requires Funded(log)
    ensures Replay(log, u).balance + Clipped(log, u) + Debits(log, u) == Credits(log, u)
    ensures Replay(log, u).totalDeposited == Min(Credits(log, u), U64_MAX)
    ensures Replay(log, u).totalConsumed == Min(Debits(log, u), U64_MAX)
    ensures Credits(log, u) <= U64_MAX ==> Clipped(log, u) == 0
  {
    hide Replay, Clipped, Credits, Debits, Funded;
    ReplayBalance(log, u);
    ReplayTotals(log, u);
    if Credits(log, u) <= U64_MAX {
      NothingClippedInLog(log, u);
    }
  }

  /** While a user's lifetime credits fit 64 bits, the balance is credits minus debits and
      balance plus consumption is what was deposited. */
  lemma LedgerReplay(b: Books, base: nat, u: Principal)
    requires BooksMatchLog(b, base)
    requires Credits(b.log, u) <= U64_MAX
    ensures var a := GetUserAccount(b, u);
            && a.balance == Credits(b.log, u) - Debits(b.log, u)
            && a.totalDeposited == Credits(b.log, u)
            && a.totalConsumed == Debits(b.log, u)
            && a.balance + a.totalConsumed == a.totalDeposited
  {
    ReplayAccounting(b.log, u);
    assert GetUserAccount(b, u) == Replay(b.log, u);
  }

  predicate TotalsAgree(a: UserAccount) { a.balance + a.totalConsumed == a.totalDeposited }

  /** Exactly when balance and totals of a funded log agree, without a bound on its amounts: the
      balance lost as much as the total of deposits, or the total of debits is full and nothing
      is left. */
  lemma TotalsAgreeExactly(log: seq<TransactionRecord>, u: Principal)
    requires Funded(log)
    ensures TotalsAgree(Replay(log, u)) <==>
            if Debits(log, u) <= U64_MAX then Clipped(log, u) == Max(0, Credits(log, u) - U64_MAX)
            else Replay(log, u).balance == 0
  {
    hide Replay, Clipped, Credits, Debits, Funded;
    ReplayAccounting(log, u);
  }

  /** When an update keeps the agreement: a debit always, a credit exactly if nothing was ever
      consumed or the total of deposits does not reach its ceiling. */
  lemma UpdateKeepsTotals(b: Books, user: Principal, amount: u64, isDeposit: bool, now: u64)
    requires TotalsAgree(GetUserAccount(b, user)) && UpdateUserBalance(b, user, amount, isDeposit, now).Ok?
    ensures var a := GetUserAccount(b, user);
            TotalsAgree(GetUserAccount(UpdateUserBalance(b, user, amount, isDeposit, now).value, user)) <==>
            !isDeposit || a.totalConsumed == 0 || a.totalDeposited + amount <= U64_MAX
  {
  }

  /** Entry `j` is the last with the id of entry `i`, and equal to it. */
  ghost predicate LastEqual(log: seq<TransactionRecord>, i: nat, j: nat)
    requires i < |log|
  {
    && i <= j < |log| && log[j] == log[i]
    && forall n :: j < n < |log| ==> log[n].transactionId != log[i].transactionId
  }

  /** Every stored id stays in the transaction map, and a record is found under its id exactly if
      the last record with that id equals it. */
  lemma {:induction false} FoundInMap(log: seq<TransactionRecord>, i: nat)
    requires i < |log|
    ensures log[i].transactionId in LastById(log)
    ensures LastById(log)[log[i].transactionId] == log[i] <==> exists j :: LastEqual(log, i, j)
  {
    var last := |log| - 1;
    if log[last].transactionId == log[i].transactionId {
      assert log[last] == log[i] <==> LastEqual(log, i, last);
    } else {
      var front := log[..last];
      FoundInMap(front, i);
      forall j: nat ensures LastEqual(log, i, j) <==> LastEqual(front, i, j) {
        assert LastEqual(front, i, j) ==> forall n :: j < n < |front| ==> front[n] == log[n];
        assert LastEqual(log, i, j) ==> j != last;
      }
    }
  }

  lemma {:induction false} OfUserCounts(rs: seq<TransactionRecord>, u: Principal)
    ensures |OfUser(rs, u)| <= |rs|
    ensures forall i :: 0 <= i < |OfUser(rs, u)| ==> OfUser(rs, u)[i].user == u && OfUser(rs, u)[i] in rs
    ensures forall t :: t in rs && t.user == u ==> t in OfUser(rs, u)
  {
    if rs != [] {
      OfUserCounts(rs[..|rs| - 1], u);
      forall t | t in rs && t.user == u ensures t in OfUser(rs, u) {
        var i :| 0 <= i < |rs| && rs[i] == t;
        if i < |rs| - 1 {
          assert rs[..|rs| - 1][i] == t;
        }
      }
    }
  }

  /** The history query answers from the newest thousand records since the last upgrade, and of
      the caller's records among them it returns the hundred oldest. The caller sees all of them,
      the newest included, exactly when there are no more than a hundred. */
  lemma HistoryQuery(b: Books, base: nat, u: Principal)
    requires BooksMatchLog(b, base)
    ensures var recent := OfUser(LastN(b.log[base..], 1000), u);
            var h := GetTransactionHistory(b, u);
            && h <= recent
            && |h| == Min(|recent|, 100)
            && (h == recent <==> |recent| <= 100)
            && (forall i :: 0 <= i < |h| ==> h[i].user == u && h[i] in b.log[base..])
  {
    OfUserCounts(b.cache, u);
  }
}
