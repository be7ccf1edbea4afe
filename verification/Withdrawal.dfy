/** The administrator's withdrawal with its retry loop around the ledger call. */
module Withdrawal {
  import opened Common

  datatype RejectionCode = NoError | SysFatal | SysTransient | DestinationInvalid | CanisterReject | CanisterError | Unknown

  datatype Reply = Accepted | Rejected(code: RejectionCode)

  datatype WithdrawError =
    | InvalidAmount
    | InvalidRecipient
    | LowCycles
    | Failed(attempts: nat, last: Option<RejectionCode>)

  const MAX_AMOUNT: u64 := 10_000_000_000
  const MIN_CYCLES_BALANCE: nat := 1_000_000_000

  /** How many ledger calls a limit of `m` attempts allows: one less than it says, except for 1. */
  function CallLimit(m: nat): nat { if m <= 1 then m else m - 1 }

  /** `replies(i)` is the ledger's answer to call number `i`. Calls go on exactly while answers
      are transient rejections and the limit is not reached; the outcome is the last answer. */
  method WithdrawFunds(recipient: Principal, amount: u64, cycles: nat, limit: nat, replies: nat -> Reply)
    returns (r: Result<(), WithdrawError>, calls: nat)
    ensures r == Err(InvalidAmount) <==> amount == 0 || amount > 10_000_000_000
    ensures r == Err(InvalidRecipient) <==> 1 <= amount <= 10_000_000_000 && recipient == "2vxsx-fae"
    ensures r == Err(LowCycles) <==> 1 <= amount <= 10_000_000_000 && recipient != "2vxsx-fae" && cycles < 1_000_000_000
    ensures r.Err? && !r.error.Failed? ==> calls == 0
    ensures r.Ok? <==> calls > 0 && replies(calls - 1) == Accepted
    ensures r.Err? && r.error.Failed? ==> r == Err(Failed(calls, if calls == 0 then None else Some(replies(calls - 1).code)))
    ensures calls <= CallLimit(limit)
    ensures limit == 3 ==> calls <= 2
    ensures forall i :: 0 <= i < calls - 1 ==> replies(i) == Rejected(SysTransient)
    ensures (r.Err? ==> r.error.Failed?) ==>
              calls == CallLimit(limit) || (calls > 0 && replies(calls - 1) != Rejected(SysTransient))
  {
    calls := 0;
    if amount == 0 || amount > MAX_AMOUNT {
      return Err(InvalidAmount), calls;
    }
    if recipient == ANONYMOUS {
      return Err(InvalidRecipient), calls;
    }
    if cycles < MIN_CYCLES_BALANCE {
      return Err(LowCycles), calls;
    }
    var retries := 0;
    var lastError: Option<RejectionCode> := None;
    while retries < limit
      invariant retries == calls <= limit
      invariant forall i :: 0 <= i < calls ==> replies(i) == Rejected(SysTransient)
      invariant calls > 0 ==> calls < limit - 1
      invariant lastError == if calls == 0 then None else Some(SysTransient)
    {
      var reply := replies(calls);
      calls := calls + 1;
      if reply.Accepted? {
        return Ok(()), calls;
      }
      lastError := Some(reply.code);
      retries := retries + 1;
      var isTemporary := reply.code.SysTransient?;
      if isTemporary && retries < limit {
        if retries == limit - 1 {
          break;
        }
        continue;
      }
      break;
    }
    return Err(Failed(retries, lastError)), calls;
  }

  /** The outcome is a function of the answers: two results that meet the contract of
      `WithdrawFunds` made the same number of calls. */
  lemma CallsAreDetermined(limit: nat, replies: nat -> Reply, a: nat, b: nat)
    requires a <= CallLimit(limit) && b <= CallLimit(limit)
    requires forall i :: 0 <= i < a - 1 ==> replies(i) == Rejected(SysTransient)
    requires forall i :: 0 <= i < b - 1 ==> replies(i) == Rejected(SysTransient)
    requires a == CallLimit(limit) || (a > 0 && replies(a - 1) != Rejected(SysTransient))
    requires b == CallLimit(limit) || (b > 0 && replies(b - 1) != Rejected(SysTransient))
    ensures a == b
  {
  }
}
