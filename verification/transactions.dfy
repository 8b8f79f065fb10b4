/**
 * A transaction as the indexing API returns it, reduced to the fields that
 * frontend/hooks/useUserProfile.ts reads, and the per-transaction facts that
 * both the user's statistics and the leaderboard rank are built from: which
 * transactions count, the amount of a call, its time, and reference totals
 * over a whole list that the folds in UserStats and UserRank are proved against.
 */
module Transactions {
  import opened Wrappers
  import opened JsString
  import opened Sequences

  /**
   * `contract_call`: the called contract, the function name (a missing one is
   * "", which JavaScript treats alike) and the `repr` of each argument in order
   * (missing `function_args` are []).
   */
  datatype ContractCall = ContractCall(contractId: string, functionName: string, argReprs: seq<string>)

  /** Times are in seconds as the API gives them; `blockHeight` and `burnBlockTime` may be absent. */
  datatype Transaction = Transaction(
    txId: string,
    sender: string,
    status: string,
    txType: string,
    call: Option<ContractCall>,
    blockHeight: Option<int>,
    burnBlockTime: Option<int>)

  /** A successful contract call whose target is exactly the configured contract. */
  predicate CallsContract(tx: Transaction, contractId: string) {
    && tx.status == "success"
    && tx.txType == "contract_call"
    && tx.call.Some?
    && tx.call.value.contractId == contractId
  }

  function FunctionName(tx: Transaction): string {
    if tx.call.Some? then tx.call.value.functionName else ""
  }

  /** Both loops skip a call without a function name; every other call is one operation. */
  predicate IsOperation(tx: Transaction, contractId: string) {
    CallsContract(tx, contractId) && FunctionName(tx) != ""
  }

  /** The sender equals `user` up to letter case. */
  predicate SentBy(tx: Transaction, user: string) {
    SameIgnoringCase(tx.sender, user)
  }

  function FirstArg(tx: Transaction): Option<string> {
    if tx.call.Some? && 0 < |tx.call.value.argReprs| then Some(tx.call.value.argReprs[0]) else None
  }

  predicate IsByCall(name: string) {
    name == "increment-by" || name == "decrement-by"
  }

  /** The amount read from an argument's `repr`: the first 'u' dropped, `parseInt`, and 1 for NaN or 0. */
  function AmountFromRepr(repr: string): (amount: int)
    ensures amount != 0
    ensures '-' !in repr ==> 1 <= amount
  {
    match ParseInt(RemoveFirst(repr, 'u'), NoRadix)
    case NaN => 1
    case Num(v) => if v == 0 then 1 else v
  }

  /** The amount of a call: read from the first argument of a `*-by` call, 1 otherwise. */
  function CallAmount(tx: Transaction): (amount: int)
    ensures amount != 0
    ensures FirstArg(tx).None? || !IsByCall(FunctionName(tx)) ==> amount == 1
    ensures FirstArg(tx).Some? && '-' !in FirstArg(tx).value ==> 1 <= amount
    ensures FirstArg(tx).Some? && IsByCall(FunctionName(tx)) ==> amount == AmountFromRepr(FirstArg(tx).value)
  {
    var arg := FirstArg(tx);
    if arg.Some? && IsByCall(FunctionName(tx)) then AmountFromRepr(arg.value) else 1
  }

  /** The time of a transaction in milliseconds; `now` when `burn_block_time` is missing or 0. */
  function Timestamp(tx: Transaction, now: int): int {
    if tx.burnBlockTime.Some? && tx.burnBlockTime.value != 0 then tx.burnBlockTime.value * 1000 else now
  }

  // ------------------------------------------------------------ amounts

  /** A Clarity `uint` argument prints as "u" and its digits; its amount is that number, or 1 for zero. */
  lemma UintAmount(digits: string)
    requires 0 < |digits| && AllDigits(digits, Decimal)
    ensures AmountFromRepr("u" + digits) == if ValueOf(digits, Decimal) == 0 then 1 else ValueOf(digits, Decimal)
  {
    var repr := "u" + digits;
    assert IndexOf(repr, 'u') == 0;
    assert RemoveFirst(repr, 'u') == digits by {
      assert repr[..0] + repr[1..] == digits;
    }
    ParseDigits(digits, [], NoRadix);
    assert digits + [] == digits;
  }

  /** A `*-by` call whose first argument is the Clarity `uint` `u<digits>` moves the counter by that number, or by 1 for zero. */
  lemma UintCallAmount(tx: Transaction, digits: string)
    requires IsByCall(FunctionName(tx)) && FirstArg(tx) == Some("u" + digits)
    requires 0 < |digits| && AllDigits(digits, Decimal)
    ensures CallAmount(tx) == if ValueOf(digits, Decimal) == 0 then 1 else ValueOf(digits, Decimal)
  {
    UintAmount(digits);
  }

  /** A `repr` without a single decimal digit reads as NaN, so its amount is 1. */
  lemma NonNumericAmount(repr: string)
    requires forall i :: 0 <= i < |repr| ==> !IsDecimalDigit(repr[i])
    ensures AmountFromRepr(repr) == 1
  {
    var s := RemoveFirst(repr, 'u');
    assert forall i :: 0 <= i < |s| ==> !IsDecimalDigit(s[i]) by {
      forall i | 0 <= i < |s| ensures !IsDecimalDigit(s[i]) {
        assert s[i] in s;
      }
    }
    NoDigitsNaN(s, NoRadix);
  }

  lemma NoDigitsNaN(s: string, radix: RadixArg)
    requires forall i :: 0 <= i < |s| ==> !IsDecimalDigit(s[i])
    ensures ParseInt(s, radix) == NaN
  {
    var t := s[LeadingWhiteSpace(s)..];
    assert forall i :: 0 <= i < |t| ==> t[i] == s[i + LeadingWhiteSpace(s)];
    if 0 < |t| && (t[0] == '-' || t[0] == '+') {
      UnsignedNoDigitsNaN(t[1..], radix);
    } else {
      UnsignedNoDigitsNaN(t, radix);
    }
  }

  lemma UnsignedNoDigitsNaN(u: string, radix: RadixArg)
    requires forall i :: 0 <= i < |u| ==> !IsDecimalDigit(u[i])
    ensures ParseUnsigned(u, radix) == NaN
  {
  }

  // ------------------------------------------- reference totals over a list

  /** What an operation adds to the increments: 1, or its amount for `increment-by`. */
  function IncrementOf(tx: Transaction): int {
    var name := FunctionName(tx);
    if name == "increment" then 1 else if name == "increment-by" then CallAmount(tx) else 0
  }

  /** What an operation adds to the decrements: 1, or its amount for `decrement-by`. */
  function DecrementOf(tx: Transaction): int {
    var name := FunctionName(tx);
    if name == "decrement" then 1 else if name == "decrement-by" then CallAmount(tx) else 0
  }

  /** The five function names the profile records; any other name is an operation without a record. */
  predicate IsKnownFunction(name: string) {
    name == "increment" || name == "decrement" || name == "increment-by" || name == "decrement-by" || name == "reset"
  }

  /** Operations in `txs` whose sender is `user` up to letter case. */
  function OperationsOf(txs: seq<Transaction>, contractId: string, user: string): nat {
    if |txs| == 0 then 0
    else OperationsOf(Init(txs), contractId, user) + (if IsOperation(Last(txs), contractId) && SentBy(Last(txs), user) then 1 else 0)
  }

  /** Those operations among them with a recognised function name. */
  function KnownOperationsOf(txs: seq<Transaction>, contractId: string, user: string): nat {
    if |txs| == 0 then 0
    else
      var tx := Last(txs);
      KnownOperationsOf(Init(txs), contractId, user)
      + (if IsOperation(tx, contractId) && SentBy(tx, user) && IsKnownFunction(FunctionName(tx)) then 1 else 0)
  }

  function IncrementsOf(txs: seq<Transaction>, contractId: string, user: string): int {
    if |txs| == 0 then 0
    else IncrementsOf(Init(txs), contractId, user) + (if CallsContract(Last(txs), contractId) && SentBy(Last(txs), user) then IncrementOf(Last(txs)) else 0)
  }

  function DecrementsOf(txs: seq<Transaction>, contractId: string, user: string): int {
    if |txs| == 0 then 0
    else DecrementsOf(Init(txs), contractId, user) + (if CallsContract(Last(txs), contractId) && SentBy(Last(txs), user) then DecrementOf(Last(txs)) else 0)
  }

  /** Operations in `txs` sent by exactly `address`. */
  function OperationsBy(txs: seq<Transaction>, contractId: string, address: string): nat {
    if |txs| == 0 then 0
    else OperationsBy(Init(txs), contractId, address) + (if IsOperation(Last(txs), contractId) && Last(txs).sender == address then 1 else 0)
  }

  /** Increments minus decrements of the calls sent by exactly `address`. */
  function NetBy(txs: seq<Transaction>, contractId: string, address: string): int {
    if |txs| == 0 then 0
    else
      var tx := Last(txs);
      NetBy(Init(txs), contractId, address)
      + (if CallsContract(tx, contractId) && tx.sender == address then IncrementOf(tx) - DecrementOf(tx) else 0)
  }

  /** The exact-case senders of the operations in `txs`. */
  function Senders(txs: seq<Transaction>, contractId: string): set<string> {
    set i | 0 <= i < |txs| && IsOperation(txs[i], contractId) :: txs[i].sender
  }

  /** Position of the first operation sent by exactly `address`; |txs| when there is none. */
  function FirstOperationBy(txs: seq<Transaction>, contractId: string, address: string): (p: nat)
    ensures p <= |txs|
    ensures p < |txs| ==> IsOperation(txs[p], contractId) && txs[p].sender == address
  {
    if |txs| == 0 then 0
    else
      var p := FirstOperationBy(Init(txs), contractId, address);
      if p < |txs| - 1 then p
      else if IsOperation(Last(txs), contractId) && Last(txs).sender == address then |txs| - 1
      else |txs|
  }

  /** No operation of `address` comes before `FirstOperationBy`. */
  lemma {:induction false} NoEarlierOperation(txs: seq<Transaction>, contractId: string, address: string)
    ensures forall i :: 0 <= i < FirstOperationBy(txs, contractId, address) ==> !(IsOperation(txs[i], contractId) && txs[i].sender == address)
  {
    if 0 < |txs| {
      NoEarlierOperation(Init(txs), contractId, address);
      assert forall i :: 0 <= i < |txs| - 1 ==> Init(txs)[i] == txs[i];
    }
  }

  /** The user has an operation exactly when some operation in the list was sent by the user, up to case. */
  lemma {:induction false} OperationsOfPositive(txs: seq<Transaction>, contractId: string, user: string)
    ensures 0 < OperationsOf(txs, contractId, user)
        <==> exists i :: 0 <= i < |txs| && IsOperation(txs[i], contractId) && SentBy(txs[i], user)
  {
    if 0 < |txs| {
      var init := Init(txs);
      OperationsOfPositive(init, contractId, user);
      assert forall i :: 0 <= i < |init| ==> init[i] == txs[i];
      assert Last(txs) == txs[|txs| - 1];
    }
  }
}
