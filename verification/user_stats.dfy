/**
 * `calculateUserStats` (frontend/hooks/useUserProfile.ts): one user's
 * counters and activity records, folded from the contract's transaction list.
 * The contract id is a parameter rather than read from the environment, and
 * `now` stands for the `new Date()` used when a transaction has no time.
 */
module UserStats {
  import opened Wrappers
  import opened JsString
  import opened Transactions
  import opened Sequences
  import opened StableSort

  datatype TxKind = Increment | Decrement | IncrementBy | DecrementBy | Reset

  /** `UserTransaction`: one entry of the user's activity; times in milliseconds. */
  datatype UserTx = UserTx(txId: string, kind: TxKind, amount: int, timestamp: int, blockHeight: int)

  /** The loop's accumulators. */
  datatype Tally = Tally(operations: nat, increments: int, decrements: int, netContribution: int, records: seq<UserTx>)

  /** The result of `calculateUserStats`. */
  datatype Stats = Stats(
    operations: nat,
    increments: int,
    decrements: int,
    netContribution: int,
    transactions: seq<UserTx>,
    firstSeen: Option<int>,
    lastActive: Option<int>)

  const Start := Tally(0, 0, 0, 0, [])

  /** One pass of the loop body over a transaction that passed the filter. */
  function Step(t: Tally, tx: Transaction, now: int): (r: Tally)
    ensures r.operations == t.operations + (if FunctionName(tx) == "" then 0 else 1)
    ensures r.increments == t.increments + IncrementOf(tx)
    ensures r.decrements == t.decrements + DecrementOf(tx)
    ensures r.netContribution - t.netContribution == IncrementOf(tx) - DecrementOf(tx)
    ensures |r.records| == |t.records| + (if FunctionName(tx) != "" && IsKnownFunction(FunctionName(tx)) then 1 else 0)
    ensures r.records[..|t.records|] == t.records
    ensures IsKnownFunction(FunctionName(tx)) ==>
              |r.records| == |t.records| + 1 && r.records[|t.records|] == RecordOf(tx, now)
  {
    var name := FunctionName(tx);
    if name == "" then t
    else
      var amount := CallAmount(tx);
      var time := Timestamp(tx, now);
      var height := tx.blockHeight.GetOr(0);
      var ops := t.operations + 1;
      if name == "increment" then
        Tally(ops, t.increments + 1, t.decrements, t.netContribution + 1,
              t.records + [UserTx(tx.txId, Increment, 1, time, height)])
      else if name == "decrement" then
        Tally(ops, t.increments, t.decrements + 1, t.netContribution - 1,
              t.records + [UserTx(tx.txId, Decrement, 1, time, height)])
      else if name == "increment-by" then
        Tally(ops, t.increments + amount, t.decrements, t.netContribution + amount,
              t.records + [UserTx(tx.txId, IncrementBy, amount, time, height)])
      else if name == "decrement-by" then
        Tally(ops, t.increments, t.decrements + amount, t.netContribution - amount,
              t.records + [UserTx(tx.txId, DecrementBy, amount, time, height)])
      else if name == "reset" then
        Tally(ops, t.increments, t.decrements, t.netContribution,
              t.records + [UserTx(tx.txId, Reset, 0, time, height)])
      else
        t.(operations := ops)
  }

  /** A record's amount says what it is: 0 only for a reset, and 1 for a plain increment or decrement. */
  predicate WellFormed(r: UserTx) {
    && (r.amount == 0 <==> r.kind == Reset)
    && (r.kind == Increment || r.kind == Decrement ==> r.amount == 1)
  }

  /** The kind of record for each of the five known function names. */
  function KindOf(name: string): TxKind
    requires IsKnownFunction(name)
  {
    if name == "increment" then Increment
    else if name == "decrement" then Decrement
    else if name == "increment-by" then IncrementBy
    else if name == "decrement-by" then DecrementBy
    else Reset
  }

  /**
   * The record an operation with a known function name stands for: its id, the
   * kind its function names, the amount it moves the counter by (0 for a reset),
   * its time and its block height (0 when missing).
   */
  function RecordOf(tx: Transaction, now: int): UserTx
    requires IsKnownFunction(FunctionName(tx))
  {
    UserTx(tx.txId, KindOf(FunctionName(tx)), IncrementOf(tx) + DecrementOf(tx), Timestamp(tx, now), tx.blockHeight.GetOr(0))
  }

  /** An operation of `user` whose function is one of the five the profile records. */
  predicate KnownOperation(tx: Transaction, contractId: string, user: string) {
    IsOperation(tx, contractId) && SentBy(tx, user) && IsKnownFunction(FunctionName(tx))
  }

  /** The record is the one some known operation of `user` in `txs` stands for. */
  predicate FromOperation(r: UserTx, txs: seq<Transaction>, contractId: string, user: string, now: int) {
    exists i :: 0 <= i < |txs| && KnownOperation(txs[i], contractId, user) && r == RecordOf(txs[i], now)
  }

  /** The records of the known operations of `user` in `txs`, in list order: the reference for the loop's records. */
  function KnownRecords(txs: seq<Transaction>, contractId: string, user: string, now: int): seq<UserTx> {
    if |txs| == 0 then []
    else
      var tx := Last(txs);
      KnownRecords(Init(txs), contractId, user, now) + (if KnownOperation(tx, contractId, user) then [RecordOf(tx, now)] else [])
  }

  /** The record of a known operation is well formed. */
  lemma RecordWellFormed(tx: Transaction, now: int)
    requires IsKnownFunction(FunctionName(tx))
    ensures WellFormed(RecordOf(tx, now))
  {
  }

  /**
   * The filter (successful call of the contract, sender equal to `user` up to
   * case) followed by the loop, continuing from the accumulators `t`.
   */
  function Fold(t: Tally, txs: seq<Transaction>, contractId: string, user: string, now: int): (r: Tally)
    requires t.netContribution == t.increments - t.decrements
    ensures r.netContribution == r.increments - r.decrements
    ensures r.operations == t.operations + OperationsOf(txs, contractId, user)
    ensures r.increments == t.increments + IncrementsOf(txs, contractId, user)
    ensures r.decrements == t.decrements + DecrementsOf(txs, contractId, user)
    ensures |r.records| == |t.records| + KnownOperationsOf(txs, contractId, user)
    ensures r.records[..|t.records|] == t.records
    ensures forall j :: |t.records| <= j < |r.records| ==> WellFormed(r.records[j]) && FromOperation(r.records[j], txs, contractId, user, now)
    ensures r.records == t.records + KnownRecords(txs, contractId, user, now)
  {
    if |txs| == 0 then t
    else
      var before := Fold(t, Init(txs), contractId, user, now);
      var tx := Last(txs);
      var r := if CallsContract(tx, contractId) && SentBy(tx, user) then Step(before, tx, now) else before;
      FoldStep(t, before, r, txs, contractId, user, now);
      StepRecords(before, tx, contractId, user, now);
      assert r.records == t.records + KnownRecords(txs, contractId, user, now);
      r
  }

  /** The records one pass of the filter and the loop appends: the transaction's own, when it is a known operation. */
  lemma StepRecords(before: Tally, tx: Transaction, contractId: string, user: string, now: int)
    ensures (if CallsContract(tx, contractId) && SentBy(tx, user) then Step(before, tx, now) else before).records
            == before.records + (if KnownOperation(tx, contractId, user) then [RecordOf(tx, now)] else [])
  {
    if CallsContract(tx, contractId) && SentBy(tx, user) {
      var r := Step(before, tx, now);
      if KnownOperation(tx, contractId, user) {
        assert r.records == r.records[..|before.records|] + [r.records[|before.records|]];
      } else {
        assert r.records == r.records[..|before.records|];
      }
    }
  }

  /** The records `before` kept from `t` and made from `Init(txs)` are still there, and still from `txs`, in `r`. */
  lemma {:induction false} FoldStep(t: Tally, before: Tally, r: Tally, txs: seq<Transaction>, contractId: string, user: string, now: int)
    requires 0 < |txs|
    requires |t.records| <= |before.records| <= |r.records|
    requires before.records[..|t.records|] == t.records
    requires r.records[..|before.records|] == before.records
    requires forall j :: |t.records| <= j < |before.records| ==> WellFormed(before.records[j]) && FromOperation(before.records[j], Init(txs), contractId, user, now)
    requires |before.records| < |r.records| ==>
               && KnownOperation(Last(txs), contractId, user)
               && |r.records| == |before.records| + 1
               && r.records[|before.records|] == RecordOf(Last(txs), now)
    ensures r.records[..|t.records|] == t.records
    ensures forall j :: |t.records| <= j < |r.records| ==> WellFormed(r.records[j]) && FromOperation(r.records[j], txs, contractId, user, now)
  {
    assert r.records[..|t.records|] == before.records[..|t.records|];
    forall j | |t.records| <= j < |r.records| ensures WellFormed(r.records[j]) && FromOperation(r.records[j], txs, contractId, user, now) {
      if j < |before.records| {
        assert r.records[j] == before.records[j];
        var i :| 0 <= i < |Init(txs)| && KnownOperation(Init(txs)[i], contractId, user)
                 && before.records[j] == RecordOf(Init(txs)[i], now);
        assert txs[i] == Init(txs)[i];
        assert KnownOperation(txs[i], contractId, user) && r.records[j] == RecordOf(txs[i], now);
      } else {
        var i := |txs| - 1;
        assert j == |before.records|;
        assert r.records[j] == RecordOf(Last(txs), now);
        assert txs[i] == Last(txs);
        RecordWellFormed(Last(txs), now);
      }
    }
  }

  /** The accumulators after the loop over the whole list. */
  function Accumulate(txs: seq<Transaction>, contractId: string, user: string, now: int): Tally {
    Fold(Start, txs, contractId, user, now)
  }

  /** Newest first: `b.timestamp - a.timestamp`. */
  function Recency(r: UserTx): Score {
    Score(r.timestamp, 0)
  }

  /** `Math.min(...timestamps)` */
  function MinTimestamp(s: seq<UserTx>): (m: int)
    requires 0 < |s|
    ensures forall i :: 0 <= i < |s| ==> m <= s[i].timestamp
    ensures exists i :: 0 <= i < |s| && s[i].timestamp == m
  {
    if |s| == 1 then s[0].timestamp
    else
      var m := MinTimestamp(s[1..]);
      assert forall i :: 1 <= i < |s| ==> s[i] == s[1..][i - 1];
      if s[0].timestamp <= m then s[0].timestamp else m
  }

  /** `Math.max(...timestamps)` */
  function MaxTimestamp(s: seq<UserTx>): (m: int)
    requires 0 < |s|
    ensures forall i :: 0 <= i < |s| ==> s[i].timestamp <= m
    ensures exists i :: 0 <= i < |s| && s[i].timestamp == m
  {
    if |s| == 1 then s[0].timestamp
    else
      var m := MaxTimestamp(s[1..]);
      assert forall i :: 1 <= i < |s| ==> s[i] == s[1..][i - 1];
      if m <= s[0].timestamp then s[0].timestamp else m
  }

  /**
   * `calculateUserStats(userAddress, allTransactions)`: the loop, then `Finish`,
   * whose contract states the order of the list and the first and last activity.
   */
  function CalculateUserStats(user: string, txs: seq<Transaction>, contractId: string, now: int): (s: Stats)
    ensures s.netContribution == s.increments - s.decrements
    ensures s.operations == OperationsOf(txs, contractId, user)
    ensures s.increments == IncrementsOf(txs, contractId, user)
    ensures s.decrements == DecrementsOf(txs, contractId, user)
    ensures |s.transactions| == KnownOperationsOf(txs, contractId, user) <= s.operations
    ensures forall j :: 0 <= j < |s.transactions| ==> WellFormed(s.transactions[j]) && FromOperation(s.transactions[j], txs, contractId, user, now)
    ensures Sorted(s.transactions, Recency)
    ensures forall k :: Ties(s.transactions, k, Recency) == Ties(KnownRecords(txs, contractId, user, now), k, Recency)
    ensures s.transactions == Sort(KnownRecords(txs, contractId, user, now), Recency)
  {
    KnownAtMostAll(txs, contractId, user);
    SameRecords(Accumulate(txs, contractId, user, now).records, Finish(Accumulate(txs, contractId, user, now)).transactions,
                txs, contractId, user, now);
    Finish(Accumulate(txs, contractId, user, now))
  }

  /** The sort (newest first) and the first and last activity after the loop. */
  function Finish(t: Tally): (s: Stats)
    ensures s.operations == t.operations && s.increments == t.increments && s.decrements == t.decrements
    ensures s.netContribution == t.netContribution
    ensures |s.transactions| == |t.records| && multiset(s.transactions) == multiset(t.records)
    ensures Sorted(s.transactions, Recency)
    ensures forall k :: Ties(s.transactions, k, Recency) == Ties(t.records, k, Recency)
    ensures s.firstSeen.None? <==> |s.transactions| == 0
    ensures s.lastActive.None? <==> |s.transactions| == 0
    ensures 0 < |s.transactions| ==> s.lastActive == Some(s.transactions[0].timestamp)
    ensures 0 < |s.transactions| ==> s.firstSeen == Some(s.transactions[|s.transactions| - 1].timestamp)
    ensures s.firstSeen.Some? ==> s.firstSeen.value <= s.lastActive.value
  {
    var sorted := Sort(t.records, Recency);
    if |sorted| == 0 then
      Stats(t.operations, t.increments, t.decrements, t.netContribution, sorted, None, None)
    else
      NewestFirst(sorted);
      Stats(t.operations, t.increments, t.decrements, t.netContribution, sorted,
            Some(MinTimestamp(sorted)), Some(MaxTimestamp(sorted)))
  }

  /** Reordering the records keeps each of them well formed and made from an operation. */
  lemma {:induction false} SameRecords(a: seq<UserTx>, b: seq<UserTx>, txs: seq<Transaction>, contractId: string, user: string, now: int)
    requires multiset(a) == multiset(b)
    requires forall j :: 0 <= j < |a| ==> WellFormed(a[j]) && FromOperation(a[j], txs, contractId, user, now)
    ensures forall j :: 0 <= j < |b| ==> WellFormed(b[j]) && FromOperation(b[j], txs, contractId, user, now)
  {
    forall j | 0 <= j < |b| ensures WellFormed(b[j]) && FromOperation(b[j], txs, contractId, user, now) {
      assert b[j] in multiset(a);
      var k :| 0 <= k < |a| && a[k] == b[j];
    }
  }

  /** In a newest-first list the earliest time is the last record's and the latest the first record's. */
  lemma {:induction false} NewestFirst(s: seq<UserTx>)
    requires 0 < |s| && Sorted(s, Recency)
    ensures MinTimestamp(s) == s[|s| - 1].timestamp
    ensures MaxTimestamp(s) == s[0].timestamp
    ensures MinTimestamp(s) <= MaxTimestamp(s)
  {
    var i :| 0 <= i < |s| && s[i].timestamp == MinTimestamp(s);
    if i < |s| - 1 {
      assert AtLeast(Recency(s[i]), Recency(s[|s| - 1]));
    }
    var k :| 0 <= k < |s| && s[k].timestamp == MaxTimestamp(s);
    if 0 < k {
      assert AtLeast(Recency(s[0]), Recency(s[k]));
    }
  }

  lemma {:induction false} KnownAtMostAll(txs: seq<Transaction>, contractId: string, user: string)
    ensures KnownOperationsOf(txs, contractId, user) <= OperationsOf(txs, contractId, user)
  {
    if |txs| > 0 {
      KnownAtMostAll(Init(txs), contractId, user);
    }
  }

  // ------------------------------------------------------------- properties

  /** Folding a concatenation is folding its parts one after the other. */
  lemma {:induction false} FoldAppend(t: Tally, a: seq<Transaction>, b: seq<Transaction>, contractId: string, user: string, now: int)
    requires t.netContribution == t.increments - t.decrements
    ensures Fold(t, a + b, contractId, user, now) == Fold(Fold(t, a, contractId, user, now), b, contractId, user, now)
    decreases |b|
  {
    if |b| == 0 {
      assert a + b == a;
    } else {
      assert Init(a + b) == a + Init(b) && Last(a + b) == Last(b);
      FoldAppend(t, a, Init(b), contractId, user, now);
    }
  }

  /** The records a fold adds do not depend on the accumulators it starts from. */
  lemma {:induction false} FoldRecords(t: Tally, b: seq<Transaction>, contractId: string, user: string, now: int)
    requires t.netContribution == t.increments - t.decrements
    ensures Fold(t, b, contractId, user, now).records == t.records + Accumulate(b, contractId, user, now).records
    decreases |b|
  {
    if |b| == 0 {
      assert t.records + [] == t.records;
    } else {
      FoldRecords(t, Init(b), contractId, user, now);
      var x := Fold(t, Init(b), contractId, user, now);
      var y := Accumulate(Init(b), contractId, user, now);
      var tx := Last(b);
      if CallsContract(tx, contractId) && SentBy(tx, user) {
        var sx, sy := Step(x, tx, now).records, Step(y, tx, now).records;
        if IsKnownFunction(FunctionName(tx)) {
          assert sx == x.records + [RecordOf(tx, now)];
          assert sy == y.records + [RecordOf(tx, now)];
        } else {
          assert sx == sx[..|x.records|] == x.records;
          assert sy == sy[..|y.records|] == y.records;
        }
      }
    }
  }

  /**
   * A transaction that is not an operation of `user` (another sender, another
   * contract, a failed or non-call transaction, or a call without a function
   * name) leaves the user's statistics exactly as they are, wherever it stands.
   */
  lemma IgnoredTransaction(a: seq<Transaction>, tx: Transaction, b: seq<Transaction>, user: string, contractId: string, now: int)
    requires !(IsOperation(tx, contractId) && SentBy(tx, user))
    ensures CalculateUserStats(user, a + [tx] + b, contractId, now) == CalculateUserStats(user, a + b, contractId, now)
  {
    var x := Fold(Start, a, contractId, user, now);
    FoldAppend(Start, a + [tx], b, contractId, user, now);
    FoldAppend(Start, a, [tx], contractId, user, now);
    FoldAppend(Start, a, b, contractId, user, now);
    assert Init([tx]) == [] && Last([tx]) == tx;
    assert Fold(x, [tx], contractId, user, now) == x;
  }

  /**
   * One more operation of `user` at the end of the list counts once, adds its
   * increment and decrement, and adds a record exactly when its function is
   * one of the five the profile knows (a `reset` adds a record and nothing else).
   */
  lemma OneMoreOperation(txs: seq<Transaction>, tx: Transaction, user: string, contractId: string, now: int)
    requires IsOperation(tx, contractId) && SentBy(tx, user)
    ensures var before := CalculateUserStats(user, txs, contractId, now);
            var after := CalculateUserStats(user, txs + [tx], contractId, now);
            && after.operations == before.operations + 1
            && after.increments == before.increments + IncrementOf(tx)
            && after.decrements == before.decrements + DecrementOf(tx)
            && |after.transactions| == |before.transactions| + (if IsKnownFunction(FunctionName(tx)) then 1 else 0)
  {
    InitLast(txs, tx);
  }

  /** The smallest and largest times of two lists holding the same records agree. */
  lemma {:induction false} SameExtremes(s: seq<UserTx>, q: seq<UserTx>)
    requires 0 < |s| && multiset(s) == multiset(q)
    ensures 0 < |q|
    ensures MinTimestamp(s) == MinTimestamp(q) && MaxTimestamp(s) == MaxTimestamp(q)
  {
    assert s[0] in multiset(q);
    forall x | x in multiset(s) ensures exists j :: 0 <= j < |q| && q[j] == x {
      assert x in q;
    }
    forall x | x in multiset(q) ensures exists j :: 0 <= j < |s| && s[j] == x {
      assert x in s;
    }
    var i :| 0 <= i < |s| && s[i].timestamp == MinTimestamp(s);
    var j :| 0 <= j < |q| && q[j].timestamp == MinTimestamp(q);
    assert s[i] in multiset(s) && q[j] in multiset(q);
    var k :| 0 <= k < |s| && s[k].timestamp == MaxTimestamp(s);
    var l :| 0 <= l < |q| && q[l].timestamp == MaxTimestamp(q);
    assert s[k] in multiset(s) && q[l] in multiset(q);
  }

  /**
   * The statistics do not depend on the order of the list: swapping two parts
   * gives the same counters, the same records (up to the order of records
   * with equal times) and the same first and last activity.
   */
  lemma {:induction false} OrderIndependent(a: seq<Transaction>, b: seq<Transaction>, user: string, contractId: string, now: int)
    ensures var ab := CalculateUserStats(user, a + b, contractId, now);
            var ba := CalculateUserStats(user, b + a, contractId, now);
            && ab.operations == ba.operations
            && ab.increments == ba.increments
            && ab.decrements == ba.decrements
            && ab.netContribution == ba.netContribution
            && multiset(ab.transactions) == multiset(ba.transactions)
            && ab.firstSeen == ba.firstSeen
            && ab.lastActive == ba.lastActive
  {
    SwapTally(a, b, user, contractId, now);
    var ab := CalculateUserStats(user, a + b, contractId, now);
    var ba := CalculateUserStats(user, b + a, contractId, now);
    if 0 < |ab.transactions| {
      SameExtremes(ab.transactions, ba.transactions);
    }
  }

  /** The accumulators after `a + b` and after `b + a` agree, records up to order. */
  lemma {:induction false} SwapTally(a: seq<Transaction>, b: seq<Transaction>, user: string, contractId: string, now: int)
    ensures var x := Accumulate(a + b, contractId, user, now);
            var y := Accumulate(b + a, contractId, user, now);
            && x.operations == y.operations
            && x.increments == y.increments
            && x.decrements == y.decrements
            && multiset(x.records) == multiset(y.records)
  {
    FoldAppend(Start, a, b, contractId, user, now);
    FoldAppend(Start, b, a, contractId, user, now);
    var ta := Accumulate(a, contractId, user, now);
    var tb := Accumulate(b, contractId, user, now);
    FoldRecords(ta, b, contractId, user, now);
    FoldRecords(tb, a, contractId, user, now);
  }

  // ------------------------------------------------------- the activity span

  /** Every known operation of the user leaves its record. */
  lemma {:induction false} RecordsComplete(txs: seq<Transaction>, contractId: string, user: string, now: int)
    ensures forall i :: 0 <= i < |txs| && KnownOperation(txs[i], contractId, user) ==>
              RecordOf(txs[i], now) in Accumulate(txs, contractId, user, now).records
  {
    if 0 < |txs| {
      RecordsComplete(Init(txs), contractId, user, now);
      var before := Accumulate(Init(txs), contractId, user, now);
      var r := Accumulate(txs, contractId, user, now);
      assert r.records[..|before.records|] == before.records;
      forall i | 0 <= i < |txs| && KnownOperation(txs[i], contractId, user)
        ensures RecordOf(txs[i], now) in r.records
      {
        if i < |txs| - 1 {
          assert txs[i] == Init(txs)[i];
          var k :| 0 <= k < |before.records| && before.records[k] == RecordOf(txs[i], now);
          assert r.records[k] == before.records[k];
        } else {
          assert txs[i] == Last(txs);
          assert r.records[|before.records|] == RecordOf(txs[i], now);
        }
      }
    }
  }

  /** A profile record is one of the user's known operations' records, so it has that operation's time. */
  lemma RecordTime(user: string, txs: seq<Transaction>, contractId: string, now: int, k: nat)
    requires k < |CalculateUserStats(user, txs, contractId, now).transactions|
    ensures exists i :: 0 <= i < |txs| && KnownOperation(txs[i], contractId, user)
                        && CalculateUserStats(user, txs, contractId, now).transactions[k].timestamp == Timestamp(txs[i], now)
  {
    var s := CalculateUserStats(user, txs, contractId, now);
    var i :| 0 <= i < |txs| && KnownOperation(txs[i], contractId, user) && s.transactions[k] == RecordOf(txs[i], now);
  }

  /** The record of every known operation of the user is in the profile's list. */
  lemma ListedRecord(user: string, txs: seq<Transaction>, contractId: string, now: int, i: nat)
    requires i < |txs| && KnownOperation(txs[i], contractId, user)
    ensures exists k :: 0 <= k < |CalculateUserStats(user, txs, contractId, now).transactions|
                        && CalculateUserStats(user, txs, contractId, now).transactions[k] == RecordOf(txs[i], now)
  {
    var t := Accumulate(txs, contractId, user, now);
    var s := CalculateUserStats(user, txs, contractId, now);
    RecordsComplete(txs, contractId, user, now);
    assert s == Finish(t);
    assert RecordOf(txs[i], now) in multiset(s.transactions);
  }

  /**
   * The first activity is present exactly when the user has a known operation,
   * and then it is the earliest time among the user's known operations.
   */
  lemma FirstSeenIsEarliest(user: string, txs: seq<Transaction>, contractId: string, now: int)
    ensures var s := CalculateUserStats(user, txs, contractId, now);
            && (s.firstSeen.Some? <==> 0 < KnownOperationsOf(txs, contractId, user))
            && (s.firstSeen.Some? ==>
                  && (exists i :: 0 <= i < |txs| && KnownOperation(txs[i], contractId, user) && s.firstSeen.value == Timestamp(txs[i], now))
                  && (forall i :: 0 <= i < |txs| && KnownOperation(txs[i], contractId, user) ==> s.firstSeen.value <= Timestamp(txs[i], now)))
  {
    var s := CalculateUserStats(user, txs, contractId, now);
    assert s == Finish(Accumulate(txs, contractId, user, now));
    var n := |s.transactions|;
    if 0 < n {
      RecordTime(user, txs, contractId, now, n - 1);
      forall i | 0 <= i < |txs| && KnownOperation(txs[i], contractId, user) ensures s.firstSeen.value <= Timestamp(txs[i], now) {
        ListedRecord(user, txs, contractId, now, i);
        var k :| 0 <= k < n && s.transactions[k] == RecordOf(txs[i], now);
        if k < n - 1 {
          assert AtLeast(Recency(s.transactions[k]), Recency(s.transactions[n - 1]));
        }
      }
    }
  }

  /**
   * The last activity is present exactly when the user has a known operation,
   * and then it is the latest time among the user's known operations.
   */
  lemma LastActiveIsLatest(user: string, txs: seq<Transaction>, contractId: string, now: int)
    ensures var s := CalculateUserStats(user, txs, contractId, now);
            && (s.lastActive.Some? <==> 0 < KnownOperationsOf(txs, contractId, user))
            && (s.lastActive.Some? ==>
                  && (exists i :: 0 <= i < |txs| && KnownOperation(txs[i], contractId, user) && s.lastActive.value == Timestamp(txs[i], now))
                  && (forall i :: 0 <= i < |txs| && KnownOperation(txs[i], contractId, user) ==> Timestamp(txs[i], now) <= s.lastActive.value))
  {
    var s := CalculateUserStats(user, txs, contractId, now);
    assert s == Finish(Accumulate(txs, contractId, user, now));
    var n := |s.transactions|;
    if 0 < n {
      RecordTime(user, txs, contractId, now, 0);
      forall i | 0 <= i < |txs| && KnownOperation(txs[i], contractId, user) ensures Timestamp(txs[i], now) <= s.lastActive.value {
        ListedRecord(user, txs, contractId, now, i);
        var k :| 0 <= k < n && s.transactions[k] == RecordOf(txs[i], now);
        if 0 < k {
          assert AtLeast(Recency(s.transactions[0]), Recency(s.transactions[k]));
        }
      }
    }
  }
}
