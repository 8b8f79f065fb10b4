/**
 * `calculateUserRank` (frontend/hooks/useUserProfile.ts): every sender's totals
 * in a map keyed by the exact sender address, the entries sorted by net
 * contribution and then by operations, both descending, and the 1-based
 * position of the first entry whose address equals the user's up to case.
 */
module UserRank {
  import opened JsString
  import opened Transactions
  import opened Sequences
  import opened StableSort
  import UserStats

  /** One entry of `userStatsMap`: a sender address, exactly as sent, and its totals. */
  datatype Entry = Entry(address: string, netContribution: int, operations: nat)

  /** `userStatsMap.get(address)`: the position of the entry for exactly `address`, or -1. */
  function Find(es: seq<Entry>, address: string): (i: int)
    ensures -1 <= i < |es|
    ensures 0 <= i ==> es[i].address == address
    ensures i == -1 ==> forall j :: 0 <= j < |es| ==> es[j].address != address
  {
    if |es| == 0 then -1
    else
      var i := Find(Init(es), address);
      if 0 <= i then i
      else if Last(es).address == address then |es| - 1
      else -1
  }

  /** The switch of the loop: how far an operation moves its sender's net contribution. */
  function Delta(tx: Transaction): int {
    var name := FunctionName(tx);
    var amount := CallAmount(tx);
    if name == "increment" || name == "increment-by" then amount
    else if name == "decrement" || name == "decrement-by" then -amount
    else 0
  }

  /** The switch of the rank loop moves the net contribution as the profile's counters do. */
  lemma SameDelta(tx: Transaction)
    ensures Delta(tx) == IncrementOf(tx) - DecrementOf(tx)
  {
  }

  /**
   * The loop body over a transaction that passed the filter: a call without a
   * function name is skipped; otherwise the sender's entry is created (at the
   * end of the map) when missing, counts one more operation, and its net
   * contribution moves by `Delta`.
   */
  function Count(es: seq<Entry>, tx: Transaction): seq<Entry> {
    if FunctionName(tx) == "" then es
    else
      var i := Find(es, tx.sender);
      if i < 0 then Appended(es, tx) else Bumped(es, i, tx)
  }

  /** A new entry for the sender of `tx`, at the end of the map. */
  function Appended(es: seq<Entry>, tx: Transaction): seq<Entry> {
    es + [Entry(tx.sender, Delta(tx), 1)]
  }

  /** The entry at `i` counts `tx`. */
  function Bumped(es: seq<Entry>, i: nat, tx: Transaction): seq<Entry>
    requires i < |es|
  {
    es[i := Entry(es[i].address, es[i].netContribution + Delta(tx), es[i].operations + 1)]
  }

  /** No address has two entries. */
  predicate Distinct(es: seq<Entry>) {
    forall i, j :: 0 <= i < j < |es| ==> es[i].address != es[j].address
  }

  /** Each entry holds its address's operations and net contribution over `txs`. */
  ghost predicate Totals(es: seq<Entry>, txs: seq<Transaction>, contractId: string) {
    forall i :: 0 <= i < |es| ==>
      es[i].operations == OperationsBy(txs, contractId, es[i].address)
      && es[i].netContribution == NetBy(txs, contractId, es[i].address)
  }

  /** Each entry's address sent an operation, and the entries are in the order of their first operations. */
  ghost predicate FirstAppearanceOrder(es: seq<Entry>, txs: seq<Transaction>, contractId: string) {
    && (forall i :: 0 <= i < |es| ==> FirstOperationBy(txs, contractId, es[i].address) < |txs|)
    && (forall i, j :: 0 <= i < j < |es| ==>
          FirstOperationBy(txs, contractId, es[i].address) < FirstOperationBy(txs, contractId, es[j].address))
  }

  /** Every entry is a sender's of an operation, and every such sender has an entry. */
  ghost predicate Covers(es: seq<Entry>, txs: seq<Transaction>, contractId: string) {
    && (forall i :: 0 <= i < |es| ==> es[i].address in Senders(txs, contractId))
    && (forall a :: a in Senders(txs, contractId) ==> 0 <= Find(es, a))
  }

  /**
   * What the map holds after the loop over `txs`: one entry per sender of an
   * operation, no address twice, each with that address's operations and net
   * contribution, in the order in which the senders first appear.
   */
  ghost predicate Summarises(es: seq<Entry>, txs: seq<Transaction>, contractId: string) {
    Distinct(es) && Totals(es, txs, contractId) && FirstAppearanceOrder(es, txs, contractId) && Covers(es, txs, contractId)
  }

  /** The filter (successful call of the contract) followed by the loop. */
  function Entries(txs: seq<Transaction>, contractId: string): (es: seq<Entry>)
    ensures Summarises(es, txs, contractId)
  {
    if |txs| == 0 then []
    else
      var before := Entries(Init(txs), contractId);
      var tx := Last(txs);
      CountStep(before, txs, contractId);
      if CallsContract(tx, contractId) then Count(before, tx) else before
  }

  lemma {:induction false} CountStep(es: seq<Entry>, txs: seq<Transaction>, contractId: string)
    requires 0 < |txs| && Summarises(es, Init(txs), contractId)
    ensures Summarises(if CallsContract(Last(txs), contractId) then Count(es, Last(txs)) else es, txs, contractId)
  {
    var tx := Last(txs);
    SendersStep(txs, contractId);
    OrderExtends(es, txs, contractId);
    if !IsOperation(tx, contractId) {
      TotalsSkip(es, txs, contractId);
      assert CallsContract(tx, contractId) ==> Count(es, tx) == es;
    } else if 0 <= Find(es, tx.sender) {
      UpdateStep(es, txs, contractId);
    } else {
      AppendStep(es, txs, contractId);
    }
  }

  /** An operation of a sender that already has an entry. */
  lemma {:induction false} UpdateStep(es: seq<Entry>, txs: seq<Transaction>, contractId: string)
    requires 0 < |txs| && Distinct(es) && Totals(es, Init(txs), contractId) && Covers(es, Init(txs), contractId)
    requires FirstAppearanceOrder(es, txs, contractId)
    requires forall a :: a in Senders(txs, contractId) <==> a in Senders(Init(txs), contractId) || a == Last(txs).sender
    requires IsOperation(Last(txs), contractId) && 0 <= Find(es, Last(txs).sender)
    ensures Summarises(Count(es, Last(txs)), txs, contractId)
  {
    var tx := Last(txs);
    var k := Find(es, tx.sender);
    TotalsUpdate(es, txs, contractId, k);
    CoversUpdate(es, Bumped(es, k, tx), txs, contractId);
  }

  /** The first operation of a sender: its entry goes at the end. */
  lemma {:induction false} AppendStep(es: seq<Entry>, txs: seq<Transaction>, contractId: string)
    requires 0 < |txs| && Distinct(es) && Totals(es, Init(txs), contractId) && Covers(es, Init(txs), contractId)
    requires FirstAppearanceOrder(es, txs, contractId)
    requires forall i :: 0 <= i < |es| ==> FirstOperationBy(txs, contractId, es[i].address) < |txs| - 1
    requires forall a :: a in Senders(txs, contractId) <==> a in Senders(Init(txs), contractId) || a == Last(txs).sender
    requires IsOperation(Last(txs), contractId) && Find(es, Last(txs).sender) < 0
    ensures Summarises(Count(es, Last(txs)), txs, contractId)
  {
    TotalsAppend(es, txs, contractId);
    OrderAppend(es, txs, contractId);
    CoversAppend(es, txs, contractId);
  }

  /** The totals of one address after one more transaction, from the recursive definitions. */
  lemma {:induction false} TotalsStep(txs: seq<Transaction>, contractId: string, address: string)
    requires 0 < |txs|
    ensures var tx := Last(txs);
            OperationsBy(txs, contractId, address)
            == OperationsBy(Init(txs), contractId, address) + (if IsOperation(tx, contractId) && tx.sender == address then 1 else 0)
    ensures var tx := Last(txs);
            NetBy(txs, contractId, address)
            == NetBy(Init(txs), contractId, address)
               + (if IsOperation(tx, contractId) && tx.sender == address then IncrementOf(tx) - DecrementOf(tx) else 0)
    ensures FirstOperationBy(Init(txs), contractId, address) < |Init(txs)|
            ==> FirstOperationBy(txs, contractId, address) == FirstOperationBy(Init(txs), contractId, address)
  {
  }

  lemma {:induction false} TotalsSkip(es: seq<Entry>, txs: seq<Transaction>, contractId: string)
    requires 0 < |txs| && Totals(es, Init(txs), contractId)
    requires !IsOperation(Last(txs), contractId)
    ensures Totals(es, txs, contractId)
  {
    forall i | 0 <= i < |es|
      ensures es[i].operations == OperationsBy(txs, contractId, es[i].address)
      ensures es[i].netContribution == NetBy(txs, contractId, es[i].address)
    {
      TotalsStep(txs, contractId, es[i].address);
    }
  }

  lemma {:induction false} TotalsUpdate(es: seq<Entry>, txs: seq<Transaction>, contractId: string, k: nat)
    requires 0 < |txs| && Totals(es, Init(txs), contractId) && Distinct(es)
    requires IsOperation(Last(txs), contractId)
    requires k < |es| && es[k].address == Last(txs).sender
    ensures Totals(Bumped(es, k, Last(txs)), txs, contractId)
  {
    var tx := Last(txs);
    SameDelta(tx);
    var r := Bumped(es, k, tx);
    forall i | 0 <= i < |r|
      ensures r[i].operations == OperationsBy(txs, contractId, r[i].address)
      ensures r[i].netContribution == NetBy(txs, contractId, r[i].address)
    {
      TotalsStep(txs, contractId, es[i].address);
    }
  }

  lemma {:induction false} TotalsAppend(es: seq<Entry>, txs: seq<Transaction>, contractId: string)
    requires 0 < |txs| && Totals(es, Init(txs), contractId) && Covers(es, Init(txs), contractId)
    requires IsOperation(Last(txs), contractId) && Find(es, Last(txs).sender) < 0
    ensures Totals(Appended(es, Last(txs)), txs, contractId)
  {
    var tx := Last(txs);
    SameDelta(tx);
    var r := Appended(es, tx);
    assert tx.sender !in Senders(Init(txs), contractId);
    NotASender(Init(txs), contractId, tx.sender);
    forall i | 0 <= i < |r|
      ensures r[i].operations == OperationsBy(txs, contractId, r[i].address)
      ensures r[i].netContribution == NetBy(txs, contractId, r[i].address)
    {
      TotalsStep(txs, contractId, r[i].address);
      if i < |es| {
        assert r[i] == es[i];
      }
    }
  }

  /** The order of first operations among the entries survives one more transaction. */
  lemma {:induction false} OrderExtends(es: seq<Entry>, txs: seq<Transaction>, contractId: string)
    requires 0 < |txs| && FirstAppearanceOrder(es, Init(txs), contractId)
    ensures FirstAppearanceOrder(es, txs, contractId)
    ensures forall i :: 0 <= i < |es| ==> FirstOperationBy(txs, contractId, es[i].address) < |txs| - 1
  {
    forall i | 0 <= i < |es|
      ensures FirstOperationBy(txs, contractId, es[i].address) == FirstOperationBy(Init(txs), contractId, es[i].address)
    {
      TotalsStep(txs, contractId, es[i].address);
    }
  }

  lemma {:induction false} OrderAppend(es: seq<Entry>, txs: seq<Transaction>, contractId: string)
    requires 0 < |txs| && FirstAppearanceOrder(es, txs, contractId) && Covers(es, Init(txs), contractId)
    requires forall i :: 0 <= i < |es| ==> FirstOperationBy(txs, contractId, es[i].address) < |txs| - 1
    requires IsOperation(Last(txs), contractId) && Find(es, Last(txs).sender) < 0
    ensures FirstAppearanceOrder(Appended(es, Last(txs)), txs, contractId)
  {
    var tx := Last(txs);
    var r := Appended(es, tx);
    NewSenderFirstOperation(es, txs, contractId);
    forall i | 0 <= i < |r|
      ensures FirstOperationBy(txs, contractId, r[i].address)
              == if i < |es| then FirstOperationBy(txs, contractId, es[i].address) else |txs| - 1
    {
      if i < |es| {
        assert r[i] == es[i];
      }
    }
  }

  /** The sender of an operation without an entry makes its first operation last. */
  lemma {:induction false} NewSenderFirstOperation(es: seq<Entry>, txs: seq<Transaction>, contractId: string)
    requires 0 < |txs| && Covers(es, Init(txs), contractId)
    requires IsOperation(Last(txs), contractId) && Find(es, Last(txs).sender) < 0
    ensures FirstOperationBy(txs, contractId, Last(txs).sender) == |txs| - 1
  {
    var tx := Last(txs);
    assert tx.sender !in Senders(Init(txs), contractId);
    NotASender(Init(txs), contractId, tx.sender);
  }

  /** An address found at position `m` is found. */
  lemma FoundAt(es: seq<Entry>, a: string, m: nat)
    requires m < |es| && es[m].address == a
    ensures 0 <= Find(es, a)
  {
  }

  lemma {:induction false} CoversUpdate(es: seq<Entry>, r: seq<Entry>, txs: seq<Transaction>, contractId: string)
    requires |es| == |r| && forall i :: 0 <= i < |es| ==> r[i].address == es[i].address
    requires 0 < |txs| && Distinct(es) && FirstAppearanceOrder(es, txs, contractId) && Covers(es, Init(txs), contractId)
    requires forall a :: a in Senders(txs, contractId) <==> a in Senders(Init(txs), contractId) || a == Last(txs).sender
    requires 0 <= Find(es, Last(txs).sender)
    ensures Distinct(r) && FirstAppearanceOrder(r, txs, contractId) && Covers(r, txs, contractId)
  {
    forall i, j | 0 <= i < j < |r| ensures r[i].address != r[j].address {
      assert r[i].address == es[i].address && r[j].address == es[j].address;
    }
    forall i, j | 0 <= i < j < |r|
      ensures FirstOperationBy(txs, contractId, r[i].address) < FirstOperationBy(txs, contractId, r[j].address)
    {
      assert r[i].address == es[i].address && r[j].address == es[j].address;
    }
    forall i | 0 <= i < |r|
      ensures FirstOperationBy(txs, contractId, r[i].address) < |txs| && r[i].address in Senders(txs, contractId)
    {
      assert r[i].address == es[i].address;
      assert es[i].address in Senders(Init(txs), contractId);
    }
    forall a | a in Senders(txs, contractId) ensures 0 <= Find(r, a) {
      var m := Find(es, a);
      FoundAt(r, a, m);
    }
  }

  lemma {:induction false} CoversAppend(es: seq<Entry>, txs: seq<Transaction>, contractId: string)
    requires 0 < |txs| && Covers(es, Init(txs), contractId) && Distinct(es)
    requires IsOperation(Last(txs), contractId) && Find(es, Last(txs).sender) < 0
    requires forall a :: a in Senders(txs, contractId) <==> a in Senders(Init(txs), contractId) || a == Last(txs).sender
    ensures Distinct(Appended(es, Last(txs))) && Covers(Appended(es, Last(txs)), txs, contractId)
  {
    var tx := Last(txs);
    var r := Appended(es, tx);
    assert forall i :: 0 <= i < |es| ==> r[i] == es[i];
    forall a | a in Senders(txs, contractId) ensures 0 <= Find(r, a) {
      if a == tx.sender {
        FoundAt(r, a, |es|);
      } else {
        FoundAt(r, a, Find(es, a));
      }
    }
  }

  /** Appending a transaction adds its sender to the senders exactly when it is an operation. */
  lemma {:induction false} SendersStep(txs: seq<Transaction>, contractId: string)
    requires 0 < |txs|
    ensures forall a :: a in Senders(txs, contractId)
                   <==> a in Senders(Init(txs), contractId) || (IsOperation(Last(txs), contractId) && a == Last(txs).sender)
  {
    var init := Init(txs);
    assert forall i :: 0 <= i < |init| ==> init[i] == txs[i];
    assert Last(txs) == txs[|txs| - 1];
  }

  /** An address that sent no operation has no operations, no net contribution and no first operation. */
  lemma {:induction false} NotASender(txs: seq<Transaction>, contractId: string, address: string)
    requires address !in Senders(txs, contractId)
    ensures OperationsBy(txs, contractId, address) == 0
    ensures NetBy(txs, contractId, address) == 0
    ensures FirstOperationBy(txs, contractId, address) == |txs|
  {
    if 0 < |txs| {
      SendersStep(txs, contractId);
      NotASender(Init(txs), contractId, address);
    }
  }

  // ------------------------------------------------------------- the ranking

  /** What the comparator looks at: net contribution, then operations, both descending. */
  function Rating(e: Entry): Score {
    Score(e.netContribution, e.operations)
  }

  /** `Array.from(userStatsMap.entries()).sort(...)`: the entries in map order, stably sorted by rating. */
  function Leaderboard(txs: seq<Transaction>, contractId: string): seq<Entry> {
    Sort(Entries(txs, contractId), Rating)
  }

  /** `a` sent its first operation before `b` did. */
  function FirstSeenBefore(txs: seq<Transaction>, contractId: string): (Entry, Entry) -> bool {
    (a: Entry, b: Entry) => FirstOperationBy(txs, contractId, a.address) < FirstOperationBy(txs, contractId, b.address)
  }

  /**
   * Down the leaderboard the net contribution never grows; among equal net
   * contributions the operations never grow; and senders tied on both stand in
   * the order of their first operations.
   */
  lemma LeaderboardOrder(txs: seq<Transaction>, contractId: string)
    ensures forall i, j :: 0 <= i < j < |Leaderboard(txs, contractId)| ==>
              var a, b := Leaderboard(txs, contractId)[i], Leaderboard(txs, contractId)[j];
              && a.netContribution >= b.netContribution
              && (a.netContribution == b.netContribution ==> a.operations >= b.operations)
              && (a.netContribution == b.netContribution && a.operations == b.operations ==>
                    FirstOperationBy(txs, contractId, a.address) < FirstOperationBy(txs, contractId, b.address))
  {
    var es := Entries(txs, contractId);
    var board := Leaderboard(txs, contractId);
    var before := FirstSeenBefore(txs, contractId);
    assert KeepsOrder(es, Rating, before);
    SortKeepsOrder(es, Rating, before);
    forall i, j | 0 <= i < j < |board|
      ensures board[i].netContribution == board[j].netContribution && board[i].operations == board[j].operations ==>
                FirstOperationBy(txs, contractId, board[i].address) < FirstOperationBy(txs, contractId, board[j].address)
    {
      if Rating(board[i]) == Rating(board[j]) {
        assert before(board[i], board[j]);
      }
    }
  }

  /** Each leaderboard entry is a sender's, with that sender's totals. */
  lemma BoardEntries(txs: seq<Transaction>, contractId: string)
    ensures forall i :: 0 <= i < |Leaderboard(txs, contractId)| ==>
              var e := Leaderboard(txs, contractId)[i];
              && e.address in Senders(txs, contractId)
              && e.operations == OperationsBy(txs, contractId, e.address)
              && e.netContribution == NetBy(txs, contractId, e.address)
  {
    var es := Entries(txs, contractId);
    var board := Leaderboard(txs, contractId);
    forall i | 0 <= i < |board|
      ensures board[i].address in Senders(txs, contractId)
      ensures board[i].operations == OperationsBy(txs, contractId, board[i].address)
      ensures board[i].netContribution == NetBy(txs, contractId, board[i].address)
    {
      EntryOf(es, board, i);
    }
  }

  /** An element of a reordering of `es` is an element of `es`. */
  lemma EntryOf(es: seq<Entry>, board: seq<Entry>, i: nat)
    requires multiset(board) == multiset(es) && i < |board|
    ensures exists k :: 0 <= k < |es| && es[k] == board[i]
  {
    assert board[i] in multiset(es);
  }

  /** Every sender of an operation has an entry on the leaderboard. */
  lemma SendersOnBoard(txs: seq<Transaction>, contractId: string)
    ensures forall a :: a in Senders(txs, contractId) ==>
              exists i :: 0 <= i < |Leaderboard(txs, contractId)| && Leaderboard(txs, contractId)[i].address == a
  {
    var es := Entries(txs, contractId);
    var board := Leaderboard(txs, contractId);
    forall a | a in Senders(txs, contractId) ensures exists i :: 0 <= i < |board| && board[i].address == a {
      EntryOf(board, es, Find(es, a));
    }
  }

  /** The addresses of the entries. */
  function Addresses(es: seq<Entry>): set<string> {
    set i | 0 <= i < |es| :: es[i].address
  }

  lemma {:induction false} DistinctAddresses(es: seq<Entry>)
    requires Distinct(es)
    ensures |Addresses(es)| == |es|
  {
    if 0 < |es| {
      var init := Init(es);
      assert forall i :: 0 <= i < |init| ==> init[i] == es[i];
      DistinctAddresses(init);
      assert Addresses(es) == Addresses(init) + {Last(es).address};
    }
  }

  /** The leaderboard has one entry per distinct exact-case sender of an operation. */
  lemma OneEntryPerSender(txs: seq<Transaction>, contractId: string)
    ensures |Leaderboard(txs, contractId)| == |Senders(txs, contractId)|
  {
    var es := Entries(txs, contractId);
    DistinctAddresses(es);
    forall a | a in Senders(txs, contractId) ensures a in Addresses(es) {
      var k := Find(es, a);
      assert es[k].address == a;
    }
    assert Addresses(es) == Senders(txs, contractId);
  }

  /** `findIndex`: the first entry whose address equals the user's up to case, or -1. */
  function FindUser(board: seq<Entry>, user: string): (i: int)
    ensures -1 <= i < |board|
    ensures 0 <= i ==> SameIgnoringCase(board[i].address, user)
    ensures forall j :: 0 <= j < |board| && (i == -1 || j < i) ==> !SameIgnoringCase(board[j].address, user)
  {
    if |board| == 0 then -1
    else if SameIgnoringCase(board[0].address, user) then 0
    else
      var i := FindUser(board[1..], user);
      assert forall j :: 1 <= j < |board| ==> board[j] == board[1..][j - 1];
      if i < 0 then -1 else i + 1
  }

  /** Some entry matches the user exactly when the user has an operation. */
  lemma RankedIffOperations(txs: seq<Transaction>, contractId: string, user: string)
    ensures 0 <= FindUser(Leaderboard(txs, contractId), user) <==> 0 < OperationsOf(txs, contractId, user)
  {
    var board := Leaderboard(txs, contractId);
    var i := FindUser(board, user);
    OperationsOfPositive(txs, contractId, user);
    BoardEntries(txs, contractId);
    SendersOnBoard(txs, contractId);
    if 0 <= i {
      var a := board[i].address;
      assert a in Senders(txs, contractId);
      var t :| 0 <= t < |txs| && IsOperation(txs[t], contractId) && txs[t].sender == a;
      assert SentBy(txs[t], user);
    }
    if 0 < OperationsOf(txs, contractId, user) {
      var t :| 0 <= t < |txs| && IsOperation(txs[t], contractId) && SentBy(txs[t], user);
      var a := txs[t].sender;
      assert a in Senders(txs, contractId);
      var m :| 0 <= m < |board| && board[m].address == a;
    }
  }

  /** `calculateUserRank(userAddress, allTransactions)`: the 1-based position of the user's entry, 0 when there is none. */
  function CalculateUserRank(user: string, txs: seq<Transaction>, contractId: string): (rank: nat)
    ensures rank == 0 <==> OperationsOf(txs, contractId, user) == 0
    ensures rank <= |Senders(txs, contractId)| == |Leaderboard(txs, contractId)|
    ensures 0 < rank ==> SameIgnoringCase(Leaderboard(txs, contractId)[rank - 1].address, user)
    ensures forall j :: 0 <= j < |Leaderboard(txs, contractId)| && (rank == 0 || j < rank - 1) ==>
              !SameIgnoringCase(Leaderboard(txs, contractId)[j].address, user)
  {
    OneEntryPerSender(txs, contractId);
    RankedIffOperations(txs, contractId, user);
    FindUser(Leaderboard(txs, contractId), user) + 1
  }

  /** `findIndex` compares lower-cased addresses, so only the lower-cased user matters. */
  lemma {:induction false} FindUserIgnoresCase(board: seq<Entry>, user: string, other: string)
    requires SameIgnoringCase(user, other)
    ensures FindUser(board, user) == FindUser(board, other)
  {
    if 0 < |board| {
      FindUserIgnoresCase(board[1..], user, other);
    }
  }

  /** Looking the user up in another letter case gives the same rank. */
  lemma RankIgnoresLookupCase(user: string, other: string, txs: seq<Transaction>, contractId: string)
    requires SameIgnoringCase(user, other)
    ensures CalculateUserRank(user, txs, contractId) == CalculateUserRank(other, txs, contractId)
  {
    FindUserIgnoresCase(Leaderboard(txs, contractId), user, other);
  }

  // -------------------------------------------- agreement with the profile

  /**
   * The user's calls to the contract all carry the same spelling of the
   * address, `spelling`, which equals the address the profile is looked up
   * with up to letter case.
   */
  ghost predicate OneSpelling(txs: seq<Transaction>, contractId: string, user: string, spelling: string) {
    && SameIgnoringCase(spelling, user)
    && forall i :: 0 <= i < |txs| && CallsContract(txs[i], contractId) && SentBy(txs[i], user) ==> txs[i].sender == spelling
  }

  /** With one spelling, that spelling's totals are the user's totals up to case. */
  lemma {:induction false} ExactCaseTotals(txs: seq<Transaction>, contractId: string, user: string, spelling: string)
    requires OneSpelling(txs, contractId, user, spelling)
    ensures OperationsBy(txs, contractId, spelling) == OperationsOf(txs, contractId, user)
    ensures NetBy(txs, contractId, spelling) == IncrementsOf(txs, contractId, user) - DecrementsOf(txs, contractId, user)
  {
    if 0 < |txs| {
      var init := Init(txs);
      assert forall i :: 0 <= i < |init| ==> init[i] == txs[i];
      assert Last(txs) == txs[|txs| - 1];
      ExactCaseTotals(init, contractId, user, spelling);
    }
  }

  /**
   * When the user always sends with the same spelling, whatever the letter case
   * of the address the profile is looked up with, the entry at the user's rank
   * is that spelling's, with the user's totals.
   */
  lemma RankedEntryIsUser(user: string, txs: seq<Transaction>, contractId: string, spelling: string)
    requires OneSpelling(txs, contractId, user, spelling)
    requires 0 < OperationsOf(txs, contractId, user)
    ensures 0 < CalculateUserRank(user, txs, contractId)
    ensures var e := Leaderboard(txs, contractId)[CalculateUserRank(user, txs, contractId) - 1];
            && e.address == spelling
            && e.operations == OperationsOf(txs, contractId, user)
            && e.netContribution == IncrementsOf(txs, contractId, user) - DecrementsOf(txs, contractId, user)
  {
    var board := Leaderboard(txs, contractId);
    var i := CalculateUserRank(user, txs, contractId) - 1;
    BoardEntries(txs, contractId);
    var a := board[i].address;
    assert a in Senders(txs, contractId);
    var t :| 0 <= t < |txs| && IsOperation(txs[t], contractId) && txs[t].sender == a;
    assert SentBy(txs[t], user);
    ExactCaseTotals(txs, contractId, user, spelling);
  }

  /**
   * ... and that entry carries the operations and the net contribution of the
   * user's profile.
   */
  lemma RankAgreesWithProfile(user: string, txs: seq<Transaction>, contractId: string, spelling: string, now: int)
    requires OneSpelling(txs, contractId, user, spelling)
    requires 0 < OperationsOf(txs, contractId, user)
    ensures 0 < CalculateUserRank(user, txs, contractId)
    ensures var e := Leaderboard(txs, contractId)[CalculateUserRank(user, txs, contractId) - 1];
            var stats := UserStats.CalculateUserStats(user, txs, contractId, now);
            && e.address == spelling
            && e.operations == stats.operations
            && e.netContribution == stats.netContribution
  {
    RankedEntryIsUser(user, txs, contractId, spelling);
  }
}
