/**
 * `calculateAchievements` (frontend/hooks/useUserProfile.ts): a fixed table of
 * eight badges, each unlocked by a rule over the user's counters, returned in
 * table order. Only the first badge carries a date, the user's first activity.
 */
module Achievements {
  import opened Wrappers
  import opened Transactions
  import opened UserStats

  /** The eight badges, in the order the table tests them. */
  datatype Badge = FirstTx | TenOps | FiftyOps | HundredOps | Incrementer | Decrementer | Balanced | HighImpact
  {
    /** The badge's position in the table. */
    function Position(): nat {
      match this
      case FirstTx => 0
      case TenOps => 1
      case FiftyOps => 2
      case HundredOps => 3
      case Incrementer => 4
      case Decrementer => 5
      case Balanced => 6
      case HighImpact => 7
    }

    function Id(): string {
      match this
      case FirstTx => "first-tx"
      case TenOps => "10-ops"
      case FiftyOps => "50-ops"
      case HundredOps => "100-ops"
      case Incrementer => "incrementer"
      case Decrementer => "decrementer"
      case Balanced => "balanced"
      case HighImpact => "high-impact"
    }

    function Name(): string {
      match this
      case FirstTx => "First Steps"
      case TenOps => "Getting Started"
      case FiftyOps => "Active User"
      case HundredOps => "Power User"
      case Incrementer => "Incrementer"
      case Decrementer => "Decrementer"
      case Balanced => "Balanced"
      case HighImpact => "High Impact"
    }

    function Description(): string {
      match this
      case FirstTx => "Made your first transaction"
      case TenOps => "Completed 10 operations"
      case FiftyOps => "Completed 50 operations"
      case HundredOps => "Completed 100 operations"
      case Incrementer => "More increments than decrements"
      case Decrementer => "More decrements than increments"
      case Balanced => "Keeping things balanced"
      case HighImpact => "Made a significant contribution"
    }
  }

  /** An unlocked badge; `unlockedAt` is in milliseconds, absent for `undefined`. */
  datatype Achievement = Achievement(badge: Badge, unlockedAt: Option<int>)

  /** `Math.abs` */
  function Abs(x: int): (r: nat)
    ensures r == x || r == -x
  {
    if x < 0 then -x else x
  }

  /** The condition of the table's `if` for badge `b`. */
  predicate Rule(s: Stats, b: Badge) {
    match b
    case FirstTx => s.operations >= 1
    case TenOps => s.operations >= 10
    case FiftyOps => s.operations >= 50
    case HundredOps => s.operations >= 100
    case Incrementer => s.increments > s.decrements && s.increments >= 5
    case Decrementer => s.decrements > s.increments && s.decrements >= 5
    case Balanced => s.operations >= 20 && Abs(s.netContribution) <= 5
    case HighImpact => Abs(s.netContribution) >= 50
  }

  /** The table, in the order its conditions are evaluated. */
  const Table: seq<Badge> := [FirstTx, TenOps, FiftyOps, HundredOps, Incrementer, Decrementer, Balanced, HighImpact]

  /** What the table pushes for badge `b`. `stats.firstSeen || undefined` is `firstSeen`, as a `Date` is never falsy. */
  function Unlocked(s: Stats, b: Badge): Achievement {
    Achievement(b, if b == FirstTx then s.firstSeen else None)
  }

  /** Some achievement in `r` is `b`. */
  predicate Has(r: seq<Achievement>, b: Badge) {
    exists i :: 0 <= i < |r| && r[i].badge == b
  }

  /** Strictly increasing table positions: table order, each badge at most once. */
  predicate InTableOrder(r: seq<Achievement>) {
    forall i, j :: 0 <= i < j < |r| ==> r[i].badge.Position() < r[j].badge.Position()
  }

  /** Strictly increasing positions of the badges still to test. */
  predicate Increasing(bs: seq<Badge>) {
    forall i, j :: 0 <= i < j < |bs| ==> bs[i].Position() < bs[j].Position()
  }

  /** The `if`s for the badges `bs`, in order. */
  function Select(s: Stats, bs: seq<Badge>): (r: seq<Achievement>)
    ensures forall i :: 0 <= i < |r| ==> r[i] == Unlocked(s, r[i].badge) && r[i].badge in bs && Rule(s, r[i].badge)
    ensures forall b :: b in bs && Rule(s, b) ==> Has(r, b)
    ensures Increasing(bs) ==> InTableOrder(r)
  {
    if |bs| == 0 then []
    else
      assert forall b :: b in bs[1..] ==> b in bs;
      assert forall b :: b in bs ==> b == bs[0] || b in bs[1..];
      assert Increasing(bs) ==> Increasing(bs[1..]);
      if Rule(s, bs[0]) then
        SelectHead(s, bs, Select(s, bs[1..]));
        [Unlocked(s, bs[0])] + Select(s, bs[1..])
      else
        Select(s, bs[1..])
  }

  /** The step of `Select` that pushes the badge `bs[0]` ahead of those selected from the rest. */
  lemma {:induction false} SelectHead(s: Stats, bs: seq<Badge>, rest: seq<Achievement>)
    requires 0 < |bs| && Rule(s, bs[0])
    requires forall i :: 0 <= i < |rest| ==> rest[i] == Unlocked(s, rest[i].badge) && rest[i].badge in bs[1..] && Rule(s, rest[i].badge)
    requires forall b :: b in bs[1..] && Rule(s, b) ==> Has(rest, b)
    requires Increasing(bs[1..]) ==> InTableOrder(rest)
    ensures forall i :: 0 <= i < |rest| + 1 ==> ([Unlocked(s, bs[0])] + rest)[i].badge in bs
    ensures forall b :: b in bs && Rule(s, b) ==> Has([Unlocked(s, bs[0])] + rest, b)
    ensures Increasing(bs) ==> InTableOrder([Unlocked(s, bs[0])] + rest)
  {
    var r := [Unlocked(s, bs[0])] + rest;
    assert forall i :: 1 <= i < |r| ==> r[i] == rest[i - 1];
    assert r[0].badge == bs[0];
    forall b | b in bs && Rule(s, b) ensures Has(r, b) {
      if b != bs[0] {
        assert b in bs[1..];
        var i :| 0 <= i < |rest| && rest[i].badge == b;
        assert r[i + 1].badge == b;
      }
    }
    if Increasing(bs) {
      forall i, j | 0 <= i < j < |r| ensures r[i].badge.Position() < r[j].badge.Position() {
        if i == 0 {
          var k :| 0 <= k < |bs[1..]| && bs[1..][k] == r[j].badge;
          assert bs[k + 1] == r[j].badge;
        }
      }
    }
  }

  /** Every badge is in the table, and the table is in increasing position order. */
  lemma TableFacts()
    ensures forall b: Badge :: b in Table
    ensures Increasing(Table)
  {
    forall b: Badge ensures b in Table {
      assert Table[b.Position()] == b;
    }
    forall i, j | 0 <= i < j < |Table| ensures Table[i].Position() < Table[j].Position() {
      assert forall k :: 0 <= k < |Table| ==> Table[k].Position() == k;
    }
  }

  /** `calculateAchievements(stats)`: the table's badges whose rule holds, in table order. */
  function CalculateAchievements(s: Stats): (r: seq<Achievement>)
    ensures InTableOrder(r)
    ensures forall b :: Has(r, b) <==> Rule(s, b)
    ensures forall i :: 0 <= i < |r| ==> r[i].unlockedAt == if r[i].badge == FirstTx then s.firstSeen else None
  {
    TableFacts();
    Select(s, Table)
  }

  // ------------------------------------------------------------ properties

  /**
   * The milestones nest, the two direction badges exclude each other, and so do
   * "balanced" and "high impact"; for stats whose net contribution is increments
   * minus decrements, "incrementer" means a positive and "decrementer" a negative one.
   */
  lemma BadgeRelations(s: Stats)
    ensures var r := CalculateAchievements(s);
            && (Has(r, HundredOps) ==> Has(r, FiftyOps))
            && (Has(r, FiftyOps) ==> Has(r, TenOps))
            && (Has(r, TenOps) ==> Has(r, FirstTx))
            && !(Has(r, Incrementer) && Has(r, Decrementer))
            && !(Has(r, Balanced) && Has(r, HighImpact))
    ensures s.netContribution == s.increments - s.decrements ==>
              && (Has(CalculateAchievements(s), Incrementer) ==> 0 < s.netContribution)
              && (Has(CalculateAchievements(s), Decrementer) ==> s.netContribution < 0)
  {
  }

  /** The table position, with each pair of exclusive badges sharing one slot. */
  function Slot(b: Badge): nat {
    match b
    case Decrementer => 4
    case Balanced => 5
    case HighImpact => 5
    case _ => b.Position()
  }

  /** Of the eight badges at most six are ever unlocked together. */
  lemma AtMostSix(s: Stats)
    ensures |CalculateAchievements(s)| <= 6
  {
    var r := CalculateAchievements(s);
    BadgeRelations(s);
    forall i, j | 0 <= i < j < |r| ensures Slot(r[i].badge) < Slot(r[j].badge) {
      assert Has(r, r[i].badge) && Has(r, r[j].badge);
    }
    if 0 < |r| {
      SlotsRise(r, |r| - 1);
    }
  }

  /** Along strictly rising slots, the `k`-th slot is at least `k`. */
  lemma {:induction false} SlotsRise(r: seq<Achievement>, k: nat)
    requires k < |r|
    requires forall i, j :: 0 <= i < j < |r| ==> Slot(r[i].badge) < Slot(r[j].badge)
    ensures k <= Slot(r[k].badge)
  {
    if 0 < k {
      SlotsRise(r, k - 1);
    }
  }

  /** A user with a hundred operations, mostly increments, and a large net contribution holds six badges: the bound is reached. */
  lemma SixBadges(s: Stats)
    requires s.operations >= 100 && s.increments > s.decrements && s.increments >= 5 && Abs(s.netContribution) >= 50
    ensures |CalculateAchievements(s)| == 6
  {
    AtMostSix(s);
    var r := CalculateAchievements(s);
    assert Rule(s, FirstTx) && Rule(s, TenOps) && Rule(s, FiftyOps);
    assert Rule(s, HundredOps) && Rule(s, Incrementer) && Rule(s, HighImpact);
    SixInOrder(r);
  }

  /** Six different badges in table order take six places. */
  lemma SixInOrder(r: seq<Achievement>)
    requires InTableOrder(r)
    requires Has(r, FirstTx) && Has(r, TenOps) && Has(r, FiftyOps)
    requires Has(r, HundredOps) && Has(r, Incrementer) && Has(r, HighImpact)
    ensures 6 <= |r|
  {
    var a :| 0 <= a < |r| && r[a].badge == FirstTx;
    var b :| 0 <= b < |r| && r[b].badge == TenOps;
    var c :| 0 <= c < |r| && r[c].badge == FiftyOps;
    var d :| 0 <= d < |r| && r[d].badge == HundredOps;
    var e :| 0 <= e < |r| && r[e].badge == Incrementer;
    var f :| 0 <= f < |r| && r[f].badge == HighImpact;
    Earlier(r, a, b);
    Earlier(r, b, c);
    Earlier(r, c, d);
    Earlier(r, d, e);
    Earlier(r, e, f);
  }

  /** In table order, a badge earlier in the table stands at an earlier index. */
  lemma Earlier(r: seq<Achievement>, i: nat, j: nat)
    requires InTableOrder(r) && i < |r| && j < |r|
    requires r[i].badge.Position() < r[j].badge.Position()
    ensures i < j
  {
  }

  /**
   * On a profile, "First Steps" is unlocked exactly when the user has an
   * operation, and it has no date exactly when none of the user's operations
   * has one of the five known function names (then there is no record to date it).
   */
  lemma ProfileFirstSteps(user: string, txs: seq<Transaction>, contractId: string, now: int)
    ensures var r := CalculateAchievements(CalculateUserStats(user, txs, contractId, now));
            && (Has(r, FirstTx) <==> 0 < OperationsOf(txs, contractId, user))
            && forall i :: 0 <= i < |r| && r[i].badge == FirstTx ==>
                 (r[i].unlockedAt.None? <==> KnownOperationsOf(txs, contractId, user) == 0)
  {
    var stats := CalculateUserStats(user, txs, contractId, now);
    assert stats == Finish(Accumulate(txs, contractId, user, now));
  }
}
