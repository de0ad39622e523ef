/**
 * The leaderboard: accounts ranked by balance, each with the net of its most
 * recent ledger lines and the contestant it currently backs.
 */
module Leaderboard {
  import opened Wrappers
  import opened StableSort
  import opened Odds
  import opened Entities

  /** Rows returned when the request gives no limit. */
  const DefaultLimit: nat := 50

  /** How many of a player's latest ledger lines the totals look at. */
  const RecentCount: nat := 5

  /** An account as the leaderboard reads it, in registration order. */
  datatype Account = Account(id: string, balance: int)

  function Balance(a: Account): int {
    a.balance
  }

  /** The backed contestant as shown on a row. */
  datatype PickView = PickView(contestantId: string, seasonId: string, contestantPoints: int)

  datatype Row = Row(
    rank: nat,
    userId: string,
    currencyBalance: int,
    totalEarned: int,
    totalSpent: int,
    activePick: Option<PickView>)

  function LimitOrDefault(limit: Option<nat>): nat {
    match limit
    case None => DefaultLimit
    case Some(n) => n
  }

  function Min(a: nat, b: nat): nat {
    if a <= b then a else b
  }

  /** The accounts shown: the richest first, at most `limit` of them. */
  function Ranking(accounts: seq<Account>, limit: Option<nat>): seq<Account> {
    SortDesc(accounts, Balance)[..Min(LimitOrDefault(limit), |accounts|)]
  }

  /**
   * The ranking is ordered by balance, holds min(limit, accounts) accounts
   * drawn from the input (each at most as often as it occurs there), and no
   * account left out has more than any shown; without a limit below the
   * number of accounts it shows all of them.
   */
  lemma RankingMeaning(accounts: seq<Account>, limit: Option<nat>)
    ensures var r := Ranking(accounts, limit);
      && |r| == Min(LimitOrDefault(limit), |accounts|)
      && SortedDesc(r, Balance)
      && (forall a :: a in r ==> a in accounts)
      && multiset(r) <= multiset(accounts)
      && (forall a, i :: a in accounts && a !in r && 0 <= i < |r| ==> a.balance <= r[i].balance)
      && (LimitOrDefault(limit) >= |accounts| ==> multiset(r) == multiset(accounts))
  {
    var s := SortDesc(accounts, Balance);
    var n := Min(LimitOrDefault(limit), |accounts|);
    var r := s[..n];
    SortSorted(accounts, Balance);
    SortSameElements(accounts, Balance);
    SortPermutes(accounts, Balance);
    forall a, i | a in accounts && a !in r && 0 <= i < |r| ensures a.balance <= r[i].balance {
      var j :| 0 <= j < |s| && s[j] == a;
      assert Balance(s[i]) >= Balance(s[j]);
    }
    PrefixWithin(s, n);
    if LimitOrDefault(limit) >= |accounts| {
      assert r == s;
    }
  }

  /** A prefix holds each element at most as often as the whole sequence. */
  lemma PrefixWithin<T>(s: seq<T>, n: nat)
    requires n <= |s|
    ensures multiset(s[..n]) <= multiset(s)
  {
    assert s == s[..n] + s[n..];
  }

  // ---------------------------------------------------------------------
  // Earned and spent over the latest ledger lines

  /** The player's ledger amounts, newest first. */
  function AmountsNewestFirst(ledger: seq<Entry>, u: string): (r: seq<int>)
    ensures |r| <= |ledger|
  {
    if |ledger| == 0 then []
    else
      var n := |ledger| - 1;
      (if ledger[n].userId == u then [ledger[n].amount] else []) + AmountsNewestFirst(ledger[..n], u)
  }

  /** The amounts of the player's latest lines, at most RecentCount of them. */
  function RecentAmounts(ledger: seq<Entry>, u: string): seq<int> {
    var all := AmountsNewestFirst(ledger, u);
    all[..Min(RecentCount, |all|)]
  }

  function Sum(xs: seq<int>): int {
    if |xs| == 0 then 0 else xs[0] + Sum(xs[1..])
  }

  /** Sum of the credits. */
  function Earned(xs: seq<int>): (e: int)
    ensures e >= 0
  {
    if |xs| == 0 then 0 else (if xs[0] > 0 then xs[0] else 0) + Earned(xs[1..])
  }

  /** Sum of the debits, counted positive. */
  function Spent(xs: seq<int>): (s: int)
    ensures s >= 0
  {
    if |xs| == 0 then 0 else (if xs[0] < 0 then -xs[0] else 0) + Spent(xs[1..])
  }

  /** Credits minus debits is the net of the amounts considered. */
  lemma {:induction false} EarnedMinusSpent(xs: seq<int>)
    ensures Earned(xs) - Spent(xs) == Sum(xs)
  {
    if |xs| > 0 {
      EarnedMinusSpent(xs[1..]);
    }
  }

  /** The player's amounts, read newest first, add up to the player's ledger sum. */
  lemma {:induction false} AmountsNewestFirstSum(ledger: seq<Entry>, u: string)
    ensures Sum(AmountsNewestFirst(ledger, u)) == LedgerSum(ledger, u)
  {
    if |ledger| > 0 {
      var n := |ledger| - 1;
      AmountsNewestFirstSum(ledger[..n], u);
      var rest := AmountsNewestFirst(ledger[..n], u);
      if ledger[n].userId == u {
        assert ([ledger[n].amount] + rest)[1..] == rest;
      } else {
        assert [] + rest == rest;
      }
    }
  }

  /**
   * The totals look at no more than RecentCount lines; for a player with no
   * more lines than that, earned minus spent is the whole ledger net, so
   * the balance change since the account was opened.
   */
  lemma RecentNet(ledger: seq<Entry>, u: string)
    ensures |RecentAmounts(ledger, u)| <= RecentCount
    ensures Earned(RecentAmounts(ledger, u)) - Spent(RecentAmounts(ledger, u)) == Sum(RecentAmounts(ledger, u))
    ensures |AmountsNewestFirst(ledger, u)| <= RecentCount ==>
              Earned(RecentAmounts(ledger, u)) - Spent(RecentAmounts(ledger, u)) == LedgerSum(ledger, u)
  {
    var all := AmountsNewestFirst(ledger, u);
    EarnedMinusSpent(RecentAmounts(ledger, u));
    AmountsNewestFirstSum(ledger, u);
    if |all| <= RecentCount {
      assert all[..|all|] == all;
    }
  }

  // ---------------------------------------------------------------------
  // The backed contestant

  /** Picks the row may show: active, and of the season when one is named. */
  predicate Backs(p: Pick, u: string, seasonId: string) {
    p.userId == u && p.active && (seasonId == "" || p.seasonId == seasonId)
  }

  /** The first such pick in creation order. */
  function FirstBacking(picks: seq<Pick>, u: string, seasonId: string): (r: Option<nat>)
    ensures r.Some? ==> r.value < |picks| && Backs(picks[r.value], u, seasonId)
                        && forall j :: 0 <= j < r.value ==> !Backs(picks[j], u, seasonId)
    ensures r.None? ==> forall j :: 0 <= j < |picks| ==> !Backs(picks[j], u, seasonId)
  {
    if |picks| == 0 then None
    else if Backs(picks[0], u, seasonId) then Some(0)
    else
      match FirstBacking(picks[1..], u, seasonId)
      case None => None
      case Some(k) => Some(k + 1)
  }

  /** The contestant's total points, 0 when missing or when the season does not list it. */
  function ContestantPoints(cat: Catalog, seasonId: string, contestantId: string): int {
    var cs := SeasonContestants(cat, seasonId);
    var k := FindIndex(cs, contestantId);
    if k >= 0 then Points(cs[k]) else 0
  }

  function ActivePick(picks: seq<Pick>, cat: Catalog, u: string, seasonId: string): Option<PickView> {
    match FirstBacking(picks, u, seasonId)
    case None => None
    case Some(k) => Some(PickView(picks[k].contestantId, picks[k].seasonId,
                                  ContestantPoints(cat, picks[k].seasonId, picks[k].contestantId)))
  }

  /**
   * A row shows no pick exactly when the player backs nobody (in the season,
   * when one is named); otherwise it shows an active pick of the player, and
   * a contestant without points shows 0.
   */
  lemma ActivePickMeaning(picks: seq<Pick>, cat: Catalog, u: string, seasonId: string)
    ensures ActivePick(picks, cat, u, seasonId).None? <==>
              forall j :: 0 <= j < |picks| ==> !Backs(picks[j], u, seasonId)
    ensures ActivePick(picks, cat, u, seasonId).Some? ==>
              var v := ActivePick(picks, cat, u, seasonId).value;
              exists j :: 0 <= j < |picks| && Backs(picks[j], u, seasonId)
                          && v.contestantId == picks[j].contestantId && v.seasonId == picks[j].seasonId
    ensures ActivePick(picks, cat, u, seasonId).Some? ==>
              var v := ActivePick(picks, cat, u, seasonId).value;
              var cs := SeasonContestants(cat, v.seasonId);
              (forall k :: 0 <= k < |cs| && cs[k].id == v.contestantId ==> cs[k].totalPoints.None?) ==> v.contestantPoints == 0
  {
    match FirstBacking(picks, u, seasonId)
    case None =>
    case Some(k) =>
      var cs := SeasonContestants(cat, picks[k].seasonId);
      var i := FindIndex(cs, picks[k].contestantId);
      assert Backs(picks[k], u, seasonId);
  }

  /** Under one active pick per season, naming the season shows that season's active pick. */
  lemma SeasonActivePick(picks: seq<Pick>, cat: Catalog, u: string, seasonId: string, j: nat)
    requires AtMostOneActive(picks)
    requires seasonId != "" && j < |picks| && Backs(picks[j], u, seasonId)
    ensures ActivePick(picks, cat, u, seasonId).Some?
    ensures ActivePick(picks, cat, u, seasonId).value.contestantId == picks[j].contestantId
  {
    var k := FirstBacking(picks, u, seasonId).value;
    if k != j {
      assert false;
    }
  }

  // ---------------------------------------------------------------------
  // The rows

  function MakeRow(rank: nat, a: Account, picks: seq<Pick>, ledger: seq<Entry>, cat: Catalog, seasonId: string): Row {
    var recent := RecentAmounts(ledger, a.id);
    Row(rank, a.id, a.balance, Earned(recent), Spent(recent), ActivePick(picks, cat, a.id, seasonId))
  }

  /** The leaderboard rows, ranked 1 to n in order. */
  function Board(accounts: seq<Account>, picks: seq<Pick>, ledger: seq<Entry>, cat: Catalog,
                 seasonId: string, limit: Option<nat>): (rows: seq<Row>)
    ensures |rows| == Min(LimitOrDefault(limit), |accounts|)
    ensures forall i :: 0 <= i < |rows| ==> rows[i].rank == i + 1
    ensures forall i :: 0 <= i < |rows| ==> rows[i].totalEarned >= 0 && rows[i].totalSpent >= 0
  {
    var ranked := Ranking(accounts, limit);
    seq(|ranked|, i requires 0 <= i < |ranked| => MakeRow(i + 1, ranked[i], picks, ledger, cat, seasonId))
  }

  /**
   * The rows list the richest accounts in descending balance, row i showing
   * the i-th account of the ranking; each row shows its player's recent net
   * split into earned and spent, and the player's active pick.
   */
  lemma BoardMeaning(accounts: seq<Account>, picks: seq<Pick>, ledger: seq<Entry>, cat: Catalog,
                     seasonId: string, limit: Option<nat>)
    ensures var rows := Board(accounts, picks, ledger, cat, seasonId, limit);
      && (forall i :: 0 <= i < |rows| ==>
            Account(rows[i].userId, rows[i].currencyBalance) == Ranking(accounts, limit)[i])
      && (forall i :: 0 <= i < |rows| ==> rows[i].activePick == ActivePick(picks, cat, rows[i].userId, seasonId))
      && (forall i, j :: 0 <= i < j < |rows| ==> rows[i].currencyBalance >= rows[j].currencyBalance)
      && (forall i :: 0 <= i < |rows| ==> Account(rows[i].userId, rows[i].currencyBalance) in accounts)
      && (forall a, i :: a in accounts && 0 <= i < |rows| && a !in Ranking(accounts, limit)
                         ==> a.balance <= rows[i].currencyBalance)
      && (forall i :: 0 <= i < |rows| ==>
            rows[i].totalEarned - rows[i].totalSpent == Sum(RecentAmounts(ledger, rows[i].userId)))
  {
    var rows := Board(accounts, picks, ledger, cat, seasonId, limit);
    var ranked := Ranking(accounts, limit);
    RankingMeaning(accounts, limit);
    forall i | 0 <= i < |rows|
      ensures Account(rows[i].userId, rows[i].currencyBalance) == ranked[i]
      ensures rows[i].totalEarned - rows[i].totalSpent == Sum(RecentAmounts(ledger, rows[i].userId))
    {
      EarnedMinusSpent(RecentAmounts(ledger, ranked[i].id));
    }
    forall i, j | 0 <= i < j < |rows| ensures rows[i].currencyBalance >= rows[j].currencyBalance {
      assert Balance(ranked[i]) >= Balance(ranked[j]);
    }
  }
}
