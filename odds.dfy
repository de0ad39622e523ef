/**
 * Fixed-odds rules of the betting system: the rank of a contestant in the
 * current standings, the multiplier table, the payout and the stake limits.
 *
 * Every multiplier of the system is a multiple of one half, so odds are kept
 * as a whole number of halves (2.0 is 4, 2.5 is 5, 3.0 is 6, 3.5 is 7,
 * 4.5 is 9, 6.0 is 12) and the payout floor(amount * odds) is exactly
 * (amount * halves) / 2 in integer division.
 */
module Odds {
  import opened Wrappers
  import opened StableSort

  /** A contestant as the standings see it; its points may be missing. */
  datatype Contestant = Contestant(id: string, totalPoints: Option<int>)

  /** Points used for ranking: a missing total counts as 0. */
  function Points(c: Contestant): int {
    match c.totalPoints
    case Some(p) => p
    case None => 0
  }

  /** Every value a ranked or binary bet can be priced at, in halves. */
  const OddsValues: set<int> := {4, 5, 6, 7, 9, 12}

  /** Odds of bets whose outcome is not a contestant: 2.0. */
  const BinaryBetOdds: int := 4

  /** Odds when the contestant is unranked or ranked beyond the table: 3.0. */
  const DefaultOdds: int := 6

  const MinBet: int := 10
  const MaxBet: int := 500

  /** The rank-to-multiplier table, falling back to 3.0 outside ranks 1 to 5. */
  function RankOdds(rank: int): (h: int)
    ensures h in OddsValues
    ensures (rank < 1 || rank > 5) ==> h == DefaultOdds
  {
    if rank == 1 then 4
    else if rank == 2 then 5
    else if rank == 3 then 7
    else if rank == 4 then 9
    else if rank == 5 then 12
    else DefaultOdds
  }

  /** Position of the first contestant carrying id, or -1 (Array.prototype.findIndex). */
  function FindIndex(s: seq<Contestant>, id: string): (i: int)
    ensures -1 <= i < |s|
    ensures i >= 0 ==> s[i].id == id && forall j :: 0 <= j < i ==> s[j].id != id
    ensures i == -1 ==> forall j :: 0 <= j < |s| ==> s[j].id != id
  {
    if |s| == 0 then -1
    else if s[0].id == id then 0
    else
      var k := FindIndex(s[1..], id);
      if k == -1 then -1 else k + 1
  }

  /** The contestants in stable descending order of points. */
  function Standings(cs: seq<Contestant>): seq<Contestant> {
    SortDesc(cs, Points)
  }

  /** 1-based rank of id in the standings; 0 when id is absent. */
  function Rank(cs: seq<Contestant>, id: string): (rank: nat)
    ensures rank <= |cs|
  {
    FindIndex(Standings(cs), id) + 1
  }

  /** Odds, in halves, for a bet that the contestant id wins. */
  function WinnerOdds(cs: seq<Contestant>, id: string): (h: int)
    ensures h in OddsValues
  {
    var rank := Rank(cs, id);
    if rank == 0 then DefaultOdds else RankOdds(rank)
  }

  /** floor(amount * odds) with odds given in halves. */
  function Payout(amount: int, oddsHalves: int): (p: int)
    ensures 2 * p <= amount * oddsHalves < 2 * p + 2
  {
    amount * oddsHalves / 2
  }

  /** Why a stake is refused, with the message shown to the player. */
  datatype StakeError = BelowMinimum | AboveMaximum | InsufficientCurrency {
    function Message(): string {
      match this
      case BelowMinimum => "Minimum bet is 10 currency"
      case AboveMaximum => "Maximum bet is 500 currency"
      case InsufficientCurrency => "Insufficient currency"
    }
  }

  datatype StakeCheck = Valid | Invalid(error: StakeError)

  /** Checks the stake against the minimum, then the maximum, then the balance. */
  function ValidateBetAmount(amount: int, userCurrency: int): (r: StakeCheck)
    ensures r.Valid? <==> MinBet <= amount <= MaxBet && amount <= userCurrency
  {
    if amount < MinBet then Invalid(BelowMinimum)
    else if amount > MaxBet then Invalid(AboveMaximum)
    else if amount > userCurrency then Invalid(InsufficientCurrency)
    else Valid
  }

  /** The three refusals are reported in a fixed order of precedence. */
  lemma ValidationPrecedence(amount: int, userCurrency: int)
    ensures amount < MinBet ==> ValidateBetAmount(amount, userCurrency) == Invalid(BelowMinimum)
    ensures MinBet <= amount && amount > MaxBet
            ==> ValidateBetAmount(amount, userCurrency) == Invalid(AboveMaximum)
    ensures MinBet <= amount <= MaxBet && amount > userCurrency
            ==> ValidateBetAmount(amount, userCurrency) == Invalid(InsufficientCurrency)
  {
  }

  /** The floor never rounds up, and odds of at least 1.0 never pay less than the stake. */
  lemma PayoutBounds(amount: int, oddsHalves: int)
    requires amount >= 0 && oddsHalves >= 2
    ensures 2 * Payout(amount, oddsHalves) <= amount * oddsHalves
    ensures Payout(amount, oddsHalves) >= amount
  {
    assert amount * oddsHalves >= amount * 2;
  }

  /** A rank is absent exactly when no contestant carries the id. */
  lemma RankAbsent(cs: seq<Contestant>, id: string)
    ensures Rank(cs, id) == 0 <==> forall j :: 0 <= j < |cs| ==> cs[j].id != id
  {
    SortSameElements(cs, Points);
    if Rank(cs, id) == 0 {
      forall j | 0 <= j < |cs| ensures cs[j].id != id {
        assert cs[j] in Standings(cs);
      }
    } else {
      var s := Standings(cs);
      var k := FindIndex(s, id);
      assert s[k] in cs;
    }
  }

  /** An id outside the list is priced at 3.0. */
  lemma AbsentContestantOdds(cs: seq<Contestant>, id: string)
    requires forall j :: 0 <= j < |cs| ==> cs[j].id != id
    ensures WinnerOdds(cs, id) == DefaultOdds
  {
    RankAbsent(cs, id);
  }

  /**
   * The rank is the position of the first contestant carrying id in the
   * stable descending order of points: everyone placed ahead has at least
   * as many points and another id.
   */
  lemma RankIsStandingsPosition(cs: seq<Contestant>, id: string)
    requires Rank(cs, id) > 0
    ensures var s := Standings(cs); var r := Rank(cs, id);
      s[r - 1].id == id &&
      forall j :: 0 <= j < r - 1 ==> s[j].id != id && Points(s[j]) >= Points(s[r - 1])
  {
    SortSorted(cs, Points);
  }

  /** Ranks 1 to 5 give 2.0, 2.5, 3.5, 4.5 and 6.0; any other rank gives 3.0. */
  lemma OddsTable(cs: seq<Contestant>, id: string)
    ensures Rank(cs, id) == 1 ==> WinnerOdds(cs, id) == 4
    ensures Rank(cs, id) == 2 ==> WinnerOdds(cs, id) == 5
    ensures Rank(cs, id) == 3 ==> WinnerOdds(cs, id) == 7
    ensures Rank(cs, id) == 4 ==> WinnerOdds(cs, id) == 9
    ensures Rank(cs, id) == 5 ==> WinnerOdds(cs, id) == 12
    ensures Rank(cs, id) > 5 || Rank(cs, id) == 0 ==> WinnerOdds(cs, id) == DefaultOdds
  {
  }

  /** A contestant with strictly more points than every other entry is the favourite, at 2.0. */
  lemma LeaderIsFavourite(cs: seq<Contestant>, k: nat)
    requires k < |cs|
    requires forall j :: 0 <= j < |cs| && j != k ==> Points(cs[j]) < Points(cs[k])
    ensures Rank(cs, cs[k].id) == 1
    ensures WinnerOdds(cs, cs[k].id) == 4
  {
    SortHead(cs, Points);
    var m := FirstMax(cs, Points);
    assert m == k;
  }
}
