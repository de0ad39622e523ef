/**
 * The records the betting system reads and writes: the read-only catalog of
 * seasons, episodes, tasks and results, and the bets, picks and ledger
 * entries it stores. Identifiers are strings; an absent identifier is "".
 */
module Entities {
  import opened Wrappers
  import opened Odds

  datatype EpisodeStatus = Upcoming | Live | Completed
  datatype SeasonStatus = SeasonUpcoming | SeasonActive | SeasonCompleted

  datatype TaskResult = TaskResult(contestantId: string, score: int)
  datatype Task = Task(id: string, results: seq<TaskResult>)
  datatype Episode = Episode(seasonId: string, status: EpisodeStatus, tasks: seq<Task>)
  datatype Season = Season(status: SeasonStatus, contestants: seq<Contestant>)

  /** Content owned by the show's data: read, never written, by the ledger. */
  datatype Catalog = Catalog(episodes: map<string, Episode>, seasons: map<string, Season>)

  /** The contestants of a season; a season the catalog lacks has none. */
  function SeasonContestants(cat: Catalog, seasonId: string): seq<Contestant> {
    if seasonId in cat.seasons then cat.seasons[seasonId].contestants else []
  }

  /** Whether the contestant belongs to the season. */
  predicate InSeason(cat: Catalog, seasonId: string, contestantId: string) {
    FindIndex(SeasonContestants(cat, seasonId), contestantId) >= 0
  }

  /** Whether the episode has a task with that id. */
  predicate HasTask(ep: Episode, taskId: string) {
    exists i :: 0 <= i < |ep.tasks| && ep.tasks[i].id == taskId
  }

  datatype BetType = TaskWinnerBet | EpisodeWinnerBet | ExactScoreBet | DisqualificationBet | SpecialOutcomeBet

  /** The bet type a request names, if it names one. */
  function ParseBetType(s: string): Option<BetType> {
    if s == "task_winner" then Some(TaskWinnerBet)
    else if s == "episode_winner" then Some(EpisodeWinnerBet)
    else if s == "exact_score" then Some(ExactScoreBet)
    else if s == "disqualification" then Some(DisqualificationBet)
    else if s == "special_outcome" then Some(SpecialOutcomeBet)
    else None
  }

  datatype BetStatus = Pending | Won | Lost

  /**
   * A wager. Odds and potential payout are frozen at placement; the actual
   * payout is unset until the bet is resolved.
   */
  datatype Bet = Bet(
    userId: string,
    episodeId: string,
    taskId: Option<string>,
    betType: BetType,
    betTarget: string,
    amount: int,
    oddsHalves: int,
    potentialPayout: int,
    status: BetStatus,
    actualPayout: Option<int>)

  /** A player's backing of a contestant for a season. */
  datatype Pick = Pick(userId: string, seasonId: string, contestantId: string, active: bool, currencySpent: int)

  datatype EntryKind = BetPlaced | BetWon | BetLost | EpisodeReward | ContestantSwitch

  /** One line of the append-only currency ledger; positive amounts are credits. */
  datatype Entry = Entry(
    userId: string,
    amount: int,
    kind: EntryKind,
    episodeId: Option<string>,
    contestantId: Option<string>)

  /** Balance every account is opened with. */
  const StartingBalance: int := 1000

  /** Sum of the ledger amounts of one user. */
  function LedgerSum(es: seq<Entry>, u: string): int {
    if |es| == 0 then 0
    else LedgerSum(es[..|es| - 1], u) + (if es[|es| - 1].userId == u then es[|es| - 1].amount else 0)
  }

  lemma {:induction false} LedgerSumAppend(a: seq<Entry>, b: seq<Entry>, u: string)
    ensures LedgerSum(a + b, u) == LedgerSum(a, u) + LedgerSum(b, u)
    decreases |b|
  {
    if |b| > 0 {
      var last := b[|b| - 1];
      assert (a + b)[..|a + b| - 1] == a + b[..|b| - 1];
      LedgerSumAppend(a, b[..|b| - 1], u);
    } else {
      assert a + b == a;
    }
  }

  lemma {:induction false} LedgerSumOfStranger(es: seq<Entry>, u: string)
    requires forall i :: 0 <= i < |es| ==> es[i].userId != u
    ensures LedgerSum(es, u) == 0
  {
    if |es| > 0 {
      LedgerSumOfStranger(es[..|es| - 1], u);
    }
  }

  /** What placement and resolution guarantee of every stored bet. */
  ghost predicate WellFormedBet(b: Bet) {
    && MinBet <= b.amount <= MaxBet
    && b.oddsHalves in OddsValues
    && b.potentialPayout == Payout(b.amount, b.oddsHalves)
    && (b.status == Pending ==> b.actualPayout == None)
    && (b.status == Won ==> b.actualPayout == Some(b.potentialPayout))
    && (b.status == Lost ==> b.actualPayout == Some(0))
  }

  /** At most one active pick per (user, season). */
  ghost predicate AtMostOneActive(picks: seq<Pick>) {
    forall i, j :: 0 <= i < j < |picks| && picks[i].active && picks[j].active ==>
      picks[i].userId != picks[j].userId || picks[i].seasonId != picks[j].seasonId
  }
}
