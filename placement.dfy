/**
 * The validation sequence of bet placement: which request is refused, with
 * which error, and at what odds and potential payout an accepted bet is
 * priced. The writes that follow an accepted request are Store.PlaceBet.
 */
module Placement {
  import opened Wrappers
  import opened Odds
  import opened Entities

  /**
   * A placement request. An absent, null or empty field is "" (0 for the
   * amount): the handler's falsy test refuses all of them alike. An empty
   * taskId means the bet is not on a task.
   */
  datatype PlaceRequest = PlaceRequest(
    userId: string,
    episodeId: string,
    taskId: string,
    betType: string,
    betTarget: string,
    amount: int)

  datatype PlaceError =
    | MissingFields
    | UserNotFound
    | InvalidStake(reason: StakeError)
    | EpisodeNotFound
    | EpisodeCompleted
    | TaskNotFound
    | InvalidContestant
    | InvalidBetType
  {
    /** The HTTP status the handler answers with. */
    function Status(): int {
      match this
      case UserNotFound => 404
      case EpisodeNotFound => 404
      case TaskNotFound => 404
      case _ => 400
    }
  }

  /** How an accepted bet is priced. */
  datatype Ticket = Ticket(betType: BetType, oddsHalves: int, potentialPayout: int)

  /** The pending bet an accepted request inserts, odds and potential payout frozen. */
  function NewBet(req: PlaceRequest, t: Ticket): Bet {
    Bet(req.userId, req.episodeId, if req.taskId == "" then None else Some(req.taskId),
        t.betType, req.betTarget, req.amount, t.oddsHalves, t.potentialPayout, Pending, None)
  }

  /** The ledger line an accepted placement writes: the stake, debited. */
  function PlacementEntry(req: PlaceRequest): Entry {
    Entry(req.userId, -req.amount, BetPlaced, Some(req.episodeId), None)
  }

  predicate HasRequiredFields(req: PlaceRequest) {
    req.userId != "" && req.episodeId != "" && req.betType != "" && req.betTarget != "" && req.amount != 0
  }

  predicate IsRanked(t: BetType) {
    t == TaskWinnerBet || t == EpisodeWinnerBet
  }

  /** Odds by bet type: winner bets by rank in the season, the others at 2.0. */
  function PriceBet(cat: Catalog, ep: Episode, betType: string, betTarget: string): Result<(BetType, int), PlaceError> {
    match ParseBetType(betType)
    case None => Err(InvalidBetType)
    case Some(t) =>
      if IsRanked(t) then
        var cs := SeasonContestants(cat, ep.seasonId);
        var odds := WinnerOdds(cs, betTarget);
        if InSeason(cat, ep.seasonId, betTarget) then Ok((t, odds)) else Err(InvalidContestant)
      else Ok((t, BinaryBetOdds))
  }

  /** The fail-fast checks of a placement request, in the handler's order. */
  function DecidePlacement(balances: map<string, int>, cat: Catalog, req: PlaceRequest): Result<Ticket, PlaceError> {
    if !HasRequiredFields(req) then Err(MissingFields)
    else if req.userId !in balances then Err(UserNotFound)
    else if ValidateBetAmount(req.amount, balances[req.userId]).Invalid? then
      Err(InvalidStake(ValidateBetAmount(req.amount, balances[req.userId]).error))
    else if req.episodeId !in cat.episodes then Err(EpisodeNotFound)
    else
      var ep := cat.episodes[req.episodeId];
      if ep.status == Completed then Err(EpisodeCompleted)
      else if req.taskId != "" && !HasTask(ep, req.taskId) then Err(TaskNotFound)
      else
        match PriceBet(cat, ep, req.betType, req.betTarget)
        case Err(e) => Err(e)
        case Ok((t, odds)) => Ok(Ticket(t, odds, Payout(req.amount, odds)))
  }

  /**
   * Refusals come in a fixed order: missing field, unknown user, invalid
   * stake, unknown episode, completed episode, unknown task, then the bet
   * type and its target. A zero amount counts as a missing field.
   */
  lemma RejectionOrder(balances: map<string, int>, cat: Catalog, req: PlaceRequest)
    ensures req.amount == 0 ==> DecidePlacement(balances, cat, req) == Err(MissingFields)
    ensures !HasRequiredFields(req) ==> DecidePlacement(balances, cat, req) == Err(MissingFields)
    ensures HasRequiredFields(req) && req.userId !in balances
            ==> DecidePlacement(balances, cat, req) == Err(UserNotFound)
    ensures HasRequiredFields(req) && req.userId in balances && req.amount < MinBet
            ==> DecidePlacement(balances, cat, req) == Err(InvalidStake(BelowMinimum))
    ensures HasRequiredFields(req) && req.userId in balances && req.amount > MaxBet
            ==> DecidePlacement(balances, cat, req) == Err(InvalidStake(AboveMaximum))
    ensures HasRequiredFields(req) && req.userId in balances && MinBet <= req.amount <= MaxBet
            && req.amount > balances[req.userId]
            ==> DecidePlacement(balances, cat, req) == Err(InvalidStake(InsufficientCurrency))
    ensures HasRequiredFields(req) && req.userId in balances
            && ValidateBetAmount(req.amount, balances[req.userId]).Valid?
            && req.episodeId !in cat.episodes
            ==> DecidePlacement(balances, cat, req) == Err(EpisodeNotFound)
    ensures HasRequiredFields(req) && req.userId in balances
            && ValidateBetAmount(req.amount, balances[req.userId]).Valid?
            && req.episodeId in cat.episodes && cat.episodes[req.episodeId].status == Completed
            ==> DecidePlacement(balances, cat, req) == Err(EpisodeCompleted)
    ensures HasRequiredFields(req) && req.userId in balances
            && ValidateBetAmount(req.amount, balances[req.userId]).Valid?
            && req.episodeId in cat.episodes && cat.episodes[req.episodeId].status != Completed
            && req.taskId != "" && !HasTask(cat.episodes[req.episodeId], req.taskId)
            ==> DecidePlacement(balances, cat, req) == Err(TaskNotFound)
    ensures HasRequiredFields(req) && req.userId in balances
            && ValidateBetAmount(req.amount, balances[req.userId]).Valid?
            && req.episodeId in cat.episodes && cat.episodes[req.episodeId].status != Completed
            && (req.taskId != "" ==> HasTask(cat.episodes[req.episodeId], req.taskId))
            && ParseBetType(req.betType).None?
            ==> DecidePlacement(balances, cat, req) == Err(InvalidBetType)
    ensures HasRequiredFields(req) && req.userId in balances
            && ValidateBetAmount(req.amount, balances[req.userId]).Valid?
            && req.episodeId in cat.episodes && cat.episodes[req.episodeId].status != Completed
            && (req.taskId != "" ==> HasTask(cat.episodes[req.episodeId], req.taskId))
            && ParseBetType(req.betType).Some? && IsRanked(ParseBetType(req.betType).value)
            && !InSeason(cat, cat.episodes[req.episodeId].seasonId, req.betTarget)
            ==> DecidePlacement(balances, cat, req) == Err(InvalidContestant)
  {
    ValidationPrecedence(req.amount, if req.userId in balances then balances[req.userId] else 0);
  }

  /**
   * A request is accepted exactly when every check passes; the bet is then
   * priced by rank for winner bets and at 2.0 otherwise, with the payout
   * the floor of stake times odds, never below the stake.
   */
  lemma AcceptedExactly(balances: map<string, int>, cat: Catalog, req: PlaceRequest)
    ensures DecidePlacement(balances, cat, req).Ok? <==>
      && HasRequiredFields(req)
      && req.userId in balances
      && MinBet <= req.amount <= MaxBet && req.amount <= balances[req.userId]
      && req.episodeId in cat.episodes
      && cat.episodes[req.episodeId].status != Completed
      && (req.taskId != "" ==> HasTask(cat.episodes[req.episodeId], req.taskId))
      && ParseBetType(req.betType).Some?
      && (IsRanked(ParseBetType(req.betType).value) ==>
            InSeason(cat, cat.episodes[req.episodeId].seasonId, req.betTarget))
    ensures DecidePlacement(balances, cat, req).Ok? ==>
      var t := DecidePlacement(balances, cat, req).value;
      var ep := cat.episodes[req.episodeId];
      && Some(t.betType) == ParseBetType(req.betType)
      && t.oddsHalves == (if IsRanked(t.betType) then WinnerOdds(SeasonContestants(cat, ep.seasonId), req.betTarget)
                          else BinaryBetOdds)
      && t.oddsHalves in OddsValues
      && t.potentialPayout == Payout(req.amount, t.oddsHalves)
      && req.amount <= t.potentialPayout
  {
    if DecidePlacement(balances, cat, req).Ok? {
      var t := DecidePlacement(balances, cat, req).value;
      PayoutBounds(req.amount, t.oddsHalves);
    }
  }

  /** Bets that do not name a contestant get constant odds of 2.0; unknown types are refused. */
  lemma BinaryAndUnknownTypes(cat: Catalog, ep: Episode, betType: string, betTarget: string)
    ensures betType in {"exact_score", "disqualification", "special_outcome"}
            ==> (PriceBet(cat, ep, betType, betTarget).Ok?
                 && PriceBet(cat, ep, betType, betTarget).value.1 == BinaryBetOdds)
    ensures ParseBetType(betType).None? ==> PriceBet(cat, ep, betType, betTarget) == Err(InvalidBetType)
    ensures ParseBetType(betType).Some? && IsRanked(ParseBetType(betType).value)
            && !InSeason(cat, ep.seasonId, betTarget)
            ==> PriceBet(cat, ep, betType, betTarget) == Err(InvalidContestant)
  {
  }
}
