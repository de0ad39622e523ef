/**
 * Season picks: backing one contestant for a season, switching the backing
 * for a fee, and listing a player's picks. The writes of the two workflows
 * are Store.CreatePick and Store.SwitchPick; this module decides them.
 */
module PickRules {
  import opened Wrappers
  import opened Odds
  import opened Entities

  /** The fee for switching contestant mid-season. */
  const SwitchCost: int := 100

  datatype PickError =
    | InvalidRequestData
    | AlreadyPicked
    | CreateFailed
    | MissingFields
    | UserNotFound
    | CannotAffordSwitch
    | NoActivePick
    | SameContestant
    | ContestantNotInSeason
    | SeasonNotActive
    | MissingUserId
  {
    /** The HTTP status the handlers answer with. */
    function Status(): int {
      match this
      case CreateFailed => 500
      case UserNotFound => 404
      case NoActivePick => 404
      case ContestantNotInSeason => 404
      case _ => 400
    }
  }

  predicate ActiveFor(p: Pick, userId: string, seasonId: string) {
    p.userId == userId && p.seasonId == seasonId && p.active
  }

  /** The first active pick of the user for the season, in creation order. */
  function ActivePickIndex(picks: seq<Pick>, userId: string, seasonId: string): (r: Option<nat>)
    ensures r.Some? ==> r.value < |picks| && ActiveFor(picks[r.value], userId, seasonId)
                        && forall j :: 0 <= j < r.value ==> !ActiveFor(picks[j], userId, seasonId)
    ensures r.None? ==> forall j :: 0 <= j < |picks| ==> !ActiveFor(picks[j], userId, seasonId)
  {
    if |picks| == 0 then None
    else if ActiveFor(picks[0], userId, seasonId) then Some(0)
    else
      match ActivePickIndex(picks[1..], userId, seasonId)
      case None => None
      case Some(k) => Some(k + 1)
  }

  /** Whether some season of the catalog lists the contestant. */
  predicate ContestantExists(cat: Catalog, contestantId: string) {
    exists s :: s in cat.seasons && InSeason(cat, s, contestantId)
  }

  // ---------------------------------------------------------------------
  // First pick

  /** A first-pick request after schema parsing: None where a field is not a string. */
  datatype CreatePickRequest = CreatePickRequest(userId: Option<string>, seasonId: Option<string>, contestantId: Option<string>)

  /**
   * The first pick is free. A request that does not parse is refused, as is
   * a second active pick; a row the store cannot link to its user, season or
   * contestant fails the insert.
   */
  function DecideCreatePick(balances: map<string, int>, cat: Catalog, picks: seq<Pick>, req: CreatePickRequest): Result<Pick, PickError> {
    if req.userId.None? || req.seasonId.None? || req.contestantId.None? then Err(InvalidRequestData)
    else
      var u, s, c := req.userId.value, req.seasonId.value, req.contestantId.value;
      if ActivePickIndex(picks, u, s).Some? then Err(AlreadyPicked)
      else if u !in balances || s !in cat.seasons || !ContestantExists(cat, c) then Err(CreateFailed)
      else Ok(Pick(u, s, c, true, 0))
  }

  /** A first pick is created exactly when the request parses, no pick is active and every reference resolves. */
  lemma CreatePickDecision(balances: map<string, int>, cat: Catalog, picks: seq<Pick>, req: CreatePickRequest)
    ensures DecideCreatePick(balances, cat, picks, req).Ok? <==>
      && req.userId.Some? && req.seasonId.Some? && req.contestantId.Some?
      && (forall j :: 0 <= j < |picks| ==> !ActiveFor(picks[j], req.userId.value, req.seasonId.value))
      && req.userId.value in balances && req.seasonId.value in cat.seasons
      && ContestantExists(cat, req.contestantId.value)
    ensures DecideCreatePick(balances, cat, picks, req).Ok? ==>
      DecideCreatePick(balances, cat, picks, req).value
        == Pick(req.userId.value, req.seasonId.value, req.contestantId.value, true, 0)
    ensures req.userId.Some? && req.seasonId.Some? && req.contestantId.Some?
            && (exists j :: 0 <= j < |picks| && ActiveFor(picks[j], req.userId.value, req.seasonId.value))
            ==> DecideCreatePick(balances, cat, picks, req) == Err(AlreadyPicked)
  {
  }

  /**
   * Appending an active pick for a player and season that holds none keeps
   * at most one active pick per player and season.
   */
  lemma AppendKeepsOneActive(picks: seq<Pick>, p: Pick)
    requires AtMostOneActive(picks)
    requires forall j :: 0 <= j < |picks| ==> !ActiveFor(picks[j], p.userId, p.seasonId)
    ensures AtMostOneActive(picks + [p])
  {
    var ps := picks + [p];
    forall i, j | 0 <= i < j < |ps| && ps[i].active && ps[j].active
      ensures ps[i].userId != ps[j].userId || ps[i].seasonId != ps[j].seasonId
    {
      if j == |picks| {
        assert !ActiveFor(picks[i], p.userId, p.seasonId);
      }
    }
  }

  /** Adding a first pick keeps at most one active pick per player and season. */
  lemma CreateKeepsOneActive(balances: map<string, int>, cat: Catalog, picks: seq<Pick>, req: CreatePickRequest)
    requires AtMostOneActive(picks)
    requires DecideCreatePick(balances, cat, picks, req).Ok?
    ensures AtMostOneActive(picks + [DecideCreatePick(balances, cat, picks, req).value])
  {
    CreatePickDecision(balances, cat, picks, req);
    AppendKeepsOneActive(picks, DecideCreatePick(balances, cat, picks, req).value);
  }

  // ---------------------------------------------------------------------
  // Switching contestant

  /** A switch request; an absent or empty field is "". */
  datatype SwitchRequest = SwitchRequest(userId: string, seasonId: string, newContestantId: string)

  /** What an accepted switch does: retire the pick at `current`, add `newPick`. */
  datatype SwitchPlan = SwitchPlan(current: nat, newPick: Pick)

  /** The checks of a switch, in the handler's order. */
  function DecideSwitch(balances: map<string, int>, cat: Catalog, picks: seq<Pick>, req: SwitchRequest): (r: Result<SwitchPlan, PickError>)
    ensures r.Ok? ==> r.value.current < |picks|
  {
    if req.userId == "" || req.seasonId == "" || req.newContestantId == "" then Err(MissingFields)
    else if req.userId !in balances then Err(UserNotFound)
    else if balances[req.userId] < SwitchCost then Err(CannotAffordSwitch)
    else
      match ActivePickIndex(picks, req.userId, req.seasonId)
      case None => Err(NoActivePick)
      case Some(k) =>
        if picks[k].contestantId == req.newContestantId then Err(SameContestant)
        else if !InSeason(cat, req.seasonId, req.newContestantId) then Err(ContestantNotInSeason)
        else if req.seasonId !in cat.seasons || cat.seasons[req.seasonId].status != SeasonActive then Err(SeasonNotActive)
        else Ok(SwitchPlan(k, Pick(req.userId, req.seasonId, req.newContestantId, true, SwitchCost)))
  }

  /** The picks after a switch: the old one inactive, the new one appended. */
  function SwitchedPicks(picks: seq<Pick>, plan: SwitchPlan): seq<Pick>
    requires plan.current < |picks|
  {
    picks[plan.current := picks[plan.current].(active := false)] + [plan.newPick]
  }

  /** The ledger line of a switch: the fee, debited, naming the new contestant. */
  function SwitchEntry(req: SwitchRequest): Entry {
    Entry(req.userId, -SwitchCost, ContestantSwitch, None, Some(req.newContestantId))
  }

  /**
   * Refusals come in a fixed order: missing field, unknown user, balance
   * under the fee, no active pick, same contestant, contestant outside the
   * season, season not active.
   */
  lemma SwitchRejectionOrder(balances: map<string, int>, cat: Catalog, picks: seq<Pick>, req: SwitchRequest)
    ensures (req.userId == "" || req.seasonId == "" || req.newContestantId == "")
            ==> DecideSwitch(balances, cat, picks, req) == Err(MissingFields)
    ensures req.userId != "" && req.seasonId != "" && req.newContestantId != "" && req.userId !in balances
            ==> DecideSwitch(balances, cat, picks, req) == Err(UserNotFound)
    ensures req.userId != "" && req.seasonId != "" && req.newContestantId != "" && req.userId in balances
            && balances[req.userId] < SwitchCost
            ==> DecideSwitch(balances, cat, picks, req) == Err(CannotAffordSwitch)
    ensures req.userId != "" && req.seasonId != "" && req.newContestantId != "" && req.userId in balances
            && balances[req.userId] >= SwitchCost
            && (forall j :: 0 <= j < |picks| ==> !ActiveFor(picks[j], req.userId, req.seasonId))
            ==> DecideSwitch(balances, cat, picks, req) == Err(NoActivePick)
    ensures req.userId != "" && req.seasonId != "" && req.newContestantId != "" && req.userId in balances
            && balances[req.userId] >= SwitchCost
            && ActivePickIndex(picks, req.userId, req.seasonId).Some?
            && picks[ActivePickIndex(picks, req.userId, req.seasonId).value].contestantId == req.newContestantId
            ==> DecideSwitch(balances, cat, picks, req) == Err(SameContestant)
    ensures req.userId != "" && req.seasonId != "" && req.newContestantId != "" && req.userId in balances
            && balances[req.userId] >= SwitchCost
            && ActivePickIndex(picks, req.userId, req.seasonId).Some?
            && picks[ActivePickIndex(picks, req.userId, req.seasonId).value].contestantId != req.newContestantId
            && !InSeason(cat, req.seasonId, req.newContestantId)
            ==> DecideSwitch(balances, cat, picks, req) == Err(ContestantNotInSeason)
    ensures req.userId != "" && req.seasonId != "" && req.newContestantId != "" && req.userId in balances
            && balances[req.userId] >= SwitchCost
            && ActivePickIndex(picks, req.userId, req.seasonId).Some?
            && picks[ActivePickIndex(picks, req.userId, req.seasonId).value].contestantId != req.newContestantId
            && InSeason(cat, req.seasonId, req.newContestantId)
            && (req.seasonId !in cat.seasons || cat.seasons[req.seasonId].status != SeasonActive)
            ==> DecideSwitch(balances, cat, picks, req) == Err(SeasonNotActive)
  {
  }

  /**
   * A switch goes through exactly when the player can pay the fee, has an
   * active pick on another contestant, the new contestant is in the season
   * and the season is active; the new pick then costs the fee.
   */
  lemma SwitchAccepted(balances: map<string, int>, cat: Catalog, picks: seq<Pick>, req: SwitchRequest)
    ensures DecideSwitch(balances, cat, picks, req).Ok? <==>
      && req.userId != "" && req.seasonId != "" && req.newContestantId != ""
      && req.userId in balances && balances[req.userId] >= SwitchCost
      && ActivePickIndex(picks, req.userId, req.seasonId).Some?
      && picks[ActivePickIndex(picks, req.userId, req.seasonId).value].contestantId != req.newContestantId
      && InSeason(cat, req.seasonId, req.newContestantId)
      && req.seasonId in cat.seasons && cat.seasons[req.seasonId].status == SeasonActive
    ensures DecideSwitch(balances, cat, picks, req).Ok? ==>
      var plan := DecideSwitch(balances, cat, picks, req).value;
      && plan.current < |picks| && ActiveFor(picks[plan.current], req.userId, req.seasonId)
      && plan.newPick == Pick(req.userId, req.seasonId, req.newContestantId, true, SwitchCost)
  {
  }

  /**
   * Retiring the player's active pick for a season and appending a new
   * active one leaves exactly one active pick for that player and season,
   * the new one, and every player still holds at most one per season.
   */
  lemma SwitchedKeepsOneActive(picks: seq<Pick>, plan: SwitchPlan, userId: string, seasonId: string)
    requires AtMostOneActive(picks) && plan.current < |picks|
    requires ActiveFor(picks[plan.current], userId, seasonId) && ActiveFor(plan.newPick, userId, seasonId)
    ensures var ps := SwitchedPicks(picks, plan);
      && AtMostOneActive(ps)
      && ActiveFor(ps[|ps| - 1], userId, seasonId)
      && forall j :: 0 <= j < |ps| - 1 ==> !ActiveFor(ps[j], userId, seasonId)
  {
    var k := plan.current;
    var ps := SwitchedPicks(picks, plan);
    forall j | 0 <= j < |picks| && j != k ensures !ActiveFor(picks[j], userId, seasonId) {
      ActiveUnique(picks, userId, seasonId, j, k);
    }
    assert forall j :: 0 <= j < |ps| - 1 ==> !ActiveFor(ps[j], userId, seasonId);
  }

  /**
   * After an accepted switch the player holds exactly one active pick for
   * the season, the new one, and every player still holds at most one per
   * season.
   */
  lemma SwitchKeepsOneActive(balances: map<string, int>, cat: Catalog, picks: seq<Pick>, req: SwitchRequest)
    requires AtMostOneActive(picks)
    requires DecideSwitch(balances, cat, picks, req).Ok?
    ensures var ps := SwitchedPicks(picks, DecideSwitch(balances, cat, picks, req).value);
      && AtMostOneActive(ps)
      && ActiveFor(ps[|ps| - 1], req.userId, req.seasonId)
      && forall j :: 0 <= j < |ps| - 1 ==> !ActiveFor(ps[j], req.userId, req.seasonId)
  {
    SwitchAccepted(balances, cat, picks, req);
    SwitchedKeepsOneActive(picks, DecideSwitch(balances, cat, picks, req).value, req.userId, req.seasonId);
  }

  /** Under the one-active-pick rule, two active picks of a player for a season are the same pick. */
  lemma ActiveUnique(picks: seq<Pick>, userId: string, seasonId: string, a: nat, b: nat)
    requires AtMostOneActive(picks) && a < |picks| && b < |picks|
    ensures ActiveFor(picks[a], userId, seasonId) && ActiveFor(picks[b], userId, seasonId) ==> a == b
  {
  }

  // ---------------------------------------------------------------------
  // Listing picks

  predicate Listed(p: Pick, userId: string, seasonId: string) {
    p.userId == userId && (seasonId == "" || (p.seasonId == seasonId && p.active))
  }

  /** Positions of the listed picks, newest first. */
  function ListedIndices(picks: seq<Pick>, userId: string, seasonId: string): (r: seq<nat>)
    ensures forall k :: 0 <= k < |r| ==> r[k] < |picks| && Listed(picks[r[k]], userId, seasonId)
    ensures forall k, l :: 0 <= k < l < |r| ==> r[k] > r[l]
    ensures forall i :: 0 <= i < |picks| && Listed(picks[i], userId, seasonId) ==> i in r
  {
    if |picks| == 0 then []
    else
      var n := |picks| - 1;
      (if Listed(picks[n], userId, seasonId) then [n] else []) + ListedIndices(picks[..n], userId, seasonId)
  }

  /**
   * A player's picks, newest first; with a season, only the active pick for
   * it. A request without a user is refused.
   */
  function PicksQuery(picks: seq<Pick>, userId: string, seasonId: string): (r: Result<seq<nat>, PickError>)
    ensures userId == "" <==> r == Err(MissingUserId)
    ensures r.Ok? ==> forall k :: 0 <= k < |r.value| ==> r.value[k] < |picks| && Listed(picks[r.value[k]], userId, seasonId)
    ensures r.Ok? ==> forall k, l :: 0 <= k < l < |r.value| ==> r.value[k] > r.value[l]
    ensures r.Ok? ==> forall i :: 0 <= i < |picks| && Listed(picks[i], userId, seasonId) ==> i in r.value
  {
    if userId == "" then Err(MissingUserId) else Ok(ListedIndices(picks, userId, seasonId))
  }

  /** With a season named, the listing holds at most one pick. */
  lemma SeasonQueryAtMostOne(picks: seq<Pick>, userId: string, seasonId: string)
    requires AtMostOneActive(picks)
    requires userId != "" && seasonId != ""
    ensures |PicksQuery(picks, userId, seasonId).value| <= 1
  {
    var r := PicksQuery(picks, userId, seasonId).value;
    // two listed picks would be two active picks for the same season
    NewestFirstPair(r);
  }

  lemma NewestFirstPair(r: seq<nat>)
    requires forall k, l :: 0 <= k < l < |r| ==> r[k] > r[l]
    ensures |r| >= 2 ==> r[0] > r[1]
  {
  }

  /** With a season named, the listing is the player's active pick for it, if there is one. */
  lemma SeasonQueryIsActivePick(picks: seq<Pick>, userId: string, seasonId: string)
    requires AtMostOneActive(picks)
    requires userId != "" && seasonId != ""
    ensures match ActivePickIndex(picks, userId, seasonId)
            case None => PicksQuery(picks, userId, seasonId).value == []
            case Some(k) => PicksQuery(picks, userId, seasonId).value == [k]
  {
    var r := PicksQuery(picks, userId, seasonId).value;
    SeasonQueryAtMostOne(picks, userId, seasonId);
    assert |r| == 0 || ActiveFor(picks[r[0]], userId, seasonId);
    match ActivePickIndex(picks, userId, seasonId)
    case None =>
    case Some(k) =>
      assert k in r;
  }
}
