/**
 * The ledger store: accounts and their balances, bets, season picks and the
 * append-only currency ledger. Each transaction method is one atomic write
 * (a placement, the settlement of one bet, a first pick, a switch); each
 * handler runs its checks and then its transaction (the resolution pass
 * settles bet after bet). Every method keeps the invariant of StoreState:
 * each balance is the starting balance plus the sum of the player's ledger
 * amounts, and never negative.
 */
module Store {
  import opened Wrappers
  import opened Odds
  import opened Entities
  import opened Settlement
  import P = Placement
  import PR = PickRules
  import LB = Leaderboard
  import opened StoreState

  /** What a successful placement answers. */
  datatype PlaceReceipt = PlaceReceipt(betId: nat, ticket: P.Ticket, amount: int, newBalance: int)

  /** What a successful switch answers. */
  datatype SwitchReceipt = SwitchReceipt(cost: int, newBalance: int, newPickId: nat)

  class Store {
    /** Account ids in registration order. */
    var users: seq<string>
    var balances: map<string, int>
    /** Bets by id. */
    var bets: seq<Bet>
    /** Picks by id, in creation order. */
    var picks: seq<Pick>
    var ledger: seq<Entry>

    ghost predicate Valid()
      reads this
    {
      Consistent(users, balances, bets, picks, ledger)
    }

    /** Every balance moved by exactly the ledger lines appended since (b0, l0). */
    ghost predicate Conserved(b0: map<string, int>, l0: seq<Entry>)
      reads this
    {
      Conserves(b0, l0, balances, ledger)
    }

    constructor ()
      ensures Valid()
      ensures users == [] && balances == map[] && bets == [] && picks == [] && ledger == []
    {
      users := [];
      balances := map[];
      bets := [];
      picks := [];
      ledger := [];
    }

    /** Opens an account with the starting balance; an existing id is left as it is. */
    method OpenAccount(u: string) returns (created: bool)
      requires Valid()
      modifies this
      ensures Valid()
      ensures created <==> u !in old(balances)
      ensures created ==> users == old(users) + [u] && balances == old(balances)[u := StartingBalance]
      ensures !created ==> users == old(users) && balances == old(balances)
      ensures bets == old(bets) && picks == old(picks) && ledger == old(ledger)
    {
      if u in balances {
        return false;
      }
      ghost var users0, b0 := users, balances;
      users := users + [u];
      balances := balances[u := StartingBalance];
      OpenKeeps(users0, b0, bets, picks, ledger, u, users, balances);
      created := true;
    }

    /**
     * The placement's transaction: inserts the pending bet, debits the stake
     * and appends one bet_placed line of minus the stake, all at once.
     */
    method RecordPlacement(req: P.PlaceRequest, t: P.Ticket) returns (id: nat)
      requires Valid()
      requires req.userId in balances && req.amount <= balances[req.userId]
      requires WellFormedBet(P.NewBet(req, t))
      modifies this
      ensures Valid()
      ensures Conserved(old(balances), old(ledger))
      ensures users == old(users) && picks == old(picks)
      ensures id == |old(bets)|
      ensures bets == old(bets) + [P.NewBet(req, t)]
      ensures balances == old(balances)[req.userId := old(balances)[req.userId] - req.amount]
      ensures ledger == old(ledger) + [P.PlacementEntry(req)]
    {
      ghost var b0, bets0, l0 := balances, bets, ledger;
      id := |bets|;
      bets := bets + [P.NewBet(req, t)];
      balances := balances[req.userId := balances[req.userId] - req.amount];
      ledger := ledger + [P.PlacementEntry(req)];
      PlacementKeeps(users, b0, bets0, picks, l0, req, t, balances, bets, ledger);
    }

    /**
     * Places a bet. A request the checks refuse changes nothing; an
     * accepted one is recorded by the transaction above and answered with
     * the new bet's id, its ticket and the balance after the debit.
     */
    method PlaceBet(cat: Catalog, req: P.PlaceRequest) returns (r: Result<PlaceReceipt, P.PlaceError>)
      requires Valid()
      modifies this
      ensures Valid()
      ensures users == old(users) && picks == old(picks)
      ensures Conserved(old(balances), old(ledger))
      ensures P.DecidePlacement(old(balances), cat, req).Err? ==>
        && r == Err(P.DecidePlacement(old(balances), cat, req).error)
        && bets == old(bets) && balances == old(balances) && ledger == old(ledger)
      ensures P.DecidePlacement(old(balances), cat, req).Ok? ==>
        var t := P.DecidePlacement(old(balances), cat, req).value;
        && bets == old(bets) + [P.NewBet(req, t)]
        && balances == old(balances)[req.userId := old(balances)[req.userId] - req.amount]
        && ledger == old(ledger) + [P.PlacementEntry(req)]
        && r == Ok(PlaceReceipt(|old(bets)|, t, req.amount, old(balances)[req.userId] - req.amount))
    {
      var decision := P.DecidePlacement(balances, cat, req);
      if decision.Err? {
        NothingMoved(balances, ledger);
        return Err(decision.error);
      }
      var t := decision.value;
      AcceptedIsRecordable(balances, cat, req);
      var oldBalance := balances[req.userId];
      var id := RecordPlacement(req, t);
      r := Ok(PlaceReceipt(id, t, req.amount, oldBalance - req.amount));
    }

    /**
     * Settles one pending bet at once: marks it won or lost with its actual
     * payout; a paying win credits the payout with a bet_won line, anything
     * else writes a bet_lost line of 0.
     */
    method SettleBet(i: nat, won: bool)
      requires Valid() && i < |bets| && bets[i].status == Pending
      modifies this
      ensures Valid()
      ensures bets == old(bets)[i := Settle(old(bets)[i], won)]
      ensures ledger == old(ledger) + [SettlementEntry(old(bets)[i], won)]
      ensures balances == old(balances)[old(bets)[i].userId :=
                old(balances)[old(bets)[i].userId] + SettlementEntry(old(bets)[i], won).amount]
      ensures balances.Keys == old(balances).Keys
      ensures users == old(users) && picks == old(picks)
      ensures Conserved(old(balances), old(ledger))
    {
      ghost var b0, bets0, l0 := balances, bets, ledger;
      var bet := bets[i];
      var actualPayout := if won then bet.potentialPayout else 0;
      bets := bets[i := bet.(status := if won then Won else Lost, actualPayout := Some(actualPayout))];
      if won && actualPayout > 0 {
        balances := balances[bet.userId := balances[bet.userId] + actualPayout];
        ledger := ledger + [Entry(bet.userId, actualPayout, BetWon, Some(bet.episodeId), None)];
      } else {
        assert balances == balances[bet.userId := balances[bet.userId] + 0];
        ledger := ledger + [Entry(bet.userId, 0, BetLost, Some(bet.episodeId), None)];
      }
      SettlementKeeps(users, b0, bets0, picks, l0, i, won, balances, bets, ledger);
    }

    /**
     * One turn of the resolution loop: the pending bet is judged on the
     * current task snapshot and settled in its own transaction.
     */
    method ResolveOne(tasks: seq<Task>, i: nat) returns (won: bool, next: seq<Task>, resolution: Resolution)
      requires Valid() && i < |bets| && bets[i].status == Pending
      modifies this
      ensures Valid()
      ensures (won, next) == Judge(tasks, old(bets)[i])
      ensures resolution == Resolution(i, won, if won then old(bets)[i].potentialPayout else 0)
      ensures bets == old(bets)[i := Settle(old(bets)[i], won)]
      ensures ledger == old(ledger) + [SettlementEntry(old(bets)[i], won)]
      ensures balances == old(balances)[old(bets)[i].userId :=
                old(balances)[old(bets)[i].userId] + SettlementEntry(old(bets)[i], won).amount]
      ensures balances.Keys == old(balances).Keys
      ensures users == old(users) && picks == old(picks)
      ensures Conserved(old(balances), old(ledger))
    {
      var bet := bets[i];
      won, next := JudgeBet(tasks, bet);
      SettleBet(i, won);
      resolution := Resolution(i, won, if won then bet.potentialPayout else 0);
    }

    /**
     * The loop of the resolution pass: the selected pending bets, in order,
     * are each judged on the current task snapshot (which a task_winner
     * bet may leave re-sorted) and settled in its own transaction. The
     * answer lists one resolution per bet.
     */
    method SettleSelected(tasks0: seq<Task>, pending: seq<nat>) returns (resolutions: seq<Resolution>)
      requires Valid()
      requires forall k :: 0 <= k < |pending| ==> pending[k] < |bets| && bets[pending[k]].status == Pending
      requires forall a, b :: 0 <= a < b < |pending| ==> pending[a] < pending[b]
      modifies this
      ensures Valid()
      ensures users == old(users) && picks == old(picks)
      ensures Conserved(old(balances), old(ledger))
      ensures var sel := Select(old(bets), pending);
        var verdicts := Replay(tasks0, sel).0;
        && resolutions == Resolutions(pending, sel, verdicts)
        && bets == SettleAll(old(bets), pending, verdicts)
        && ledger == old(ledger) + SettlementEntries(sel, verdicts)
    {
      ghost var bets0, b0, l0 := bets, balances, ledger;
      ghost var verdicts: seq<bool> := [];
      var tasks := tasks0;
      resolutions := [];
      PassStart(tasks0, pending, bets0, l0);
      var k := 0;
      while k < |pending|
        invariant 0 <= k <= |pending|
        invariant Valid()
        invariant users == old(users) && picks == old(picks) && balances.Keys == b0.Keys
        invariant PassAt(tasks0, pending, bets0, l0, k, verdicts, tasks, bets, ledger, resolutions)
      {
        var i := pending[k];
        PassNext(tasks0, pending, bets0, l0, k, verdicts, tasks, bets, ledger, resolutions);
        ghost var bets1, ledger1 := bets, ledger;
        var won, next, resolution := ResolveOne(tasks, i);
        PassStep(tasks0, pending, bets0, l0, k, verdicts, tasks, bets1, ledger1, resolutions, won, next);
        resolutions := resolutions + [resolution];
        tasks := next;
        verdicts := verdicts + [won];
        k := k + 1;
      }
      PassDone(tasks0, pending, bets0, l0, verdicts, tasks, bets, ledger, resolutions);
      BalanceMovesWithLedger(b0, l0, balances, ledger);
    }

    /**
     * The resolution pass. Without an episode id, or for an unknown episode,
     * nothing changes. Otherwise every selected pending bet, in storage
     * order, is judged on the episode's task snapshot and settled; the answer
     * lists one resolution per bet, and no bet of the episode (and task) is
     * left pending.
     */
    method ResolveBets(cat: Catalog, episodeId: string, taskId: string) returns (r: Result<seq<Resolution>, ResolveError>)
      requires Valid()
      modifies this
      ensures Valid()
      ensures users == old(users) && picks == old(picks)
      ensures Conserved(old(balances), old(ledger))
      ensures episodeId == "" ==> r == Err(MissingEpisodeId)
      ensures episodeId != "" && episodeId !in cat.episodes ==> r == Err(EpisodeNotFound)
      ensures r.Err? ==> bets == old(bets) && ledger == old(ledger) && balances == old(balances)
      ensures episodeId != "" && episodeId in cat.episodes ==> r.Ok?
      ensures r.Ok? ==>
        var p := PendingIndices(old(bets), episodeId, taskId);
        var sel := Select(old(bets), p);
        var verdicts := Replay(ScopeTasks(cat.episodes[episodeId], taskId), sel).0;
        && r.value == Resolutions(p, sel, verdicts)
        && bets == SettleAll(old(bets), p, verdicts)
        && ledger == old(ledger) + SettlementEntries(sel, verdicts)
        && PendingIndices(bets, episodeId, taskId) == []
    {
      if episodeId == "" {
        NothingMoved(balances, ledger);
        return Err(MissingEpisodeId);
      }
      if episodeId !in cat.episodes {
        NothingMoved(balances, ledger);
        return Err(EpisodeNotFound);
      }
      var tasks := ScopeTasks(cat.episodes[episodeId], taskId);
      var pending := PendingIndices(bets, episodeId, taskId);
      ghost var verdicts := Replay(tasks, Select(bets, pending)).0;
      SettledNothingPending(bets, episodeId, taskId, verdicts);
      var resolutions := SettleSelected(tasks, pending);
      r := Ok(resolutions);
    }

    /** Records a first pick for free; a refused request changes nothing. */
    method CreatePick(cat: Catalog, req: PR.CreatePickRequest) returns (r: Result<nat, PR.PickError>)
      requires Valid()
      modifies this
      ensures Valid()
      ensures users == old(users) && balances == old(balances) && bets == old(bets) && ledger == old(ledger)
      ensures Conserved(old(balances), old(ledger))
      ensures PR.DecideCreatePick(old(balances), cat, old(picks), req).Err? ==>
        r == Err(PR.DecideCreatePick(old(balances), cat, old(picks), req).error) && picks == old(picks)
      ensures PR.DecideCreatePick(old(balances), cat, old(picks), req).Ok? ==>
        && picks == old(picks) + [PR.DecideCreatePick(old(balances), cat, old(picks), req).value]
        && r == Ok(|old(picks)|)
    {
      NothingMoved(balances, ledger);
      var decision := PR.DecideCreatePick(balances, cat, picks, req);
      if decision.Err? {
        return Err(decision.error);
      }
      PR.CreatePickDecision(balances, cat, picks, req);
      ghost var picks0 := picks;
      r := Ok(|picks|);
      picks := picks + [decision.value];
      PickKeeps(users, balances, bets, picks0, ledger, decision.value, picks);
    }

    /**
     * The switch's transaction, for a plan the checks accepted: retires the
     * player's active pick, appends the new active one, debits the fee and
     * appends one contestant_switch line of minus the fee, all at once.
     */
    method RecordSwitch(cat: Catalog, req: PR.SwitchRequest, plan: PR.SwitchPlan) returns (newPickId: nat)
      requires Valid()
      requires PR.DecideSwitch(balances, cat, picks, req) == Ok(plan)
      modifies this
      ensures Valid()
      ensures Conserved(old(balances), old(ledger))
      ensures users == old(users) && bets == old(bets)
      ensures newPickId == |old(picks)|
      ensures picks == PR.SwitchedPicks(old(picks), plan)
      ensures balances == old(balances)[req.userId := old(balances)[req.userId] - PR.SwitchCost]
      ensures ledger == old(ledger) + [PR.SwitchEntry(req)]
    {
      SwitchIsRecordable(balances, cat, picks, req);
      ghost var b0, picks0, l0 := balances, picks, ledger;
      picks := picks[plan.current := picks[plan.current].(active := false)];
      newPickId := |picks|;
      picks := picks + [plan.newPick];
      balances := balances[req.userId := balances[req.userId] - PR.SwitchCost];
      ledger := ledger + [PR.SwitchEntry(req)];
      SwitchKeeps(users, b0, bets, picks0, l0, req, plan, balances, picks, ledger);
    }

    /**
     * Switches the backed contestant for the fee. A request the checks
     * refuse changes nothing; an accepted one is recorded by the transaction
     * above (PickRules.SwitchKeepsOneActive shows that the player then holds
     * exactly one active pick for the season, the new one).
     */
    method SwitchPick(cat: Catalog, req: PR.SwitchRequest) returns (r: Result<SwitchReceipt, PR.PickError>)
      requires Valid()
      modifies this
      ensures Valid()
      ensures users == old(users) && bets == old(bets)
      ensures Conserved(old(balances), old(ledger))
      ensures PR.DecideSwitch(old(balances), cat, old(picks), req).Err? ==>
        && r == Err(PR.DecideSwitch(old(balances), cat, old(picks), req).error)
        && picks == old(picks) && balances == old(balances) && ledger == old(ledger)
      ensures PR.DecideSwitch(old(balances), cat, old(picks), req).Ok? ==>
        && picks == PR.SwitchedPicks(old(picks), PR.DecideSwitch(old(balances), cat, old(picks), req).value)
        && balances == old(balances)[req.userId := old(balances)[req.userId] - PR.SwitchCost]
        && ledger == old(ledger) + [PR.SwitchEntry(req)]
        && r.Ok? && r.value.cost == PR.SwitchCost && r.value.newPickId == |old(picks)|
        && r.value.newBalance == old(balances)[req.userId] - PR.SwitchCost
    {
      var decision := PR.DecideSwitch(balances, cat, picks, req);
      if decision.Err? {
        NothingMoved(balances, ledger);
        return Err(decision.error);
      }
      var plan := decision.value;
      var currentBalance := balances[req.userId];
      var newPickId := RecordSwitch(cat, req, plan);
      r := Ok(SwitchReceipt(PR.SwitchCost, currentBalance - PR.SwitchCost, newPickId));
    }

    /** The accounts in registration order, as the leaderboard reads them. */
    function Accounts(): (accs: seq<LB.Account>)
      reads this
      requires Valid()
      ensures |accs| == |users|
      ensures forall a :: a in accs ==> a.id in balances && a.balance == balances[a.id]
      ensures forall i :: 0 <= i < |users| ==> accs[i] == LB.Account(users[i], balances[users[i]])
    {
      seq(|users|, i requires 0 <= i < |users| reads this requires Valid() => LB.Account(users[i], balances[users[i]]))
    }

    /** The leaderboard of the current state. */
    function Standings(cat: Catalog, seasonId: string, limit: Option<nat>): seq<LB.Row>
      reads this
      requires Valid()
    {
      LB.Board(Accounts(), picks, ledger, cat, seasonId, limit)
    }

    /**
     * On the leaderboard of a valid store, a player with at most five ledger
     * lines shows earned minus spent equal to the balance change since the
     * account was opened.
     */
    lemma StandingsNet(cat: Catalog, seasonId: string, limit: Option<nat>)
      requires Valid()
      ensures var rows := Standings(cat, seasonId, limit);
        forall i :: 0 <= i < |rows| && |LB.AmountsNewestFirst(ledger, rows[i].userId)| <= LB.RecentCount ==>
          rows[i].totalEarned - rows[i].totalSpent == rows[i].currencyBalance - StartingBalance
    {
      var rows := Standings(cat, seasonId, limit);
      LB.BoardMeaning(Accounts(), picks, ledger, cat, seasonId, limit);
      forall i | 0 <= i < |rows| && |LB.AmountsNewestFirst(ledger, rows[i].userId)| <= LB.RecentCount
        ensures rows[i].totalEarned - rows[i].totalSpent == rows[i].currencyBalance - StartingBalance
      {
        LB.RecentNet(ledger, rows[i].userId);
        assert LB.Account(rows[i].userId, rows[i].currencyBalance) in Accounts();
      }
    }
  }
}
