/**
 * The ledger store's invariant and the effect of each of its writes, stated
 * on plain values: the store's five tables (accounts in registration order,
 * balances, bets, picks, ledger lines). Each write lemma takes the tables
 * before and after the write and shows that the invariant survives and that
 * every balance moved by exactly the ledger lines appended.
 */
module StoreState {
  import opened Wrappers
  import opened Entities
  import opened Settlement
  import P = Placement
  import PR = PickRules

  /** Each balance is the starting balance plus the player's ledger amounts. */
  ghost predicate LedgerBacked(balances: map<string, int>, ledger: seq<Entry>) {
    forall u :: u in balances ==> balances[u] == StartingBalance + LedgerSum(ledger, u)
  }

  /**
   * The store's invariant: accounts are the registered ids, once each; the
   * ledger backs every balance and no balance is negative; every ledger
   * line, bet and pick belongs to an account; bets are well formed; and a
   * player holds at most one active pick per season.
   */
  ghost predicate Consistent(users: seq<string>, balances: map<string, int>, bets: seq<Bet>,
                             picks: seq<Pick>, ledger: seq<Entry>) {
    && (forall u :: u in balances <==> u in users)
    && (forall i, j :: 0 <= i < j < |users| ==> users[i] != users[j])
    && LedgerBacked(balances, ledger)
    && (forall u :: u in balances ==> balances[u] >= 0)
    && (forall k :: 0 <= k < |ledger| ==> ledger[k].userId in balances)
    && (forall k :: 0 <= k < |bets| ==> bets[k].userId in balances && WellFormedBet(bets[k]))
    && (forall k :: 0 <= k < |picks| ==> picks[k].userId in balances)
    && AtMostOneActive(picks)
  }

  /**
   * Conservation from (b0, l0) to (b1, l1): the ledger only grew, the
   * accounts are the same, and every balance moved by exactly the sum of
   * the lines appended for that player.
   */
  ghost predicate Conserves(b0: map<string, int>, l0: seq<Entry>, b1: map<string, int>, l1: seq<Entry>) {
    && |l0| <= |l1| && l1[..|l0|] == l0
    && b1.Keys == b0.Keys
    && forall u :: u in b1 ==> b1[u] == b0[u] + LedgerSum(l1[|l0|..], u)
  }

  /** Posting a line: the balance it names moves by its amount. */
  function Post(balances: map<string, int>, e: Entry): map<string, int>
    requires e.userId in balances
  {
    balances[e.userId := balances[e.userId] + e.amount]
  }

  lemma LedgerSumSnoc(es: seq<Entry>, e: Entry, u: string)
    ensures LedgerSum(es + [e], u) == LedgerSum(es, u) + (if e.userId == u then e.amount else 0)
  {
    assert (es + [e])[..|es|] == es;
  }

  /** A write that appends nothing and moves nothing conserves trivially. */
  lemma NothingMoved(b: map<string, int>, l: seq<Entry>)
    ensures Conserves(b, l, b, l)
  {
    assert l[..|l|] == l;
    assert l[|l|..] == [];
  }

  /**
   * Conservation follows from the ledger invariant: when both states are
   * backed by their ledgers, the accounts are the same and the ledger only
   * grew, every balance moved by exactly the lines appended for it.
   */
  lemma BalanceMovesWithLedger(b0: map<string, int>, l0: seq<Entry>, b1: map<string, int>, l1: seq<Entry>)
    requires |l0| <= |l1| && l1[..|l0|] == l0 && b1.Keys == b0.Keys
    requires LedgerBacked(b0, l0) && LedgerBacked(b1, l1)
    ensures Conserves(b0, l0, b1, l1)
  {
    var tail := l1[|l0|..];
    assert l1 == l0 + tail;
    forall u | u in b1 ensures b1[u] == b0[u] + LedgerSum(tail, u) {
      LedgerSumAppend(l0, tail, u);
    }
  }

  /**
   * Posting one line for an account keeps the invariant as long as the
   * balance stays non-negative, and conserves.
   */
  lemma PostKeeps(users: seq<string>, balances: map<string, int>, bets: seq<Bet>, picks: seq<Pick>,
                  ledger: seq<Entry>, e: Entry)
    requires Consistent(users, balances, bets, picks, ledger)
    requires e.userId in balances && balances[e.userId] + e.amount >= 0
    ensures Consistent(users, Post(balances, e), bets, picks, ledger + [e])
    ensures Conserves(balances, ledger, Post(balances, e), ledger + [e])
  {
    var b1 := Post(balances, e);
    var l1 := ledger + [e];
    forall u | u in b1 ensures b1[u] == StartingBalance + LedgerSum(l1, u) {
      LedgerSumSnoc(ledger, e, u);
    }
    assert l1[..|ledger|] == ledger;
    assert l1[|ledger|..] == [] + [e];
    forall u | u in b1 ensures b1[u] == balances[u] + LedgerSum(l1[|ledger|..], u) {
      LedgerSumSnoc([], e, u);
    }
  }

  /**
   * Opening an account for a new id keeps the invariant: the id is
   * registered once, at the starting balance, with no ledger line.
   */
  lemma OpenKeeps(users: seq<string>, balances: map<string, int>, bets: seq<Bet>, picks: seq<Pick>,
                  ledger: seq<Entry>, u: string, users1: seq<string>, b1: map<string, int>)
    requires Consistent(users, balances, bets, picks, ledger)
    requires u !in balances
    requires users1 == users + [u] && b1 == balances[u := StartingBalance]
    ensures Consistent(users1, b1, bets, picks, ledger)
  {
    LedgerSumOfStranger(ledger, u);
    forall i, j | 0 <= i < j < |users1| ensures users1[i] != users1[j] {
      if j == |users| {
        assert users[i] in users;
      }
    }
  }

  /**
   * Every request the placement checks accept can be recorded: the bettor
   * has an account, the stake is covered by the balance, and the pending bet
   * priced for it is well formed.
   */
  lemma AcceptedIsRecordable(balances: map<string, int>, cat: Catalog, req: P.PlaceRequest)
    requires P.DecidePlacement(balances, cat, req).Ok?
    ensures req.userId in balances && req.amount <= balances[req.userId]
    ensures WellFormedBet(P.NewBet(req, P.DecidePlacement(balances, cat, req).value))
  {
    P.AcceptedExactly(balances, cat, req);
  }

  /**
   * Recording a placement keeps the invariant when the stake is covered and
   * the bet well formed: the bet_placed line backs the debit, and the
   * balances move by exactly that line.
   */
  lemma PlacementKeeps(users: seq<string>, balances: map<string, int>, bets: seq<Bet>, picks: seq<Pick>,
                       ledger: seq<Entry>, req: P.PlaceRequest, t: P.Ticket,
                       b1: map<string, int>, bets1: seq<Bet>, l1: seq<Entry>)
    requires Consistent(users, balances, bets, picks, ledger)
    requires req.userId in balances && req.amount <= balances[req.userId]
    requires WellFormedBet(P.NewBet(req, t))
    requires b1 == balances[req.userId := balances[req.userId] - req.amount]
    requires bets1 == bets + [P.NewBet(req, t)]
    requires l1 == ledger + [P.PlacementEntry(req)]
    ensures Consistent(users, b1, bets1, picks, l1)
    ensures Conserves(balances, ledger, b1, l1)
  {
    var e := P.PlacementEntry(req);
    PostKeeps(users, balances, bets, picks, ledger, e);
    assert Post(balances, e) == b1;
    var b := P.NewBet(req, t);
    forall k | 0 <= k < |bets1| ensures bets1[k].userId in b1 && WellFormedBet(bets1[k]) {
      if k < |bets| {
        assert bets1[k] == bets[k];
      }
    }
  }

  /**
   * Settling a pending bet keeps the invariant: the settled bet is well
   * formed, the line written is a non-negative credit, and it backs the
   * balance change.
   */
  lemma SettlementKeeps(users: seq<string>, balances: map<string, int>, bets: seq<Bet>, picks: seq<Pick>,
                        ledger: seq<Entry>, i: nat, won: bool,
                        b1: map<string, int>, bets1: seq<Bet>, l1: seq<Entry>)
    requires Consistent(users, balances, bets, picks, ledger)
    requires i < |bets| && bets[i].status == Pending
    requires bets1 == bets[i := Settle(bets[i], won)]
    requires l1 == ledger + [SettlementEntry(bets[i], won)]
    requires b1 == balances[bets[i].userId := balances[bets[i].userId] + SettlementEntry(bets[i], won).amount]
    ensures Consistent(users, b1, bets1, picks, l1)
    ensures Conserves(balances, ledger, b1, l1)
  {
    var e := SettlementEntry(bets[i], won);
    SettleWellFormed(bets[i], won);
    PostKeeps(users, balances, bets, picks, ledger, e);
    assert Post(balances, e) == b1;
    forall k | 0 <= k < |bets1| ensures bets1[k].userId in b1 && WellFormedBet(bets1[k]) {
      if k != i {
        assert bets1[k] == bets[k];
      }
    }
  }

  /**
   * Recording a first pick keeps the invariant when the player has an
   * account and holds no active pick for that season.
   */
  lemma PickKeeps(users: seq<string>, balances: map<string, int>, bets: seq<Bet>, picks: seq<Pick>,
                  ledger: seq<Entry>, p: Pick, picks1: seq<Pick>)
    requires Consistent(users, balances, bets, picks, ledger)
    requires p.userId in balances
    requires forall j :: 0 <= j < |picks| ==> !PR.ActiveFor(picks[j], p.userId, p.seasonId)
    requires picks1 == picks + [p]
    ensures Consistent(users, balances, bets, picks1, ledger)
  {
    PR.AppendKeepsOneActive(picks, p);
    forall k | 0 <= k < |picks1| ensures picks1[k].userId in balances {
      if k < |picks| {
        assert picks1[k] == picks[k];
      }
    }
  }

  /**
   * Every switch the checks accept can be recorded: the player has an
   * account and can pay the fee, the plan retires the player's active pick
   * for the season, and the new pick is active for the same player and
   * season.
   */
  lemma SwitchIsRecordable(balances: map<string, int>, cat: Catalog, picks: seq<Pick>, req: PR.SwitchRequest)
    requires PR.DecideSwitch(balances, cat, picks, req).Ok?
    ensures req.userId in balances && balances[req.userId] >= PR.SwitchCost
    ensures var plan := PR.DecideSwitch(balances, cat, picks, req).value;
      && plan.current < |picks| && PR.ActiveFor(picks[plan.current], req.userId, req.seasonId)
      && PR.ActiveFor(plan.newPick, req.userId, req.seasonId)
  {
    PR.SwitchAccepted(balances, cat, picks, req);
  }

  /**
   * A switch keeps the invariant: the fee is covered by the balance, the
   * contestant_switch line backs the debit, and retiring the player's active
   * pick before appending the new one keeps one active pick per season.
   */
  lemma SwitchKeeps(users: seq<string>, balances: map<string, int>, bets: seq<Bet>, picks: seq<Pick>,
                    ledger: seq<Entry>, req: PR.SwitchRequest, plan: PR.SwitchPlan,
                    b1: map<string, int>, picks1: seq<Pick>, l1: seq<Entry>)
    requires Consistent(users, balances, bets, picks, ledger)
    requires req.userId in balances && balances[req.userId] >= PR.SwitchCost
    requires plan.current < |picks| && PR.ActiveFor(picks[plan.current], req.userId, req.seasonId)
    requires PR.ActiveFor(plan.newPick, req.userId, req.seasonId)
    requires b1 == balances[req.userId := balances[req.userId] - PR.SwitchCost]
    requires picks1 == PR.SwitchedPicks(picks, plan)
    requires l1 == ledger + [PR.SwitchEntry(req)]
    ensures Consistent(users, b1, bets, picks1, l1)
    ensures Conserves(balances, ledger, b1, l1)
  {
    var e := PR.SwitchEntry(req);
    PostKeeps(users, balances, bets, picks, ledger, e);
    assert Post(balances, e) == b1;
    PR.SwitchedKeepsOneActive(picks, plan, req.userId, req.seasonId);
    forall k | 0 <= k < |picks1| ensures picks1[k].userId in b1 {
      if k < |picks| {
        assert picks1[k].userId == picks[k].userId;
      }
    }
  }
}
