/**
 * The betting card's client-side mirror of the odds and stake rules: the
 * odds shown for the selected contestant, the payout preview and the
 * affordability test that enables the place-bet button.
 */
module BettingCard {
  import opened Wrappers
  import opened StableSort
  import opened Odds

  /**
   * Odds shown for the selection, in halves: 0 with nothing selected (""),
   * else the rank table applied to the position in the client's own sort.
   * The client has no early return for a missing id; the table's fallback
   * covers it.
   */
  function ClientOdds(cs: seq<Contestant>, selected: string): int {
    if selected == "" then 0 else RankOdds(FindIndex(SortDesc(cs, Points), selected) + 1)
  }

  /** The stake typed in: an unparseable or zero entry is 0. */
  function ClientAmount(parsed: Option<int>): int {
    match parsed
    case None => 0
    case Some(n) => n
  }

  /** The payout preview: floor(amount * odds). */
  function ClientPayout(amount: int, oddsHalves: int): int {
    Payout(amount, oddsHalves)
  }

  /** The button's enabling test. */
  predicate CanAfford(amount: int, userCurrency: int) {
    amount > 0 && amount <= userCurrency && amount >= MinBet && amount <= MaxBet
  }

  /** Whether pressing the button sends a placement request. */
  predicate SendsRequest(selected: string, amount: int, userCurrency: int) {
    selected != "" && CanAfford(amount, userCurrency)
  }

  /** For any selected id, listed or not, the card shows the server's winner odds. */
  lemma ClientOddsMatchServer(cs: seq<Contestant>, id: string)
    requires id != ""
    ensures ClientOdds(cs, id) == WinnerOdds(cs, id)
  {
  }

  /**
   * The card sorts its contestant list in place before pricing each entry;
   * pricing the sorted list gives the same odds as pricing the original.
   */
  lemma RenderSortKeepsOdds(cs: seq<Contestant>, id: string)
    ensures ClientOdds(SortDesc(cs, Points), id) == ClientOdds(cs, id)
  {
    SortIdempotent(cs, Points);
  }

  /** The card's affordability test accepts exactly the stakes the server's validator accepts. */
  lemma CanAffordMatchesServer(amount: int, userCurrency: int)
    ensures CanAfford(amount, userCurrency) <==> ValidateBetAmount(amount, userCurrency).Valid?
  {
  }

  /** With nothing selected the odds and the payout shown are 0. */
  lemma NoSelectionShowsZero(cs: seq<Contestant>, amount: int)
    ensures ClientOdds(cs, "") == 0
    ensures ClientPayout(amount, ClientOdds(cs, "")) == 0
  {
  }

  /** For a selected contestant the preview is the payout the server will store. */
  lemma PreviewMatchesServer(cs: seq<Contestant>, id: string, amount: int)
    requires id != ""
    ensures ClientPayout(amount, ClientOdds(cs, id)) == Payout(amount, WinnerOdds(cs, id))
  {
    ClientOddsMatchServer(cs, id);
  }

  /** An entry that does not parse never sends a request. */
  lemma UnparseableSendsNothing(selected: string, userCurrency: int)
    ensures ClientAmount(None) == 0
    ensures !SendsRequest(selected, ClientAmount(None), userCurrency)
  {
  }
}
