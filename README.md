# Flaskmaster currency ledger and wagering engine, in Dafny

Flaskmaster is a companion game for a panel show. Players hold a balance of
virtual currency and spend it in three ways:

- they wager on the winner of a task or of an episode;
- they place fixed-odds "binary" bets on other outcomes;
- they back one contestant per season.

Every currency movement is also written as a line in an append-only ledger.

This project models that engine and proves its properties:

- **Odds and stake rules** (`Odds`, with the stable descending sort in
  `StableSort`):
  - a contestant's rank in the season standings;
  - the rank-to-multiplier table;
  - the payout, floor(stake × odds);
  - the stake validator.
- **Bet placement** (`Placement` plus `Store.Store.PlaceBet`):
  - the fail-fast checks of the request;
  - the transaction, which inserts a pending bet with frozen odds and payout, debits the stake, and appends one `bet_placed` line.
- **Bet resolution** (`Settlement` plus `Store.Store.ResolveBets`):
  - selecting the pending bets of an episode, optionally narrowed to a task;
  - deciding task-winner and episode-winner bets;
  - settling each bet in its own transaction, which credits a paying win with a `bet_won` line or writes a zero `bet_lost` line.
- **Season picks** (`PickRules` plus `Store.Store.CreatePick` and `Store.Store.SwitchPick`):
  - the free first pick;
  - the paid switch;
  - listing a player's picks.
- **The leaderboard** (`Leaderboard`):
  - accounts by balance;
  - rank numbering;
  - earned and spent totals over each player's latest five ledger lines;
  - the backed contestant.
- **The betting card's client rules** (`BettingCard`): the odds, payout preview and affordability test shown in the browser. They are proved equal to the server's rules.

The store is a class, `Store.Store`. Its fields are:

- the accounts, in registration order;
- the balances;
- the bets, indexed by bet id;
- the picks, indexed by pick id;
- the ledger.

Each database transaction of the handlers is one method that changes those fields at once.

The class invariant is `StoreState.Consistent`:

- every balance is the starting balance (1000) plus the sum of that player's ledger amounts, and is never negative;
- every bet is well formed;
- a player holds at most one active pick per season.

Every write method keeps the invariant. Every write method except account opening also proves conservation (`StoreState.Conserves`): the ledger only grows, the accounts stay the same, and each balance moves by exactly the sum of the lines appended for that player. Those methods are `RecordPlacement`, `PlaceBet`, `SettleBet`, `ResolveOne`, `SettleSelected`, `ResolveBets`, `CreatePick`, `RecordSwitch` and `SwitchPick`. `OpenAccount` adds an account instead, at the starting balance and with no ledger line.

Odds are JavaScript numbers in the system, but every one is a multiple of ½. They are kept as a whole number of halves:

| odds | halves |
|---|---|
| 2.0 | 4 |
| 2.5 | 5 |
| 3.0 | 6 |
| 3.5 | 7 |
| 4.5 | 9 |
| 6.0 | 12 |

The payout floor(amount × odds) is then exactly `amount * halves / 2`.

Absent request fields are represented as follows:

- an absent string field is `""`;
- an absent amount is `0`;
- an absent task id on a bet is `None`.

The catalog of seasons, episodes, tasks and results is a read-only value passed to the handlers.

## Model

| member | source | states |
|---|---|---|
| Odds.RankOdds | lib/betting/odds.ts:36-44 | the multiplier is always one of 2.0, 2.5, 3.0, 3.5, 4.5, 6.0, and any rank outside 1..5 gives 3.0 |
| Odds.FindIndex | lib/betting/odds.ts:30 | the first position carrying the id, or -1 exactly when no entry carries it |
| Odds.Rank | lib/betting/odds.ts:23-30 | the 1-based rank never exceeds the number of contestants |
| Odds.WinnerOdds | lib/betting/odds.ts:18-45 | the odds of a winner bet are always one of the six table values |
| Odds.Payout | lib/betting/odds.ts:63-65 | payout is floor(amount × odds): twice the payout is at most amount × halves and more than that minus 2 |
| Odds.ValidateBetAmount | lib/betting/odds.ts:70-96 | a stake is valid exactly when 10 ≤ amount ≤ 500 and amount ≤ the balance |
| Odds.ValidationPrecedence | lib/betting/odds.ts:74-93 | the minimum is reported before the maximum, which is reported before insufficient currency |
| Odds.PayoutBounds | lib/betting/odds.ts:63-65 | the payout never exceeds amount × odds and, for odds ≥ 1.0, is at least the stake |
| Odds.RankAbsent | lib/betting/odds.ts:30 | the rank is 0 exactly when no contestant carries the id |
| Odds.AbsentContestantOdds | lib/betting/odds.ts:30-33 | an id missing from the list is priced at 3.0 |
| Odds.RankIsStandingsPosition | lib/betting/odds.ts:23-30 | the rank is the position of the id in the stable descending order of points (missing points are 0): everyone ahead has at least as many points |
| Odds.OddsTable | lib/betting/odds.ts:36-44 | ranks 1..5 give 2.0, 2.5, 3.5, 4.5, 6.0; any other rank, or no rank, gives 3.0 |
| Odds.LeaderIsFavourite | lib/betting/odds.ts:23-37 | a contestant with strictly more points than every other entry has rank 1 and odds 2.0 |
| StableSort.SortPermutes | lib/betting/odds.ts:23-27 | the sort returns a permutation of its input |
| StableSort.SortSorted | lib/betting/odds.ts:23-27 | the sort's output is in descending order of the key |
| StableSort.SortStable | lib/betting/odds.ts:23-27 | the sort is stable: the entries with any one key value keep their relative order |
| StableSort.SortHead | app/api/bets/resolve/route.ts:71-72 | the head of the sorted sequence is the first entry holding the maximal key |
| StableSort.SortIdempotent | components/betting/BettingCard.tsx:124-131 | sorting an already sorted sequence changes nothing |
| Entities.LedgerSumAppend | app/api/bets/place/route.ts:120-158 | a player's ledger sum over two stretches of lines is the sum of the two |
| Placement.RejectionOrder | app/api/bets/place/route.ts:16-115 | the refusals come in order: missing field (a zero amount included), unknown user, invalid stake with the validator's reason, unknown episode, completed episode, a named task missing from the episode, an unknown bet type, then a winner bet on a contestant outside the season |
| Placement.AcceptedExactly | app/api/bets/place/route.ts:16-117 | a request is accepted exactly when every check passes; the ticket then carries the parsed type, rank odds for winner bets (2.0 otherwise), and the potential payout floor(stake × odds), never below the stake |
| Placement.BinaryAndUnknownTypes | app/api/bets/place/route.ts:82-115 | exact_score, disqualification and special_outcome get 2.0; an unknown type is refused; a winner bet on a contestant outside the season is refused |
| Settlement.PendingIndices | app/api/bets/resolve/route.ts:41-47 | the selection is exactly the bets of the episode (and task) still pending, in storage order |
| Settlement.ScopeTasks | app/api/bets/resolve/route.ts:17-31 | with a task id only that task is fetched, otherwise every task of the episode |
| Settlement.FindTask | app/api/bets/resolve/route.ts:67-68 | the first task with the bet's task id, or none when no task has it |
| Settlement.TaskWinnerIsFirstTopScore | app/api/bets/resolve/route.ts:71-74 | a task's winner is the first result holding the top score; a task without results has none |
| Settlement.TallyEpisodePoints | app/api/bets/resolve/route.ts:81-90 | the nested loops build exactly the per-contestant points record `EpisodePoints` |
| Settlement.AddResultsMeaning | app/api/bets/resolve/route.ts:83-90 | adding results adds each contestant's summed score to its key and creates keys only for scorers |
| Settlement.KeysInFirstSeenOrder | app/api/bets/resolve/route.ts:85-87 | the record's keys come in the order of each contestant's first result |
| Settlement.EpisodePointsMeaning | app/api/bets/resolve/route.ts:81-90 | the record holds, for each contestant with a result, exactly its total over the tasks, and no other key |
| Settlement.EpisodeWinnerLeads | app/api/bets/resolve/route.ts:93-97 | the episode winner has results and no contestant has a larger total |
| Settlement.EpisodeWinnerFirstSeen | app/api/bets/resolve/route.ts:93-95 | a tie goes to the contestant whose first result came first |
| Settlement.SoleLeaderWins | app/api/bets/resolve/route.ts:93-97 | a contestant whose total is strictly larger than every other scorer's is the episode winner |
| Settlement.EpisodeWinnerNone | app/api/bets/resolve/route.ts:93-95 | there is no episode winner exactly when the tasks have no results |
| Settlement.JudgeBet | app/api/bets/resolve/route.ts:61-105 | the per-bet decision (sort the bet's task results in the snapshot and compare the head; or tally and compare the head; otherwise lose) is the verdict `Judge` |
| Settlement.ResortedOutcomes | app/api/bets/resolve/route.ts:71 | a snapshot whose tasks' results were sorted in place has the same tasks, task winners, totals and scorers as the fetched one |
| Settlement.OrderChangesTiedVerdict | app/api/bets/resolve/route.ts:41-97 | for two tasks that leave A and B tied, an episode-winner bet on A wins when judged before a task-winner bet on the first task and loses when judged after it, because that bet sorts its task's results in place |
| Settlement.VerdictMeaning | app/api/bets/resolve/route.ts:60-105 | wherever a bet falls in the pass, a task-winner bet wins exactly when its task is in scope and its target holds that task's first top score; an episode-winner bet wins only if its target leads, and always when it leads alone; any other type loses |
| Settlement.SettleWellFormed | app/api/bets/resolve/route.ts:108-150 | settling a pending bet makes it won with its potential payout or lost with 0; the ledger line written is that amount, never negative, of kind bet_won or bet_lost |
| Settlement.SettlementEntries | app/api/bets/resolve/route.ts:118-150 | the pass writes one ledger line per selected bet, in order |
| Settlement.Resolutions | app/api/bets/resolve/route.ts:153-163 | the answer holds one resolution per selected bet, with its id, verdict and actual payout, so `resolved` is the number selected |
| Settlement.SettleAllMeaning | app/api/bets/resolve/route.ts:108-116 | each selected bet is settled with its own verdict and every other bet is unchanged |
| Settlement.SettledNothingPending | app/api/bets/resolve/route.ts:41-55 | after the pass no bet of the episode (and task) is pending, so a second pass selects nothing |
| Settlement.PassStep | app/api/bets/resolve/route.ts:60-158 | judging the next selected bet on the current snapshot, settling it and appending its line and resolution extends the pass by one bet |
| PickRules.ActivePickIndex | app/api/picks/switch/route.ts:41-59 | the first active pick of the player for the season, or none exactly when there is no such pick |
| PickRules.CreatePickDecision | app/api/picks/route.ts:11-61 | a first pick is created exactly when the request parses, the player holds no active pick for the season and every reference resolves; it is active with currencySpent 0; an existing active pick gives AlreadyPicked |
| PickRules.CreateKeepsOneActive | app/api/picks/route.ts:17-40 | creating a pick keeps at most one active pick per player and season |
| PickRules.SwitchRejectionOrder | app/api/picks/switch/route.ts:11-96 | a switch is refused, in order, for a missing field, an unknown user, a balance under 100, no active pick, the same contestant, a contestant outside the season, and a season that is not active |
| PickRules.SwitchAccepted | app/api/picks/switch/route.ts:11-115 | a switch goes through exactly when every check passes; the plan retires the player's active pick and adds an active pick of the new contestant with currencySpent 100 |
| PickRules.SwitchKeepsOneActive | app/api/picks/switch/route.ts:100-115 | after a switch the player holds exactly one active pick for the season, the new one, and every player still holds at most one per season |
| PickRules.PicksQuery | app/api/picks/route.ts:64-91 | without a user the listing is refused; otherwise it is exactly the player's picks (with a season, its active picks for that season), newest first |
| PickRules.SeasonQueryIsActivePick | app/api/picks/route.ts:77-91 | with a season named, the listing is the player's active pick for it, or empty |
| Leaderboard.RankingMeaning | app/api/leaderboard/route.ts:8-54 | the accounts shown are ordered by balance and number min(limit, accounts), with a default limit of 50; they are drawn from the input with no account repeated beyond its occurrences; none left out is richer than any shown |
| Leaderboard.Earned | app/api/leaderboard/route.ts:59-61 | totalEarned is never negative |
| Leaderboard.Spent | app/api/leaderboard/route.ts:63-65 | totalSpent is never negative |
| Leaderboard.EarnedMinusSpent | app/api/leaderboard/route.ts:59-65 | earned minus spent is the sum of the amounts considered |
| Leaderboard.RecentNet | app/api/leaderboard/route.ts:39-65 | at most five lines are considered; for a player with no more lines than that, earned minus spent is the player's whole ledger net |
| Leaderboard.ActivePickMeaning | app/api/leaderboard/route.ts:17-21 | a row shows no pick exactly when the player backs nobody (in the season, when one is named); otherwise it shows one of the player's active picks; contestant points default to 0 |
| Leaderboard.SeasonActivePick | app/api/leaderboard/route.ts:17-21 | with a season named, the row shows the player's active pick for that season |
| Leaderboard.Board | app/api/leaderboard/route.ts:58-90 | the rows are ranked 1..n in output order, n is min(limit, accounts), and the totals are non-negative |
| Leaderboard.BoardMeaning | app/api/leaderboard/route.ts:51-90 | row i shows the i-th account of the ranking, so rows are in descending balance, distinct, and none left out is richer; each row's earned minus spent is the net of its recent lines, and its active pick is the player's `ActivePick` |
| BettingCard.ClientOddsMatchServer | components/betting/BettingCard.tsx:43-61 | for any selected id, listed or not, the card shows the server's winner odds |
| BettingCard.RenderSortKeepsOdds | components/betting/BettingCard.tsx:124-131 | pricing after the card's own sort gives the same odds as before |
| BettingCard.CanAffordMatchesServer | components/betting/BettingCard.tsx:77 | the card's affordability test accepts exactly the stakes the server's validator accepts |
| BettingCard.NoSelectionShowsZero | components/betting/BettingCard.tsx:74-76 | with nothing selected the odds and the payout shown are 0 |
| BettingCard.PreviewMatchesServer | components/betting/BettingCard.tsx:74-76 | the payout preview is the potential payout the server will store |
| BettingCard.UnparseableSendsNothing | components/betting/BettingCard.tsx:75-80 | an unparseable stake is 0 and never sends a request |
| StoreState.BalanceMovesWithLedger | app/api/bets/resolve/route.ts:108-151 | when both states are backed by their ledgers and the ledger only grew, every balance moved by exactly the lines appended for it |
| StoreState.PlacementKeeps | app/api/bets/place/route.ts:120-158 | recording a placement keeps the store invariant and conserves |
| StoreState.SettlementKeeps | app/api/bets/resolve/route.ts:108-151 | settling one pending bet keeps the store invariant and conserves |
| StoreState.PickKeeps | app/api/picks/route.ts:33-46 | adding a first pick keeps the store invariant |
| StoreState.SwitchKeeps | app/api/picks/switch/route.ts:99-139 | a switch keeps the store invariant and conserves |
| StoreState.AcceptedIsRecordable | app/api/bets/place/route.ts:24-134 | every accepted placement has an account, a covered stake and a well-formed pending bet |
| StoreState.SwitchIsRecordable | app/api/picks/switch/route.ts:19-115 | every accepted switch has an account that can pay the fee and retires an active pick of the player for the season |
| Store.Store.constructor | app/api/auth/register/route.ts:48-52 | the store starts empty and valid |
| Store.Store.OpenAccount | app/api/auth/register/route.ts:48-52 | a new id is registered at the starting balance of 1000 with no ledger line; an existing id changes nothing |
| Store.Store.RecordPlacement | app/api/bets/place/route.ts:120-158 | the transaction inserts the pending bet, debits exactly the stake and appends one bet_placed line of minus the stake |
| Store.Store.PlaceBet | app/api/bets/place/route.ts:14-170 | a refused request changes nothing and answers the check's error; an accepted one is recorded and answers the new bet id, the ticket and the old balance minus the stake |
| Store.Store.SettleBet | app/api/bets/resolve/route.ts:108-151 | one bet's transaction: the bet is settled; a paying win credits the payout with a bet_won line, anything else writes a bet_lost line of 0; balances move exactly with that line |
| Store.Store.ResolveOne | app/api/bets/resolve/route.ts:60-157 | one turn of the loop: the verdict is `Judge` on the current snapshot, the bet is settled accordingly, its line is appended, its player's balance moves by that line's amount, and the pass conserves |
| Store.Store.SettleSelected | app/api/bets/resolve/route.ts:58-158 | the loop settles the selected bets in order with the replayed verdicts, appends their ledger lines, answers their resolutions and conserves |
| Store.Store.ResolveBets | app/api/bets/resolve/route.ts:7-164 | missing or unknown episode: 400 or 404 with no change; otherwise every selected pending bet is settled, the balances move with the lines written, and none of them is left pending |
| Store.Store.CreatePick | app/api/picks/route.ts:11-61 | a refused request changes nothing; an accepted one appends the free active pick; balances and ledger never change, so it trivially conserves |
| Store.Store.RecordSwitch | app/api/picks/switch/route.ts:99-139 | the transaction retires the old pick, appends the new one, debits exactly 100 and appends one contestant_switch line of -100 |
| Store.Store.SwitchPick | app/api/picks/switch/route.ts:9-147 | a refused request changes nothing; an accepted one is recorded and answers cost 100 and the old balance minus 100 |
| Store.Store.Accounts | app/api/leaderboard/route.ts:11-16 | the leaderboard accounts are exactly the registered players in registration order, each carrying its balance |
| Store.Store.StandingsNet | app/api/leaderboard/route.ts:39-65 | on a valid store, a player with at most five ledger lines shows earned minus spent equal to the balance change since the account was opened |

## Left out

- The episode reward pass (`/api/episodes/{id}/process-rewards`): its route file is not part of this model.
- Concurrency: the handlers read a balance and decrement it later without re-checking. Here every handler runs alone, and each database transaction is one atomic method; the race is not modelled.
- Persistence plumbing (the connection pool and its BEGIN/COMMIT/ROLLBACK helper) and read-only ORM listings: each transaction is assumed atomic.
- Authentication and registration are reduced to `Store.Store.OpenAccount` with the starting balance of 1000; passwords, sessions and e-mail checks are not modelled.
- Timestamps (`resolvedAt`, `pickedAt`, `createdAt`), ledger descriptions, response message texts, usernames, colours and season numbers are not modelled; errors are kinds with their HTTP status.
- Ordering by timestamp is ordering by storage position: the newest pick or ledger line is the last one stored, and database ties are broken stably.
- Rendering, React state and the fetch handler of the betting card; only its odds, payout preview and affordability test are modelled.
- Floating point: odds are whole halves and amounts are integers, so the payout's floor is exact.
- `Object.entries` lists integer-like keys before the others; the tally here keeps plain insertion order, which is what it gives for the non-numeric contestant ids the system uses.
- `parseInt` of the leaderboard limit is `Option<nat>`: a limit that does not parse, or a negative one, is not modelled.
- `Leaderboard.ActivePickMeaning`: a pick's contestant points are read from the season's contestant list (0 when the season does not list the contestant), not from the contestant's own stats row.
- `PickRules.DecideCreatePick`: a first pick whose user, season or contestant does not exist fails as `CreateFailed` (500), standing for the rejected insert; the handler checks neither the season's status nor that the contestant belongs to it, and neither does the model.
- `PickRules.DecideSwitch`: its own contract states only that the plan names a stored pick; its meaning is stated by `PickRules.SwitchAccepted` and `PickRules.SwitchRejectionOrder`.
- `Store.Store.SwitchPick`: the one-active-pick outcome of a switch is stated by `PickRules.SwitchKeepsOneActive` rather than in the method's own contract.
- `Settlement.PendingIndices`: the pass takes the selected bets in storage order, but the handler's query sets no order, so the database chooses it. The order can change a verdict. A task-winner bet sorts its task's results in the shared snapshot, which can change which tied contestant is seen first. An episode-winner verdict on a tied lead can therefore depend on where the bet falls in the pass; `Settlement.OrderChangesTiedVerdict` exhibits such a case. `Settlement.VerdictMeaning` holds wherever a bet falls in the pass: task-winner verdicts and verdicts on a sole leader do not depend on the order. Only the tie-break does, and the model fixes it to storage order.
- `Settlement.VerdictMeaning`: for an episode-winner bet with a tied lead it states only that a win implies leading; which tied contestant wins is stated by `Settlement.EpisodeWinnerFirstSeen`.
