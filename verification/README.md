# Betting-round core of the GoPractice lottery game

The game runs rounds of a pot-style lottery. Players place bets on the
current round. The bets of one player are grouped in a *position*
(`UserBet`), and positions are kept in the order players first bet. Once two
or more players hold a position, the round is asked to start. When the round
ends, the manager archives a copy of it and draws a ticket. Ticket ranges are
laid out per position: with `cents` the position's total truncated to whole
units times 100, the range is the inclusive `[s, s + cents]`, which holds
`cents + 1` tickets. The positions whose range holds the drawn ticket are
reported as winners. Each is paid the pot minus that player's own stake.

The model has four modules:

- `Bets` (bets.dfy): the values of a round and the read-only sums over them.
  - The values are `Player`, `Bet` and `UserBet`.
  - The sums are `UserBet.GetTotalBet`, `Game.GetTotalPrice` and
    `Game.GetTotalPriceOfUsers`, written as specification functions.
  - Lemmas relate the pot, the per-position totals and the per-player map.
- `Placement` (placement.dfy): the change `PlaceBet` makes to the positions
  (`WithBet`) and the start test that follows it (`Quorum`).
- `Tickets` (tickets.dfy): the ticket arithmetic.
  - The source's rounding operations are written out: `math.Round` rounds
    halves away from zero, and `int(x)` of a float truncates toward zero.
  - `Layout` is the layout `CalculateShares` computes, and `TotalTickets` is
    the draw space.
  - `WinnersOf` is the scan `GetWinner` makes.
  - `DrawAfterLayout` is the draw the code evidently intends.
- `Games` (games.dfy): the mutable objects.
  - `Game` is a class whose methods update its fields in place.
  - `GameManager` holds the current game and the archive of past games.
    The archive is a map from id to a `GameValue` copy, because Go stores
    struct copies in it.
  - Each `Game` method is proved against the functions of the other
    modules.

Bet amounts are Go `float64` values. The model takes them as exact `real`
numbers. The start and end timestamps become "is set" flags. The game id of
`NewGame` and the ticket drawn by `rand.Intn` are parameters. `rand.Intn`
panics when the draw space is not positive; that case becomes the outcome
`Draw.EmptyTicketSpace`.

### Behaviour of the code worth knowing

- **Amounts are not checked.** `PlaceBet` (game.go:189-222) accepts an
  amount of any sign, and it accepts bets in any state, also after the
  round has ended. `Games.Game.PlaceBet` does the same.
- **States are not guarded.**
  - `StartGame` and `SetState` assign the state unconditionally
    (game.go:133-156, 183-187), so `StartGame` moves any state to
    InProgress.
  - `GetWinner` leaves the game in `Ended` when no range holds the ticket.
- **Ranges are inclusive and contiguous.** The code (game.go:263-269)
  writes inclusive ranges `[s, s + cents]` and starts the next range at
  `s + cents + 1`. For two bets of 10 the ranges are A `[0, 1000]` and
  B `[1001, 2001]`.
  - With whole-unit totals, the layout covers one ticket per position more
    than the draw space (`Tickets.WholeAmountsCovered`). With fractional
    totals it can cover far fewer, leaving drawable tickets with no owner
    (`Tickets.DeadTicketExample`).
  - With the layout the code intends, A owns 1001 of the 2000 drawable
    tickets and B owns 999.
- **The draw never uses the ranges.** The ranges are never stored in the
  game (see Findings), so the draw as written does not use them at all.
- **`EndGame` discards a result that does not exist.** `EndGame` writes
  `_ = gm.currentGame.GetWinner()`, but `GetWinner` returns nothing. The model
  treats the line as a plain call.

## Model

| member | source | states |
|---|---|---|
| Bets.SumAmountsConcat | game.go:79-84 | The left-to-right sum of `GetTotalBet` is additive: the bets of two lists placed one after the other sum to the two sums added. |
| Bets.TotalPriceIsSumOfTotals | game.go:225-232 | The pot of the nested loop equals the sum of the per-position totals (`GetTotalBet`). |
| Bets.TotalPriceAppend | game.go:225-232 | Appending a position adds exactly its total to the pot. |
| Bets.SameBetsSameTotals | game.go:225-232 | The pot and every position's total depend only on the bets, never on the ticket ranges. |
| Bets.AddBetsSpec | game.go:238-240 | The inner loop adds key `id` when there is a bet, and raises `m[id]` by the bets' sum, reading a missing key as 0; other keys are unchanged. |
| Bets.PricePerUserSpec | game.go:234-243 | The keys are exactly the ids of positions holding a bet, and each id maps to the summed totals of that id's positions. |
| Bets.PricePerUserOfRound | game.go:234-243 | On a round with one position per id, each holding a bet: the keys are exactly the ids, each value is that position's total, and the values add up to the pot. |
| Placement.WithBetKnownPlayer | game.go:195-201 | A known player's bet goes to the end of that player's position; the length and every other position stay the same. |
| Placement.WithBetNewPlayer | game.go:203-206 | A new player gets one appended position `[bet]` with zero ranges; earlier positions keep their order and contents. |
| Placement.WithBetKeepsRound | game.go:194-206 | Placement keeps ids unique, every position non-empty and the ranges at zero; the id list grows only for a new player. |
| Placement.WithBetTotal | game.go:189-206 | With unique ids, the pot after a bet is the pot before plus the amount. |
| Placement.RepeatBettorNoQuorum | game.go:189-222 | One player placing any non-empty list of bets holds one position whose bets are exactly those bets in order, the pot is their sum, and the start is never triggered. |
| Placement.SecondPlayerQuorum | game.go:219-222 | On a round that has not started, a bet from a second distinct player always triggers the start. |
| Tickets.GoRound | game.go:257 | The result is the nearest integer, with halves rounded away from zero, for both signs. |
| Tickets.GoTrunc | game.go:264 | The result is truncation toward zero: within one below a non-negative input, within one above a negative one. |
| Tickets.LayoutShape | game.go:259-269 | The layout keeps the positions in order with their bets and players; the first start is 0, each range spans its cents, and each next start is one past the previous end. |
| Tickets.LayoutOrdered | game.go:263-269 | With non-negative cents the ranges are non-empty, disjoint and strictly increasing in insertion order. |
| Tickets.LayoutIdempotent | game.go:246-272 | Recomputing the shares on already laid-out positions yields the same layout. |
| Tickets.Owner | game.go:263-269 | Every ticket below the running total lies in exactly one laid-out range. |
| Tickets.WinnersOfSpec | game.go:284-294 | A win is reported if and only if a position's inclusive range holds the ticket; its payout is the pot minus that position's stake, and there are at most as many reports as positions. |
| Tickets.NoWinnerIffUncovered | game.go:284-294 | The draw reports no one exactly when no range holds the ticket. |
| Tickets.SingleCoverSingleWinner | game.go:284-294 | When exactly one range holds the ticket, its player is the only winner. |
| Tickets.ZeroTicketsDraw | game.go:284-294 | With every range left at `[0, 0]`: ticket 0 reports every position in order with its payout, and any other ticket reports no one. |
| Tickets.TwoPlayersZeroRangesExample | game.go:263-294 | Two players betting 10 each, as the game stores them: a draw space of 2000; ticket 0 pays both players 10, and every other ticket pays no one. |
| Tickets.LayoutPot | game.go:280-291 | Scanning the laid-out positions with the original pot equals the draw over the layout. |
| Tickets.DrawAfterLayout | game.go:263-294 | The corrected draw: over the layout, a ticket below the running total has exactly one winner, the owner of the covering range, paid the pot minus that player's stake. |
| Tickets.LayoutDrawOneWinner | game.go:263-294 | Scanning the layout for a ticket reports only its owner. |
| Tickets.WholeTotalsTickets | game.go:257-269 | With whole totals, the running total is 100 times the pot plus one ticket per position. |
| Tickets.WholeAmountsCovered | game.go:257-280 | With whole, non-negative totals, no range runs backwards and the layout spans the draw space plus one ticket per position. |
| Tickets.WholeAmountsOneWinner | game.go:263-294 | With whole amounts, every ticket in `[0, totalTickets)` has exactly one winner over the layout. |
| Tickets.DeadTicketExample | game.go:263-285 | With fractional amounts, two bets of 0.6 give a draw space of 100 but ranges `[0, 0]` and `[1, 1]`, so ticket 50 has no winner even over the layout. |
| Games.Game.constructor | game.go:103-111 | A new game has the given id and duration, no start or end time set, no positions, and state Idle. |
| Games.Game.SetState | game.go:183-187 | Assigns any state with no guard; every other field is unchanged. |
| Games.Game.PlaceBet | game.go:189-222 | The new positions are `WithBet` of the old ones. The pot grows by the amount, the round invariant is kept, and other fields are unchanged. The start is triggered exactly when no start time is set and there are at least two positions. |
| Games.Game.GetTotalPrice | game.go:225-232 | The nested loop returns the pot, which equals the sum of the per-position totals. |
| Games.Game.GetTotalPriceOfUsers | game.go:234-243 | Returns the per-player map. Its keys are the ids holding a bet and each value is that id's summed totals. On a valid game the values add up to the pot. |
| Games.Game.CalculateShares | game.go:246-272 | The per-iteration copies it lays out are exactly `Layout(userBets)`, starting at ticket 0. The game's own positions are not changed. |
| Games.Game.Scan | game.go:284-294 | The loop reports exactly the scan `WinnersOf` of the given positions. |
| Games.Game.GetWinner | game.go:274-295 | A non-positive draw space is `EmptyTicketSpace`; otherwise the winners are the scan of the stored positions. State becomes WinnerPicked only when someone is reported. On a valid game a report happens if and only if the ticket is 0, and then every position is reported. |
| Games.Game.GetWinnerFromShares | game.go:274-295 | The corrected draw scans the laid-out shares. With whole amounts it reports exactly one winner, `DrawAfterLayout`, for every drawable ticket. |
| Games.GameManager.constructor | game.go:86-92 | Starts with an empty archive and the zero-value game. |
| Games.GameManager.NewGame | game.go:98-124 | Replaces the current game with a fresh Idle game of duration 60; the archive is unchanged. |
| Games.GameManager.StartGame | game.go:133-156 | Sets the start and moves to InProgress whatever the state was; the positions and the other fields are kept. |
| Games.GameManager.EndGame | game.go:158-181 | Archives the game under its id as it was before the state change, with the end set. The current game moves to Ended, or to WinnerPicked when the draw reports someone. The outcome is GetWinner's. |
| Games.TwoPlayerRound | game.go:133-295 | Two players betting 10 trigger the start; the archived copy says InProgress. Ticket 0 pays both players 10 and any other ticket pays no one. |
| Games.RepeatBettorRound | game.go:189-232 | One player betting 5 three times never triggers the start, and the pot is 15. |

## Left out

- The event channel and every event sent on it are left out, including the snapshots events carry. Sends on an unbuffered channel are I/O.
- The mutexes and goroutines are left out: `go gameManager.StartGame()`, the lock and unlock around each method, and the nil mutexes of the zero-value game. Each method is modelled as one atomic step.
- The countdown and the lifecycle chaining are left out. These are `StartGame` calling `EndGame` after the ticker, and `EndGame` sleeping and calling `NewGame`. They are timers; each operation is modelled on its own.
- `time.Now` is left out. `StartTime` and `EndTime` become flags, and the nanosecond game id is a parameter.
- `NewTime` and `Bet.Created` are dropped: they are set (game.go:60, game.go:105) and never read by the core.
- `rand.New`/`Intn` are left out; the drawn ticket is a parameter within `[0, totalTickets)`.
- The `rand.Intn` panic on a non-positive draw space is modelled as the outcome `EmptyTicketSpace` rather than a crash of the process.
- The percentage `Share` of `CalculateShares` and the log lines are left out. `Share` is only logged and never read.
- Float64 rounding error in the sums is left out, because amounts are exact reals. `Tickets.GoRound` and `Tickets.GoTrunc` do not model overflow of `int` for huge amounts.
- Aliasing through Go references is left out. This covers `GetCurrentGame` returning `&gm.currentGame` and the archived copy sharing the slice's backing array with the current game. The archive holds values.
- `GetCurrentGame`, `Events`, `NewPlayer` and `NewBet` are plain accessors or constructors and have no separate member.
- Games.Game.PlaceBet: it requires the round invariant `Valid()` (unique ids, every position holding a bet, zero ranges) as an object invariant. Every game built by the constructor has it, and `PlaceBet` keeps it.
- Games.Game.GetWinner: it sets WinnerPicked once after the scan rather than at each match, which leaves the same state. It reads the pot once rather than once per match, which gives the same value since nothing changes during the scan.

## Findings

| source | as written | input that shows it | evidently intended | confidence | as-written member | corrected member |
|---|---|---|---|---|---|---|
| game.go:263-268, game.go:284-285 | `CalculateShares` assigns `StartTicket`/`EndTicket` to the loop variable `ub`, a copy of the position, so the game's positions keep the ranges `[0, 0]`. `GetWinner` then reports every position for ticket 0 and no one for any other ticket. | Players A and B each bet 10: the draw space is 2000. Ticket 500 has no winner, and ticket 0 reports both A and B with payout 10. | Scan the laid-out ranges, so every drawable ticket has exactly one winner (for whole amounts). The corrected member scans the laid-out copies and still does not store the ranges in the game. | not executed | Tickets.TwoPlayersZeroRangesExample | Games.Game.GetWinnerFromShares |
