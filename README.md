# Kalah rules engine and move evaluator

This project models the core of a Kalah (Mancala) player written in Java, and proves properties of that model. The core has two parts:

- **The board** (`src/algorithm/Board.java`). It holds 14 pit counts and a `turn` field. `transfer(source, player, board)` does one move:
  - it loads the counts;
  - it maps player 2's relative pit `s` to index `12 - s`;
  - it sows the pit one seed at a time, skipping the opponent's end zone and wrapping from 13 to 0;
  - it applies the capture rule and the turn rule to the last seed;
  - when either row of small pits is empty, it sweeps the board and returns 0 as the next turn.
- **The evaluator** (`src/algorithm/Player.java`):
  - `getValueOfMove` scores a move as a triple: score difference, win credit and outcome count. An empty pit gets the marker triple `-9999`. A terminal child position is scored from the side `playerID`. Any other position aggregates the marker slots of its six children.
  - `getMoveArray` builds the six-column table for player 1.
  - `makePlay` picks the column with the best win ratio, then the best score, as a 1-based move.

Positions are indexed 0..13:

- 0..5 are player 1's small pits (class `Store` in the source);
- 6 is player 1's end zone (class `House`);
- 7..12 are player 2's small pits;
- 13 is player 2's end zone.

Modules:

- `KalahRules` (`kalah_rules.dfy`): the move as pure functions.
  - `Shift` moves `n` seeds between two pits.
  - `Step` is one iteration of the sowing loop, and `Sow` is `k` iterations.
  - `Capture` and `LastSeed` are the last-seed rules.
  - `Sweep` models `clear`.
  - `GameOver` models `isGameOver`.
  - `Move` is the whole of `transfer`.
- `SowingFacts` (`sowing_facts.dfy`): lemmas about the move. They compare the sowing loop with a reference distribution, `Spread`, which drops one seed on each index of a path `Path` and applies no rule. The lemmas cover conservation, the opponent's end zone, the turn rule, the literal capture and the literal sweep.
- `KalahBoard` (`kalah_board.dfy`): the class `Board`. Its fields are `pits: array<int>` and `turn`. Its methods run the source's loops on the array, and each is proved to produce what the `KalahRules` functions describe.
- `KalahEvaluation` (`evaluation.dfy`): the evaluator's rules as functions.
  - The leaf triple, the marker-only aggregation and the recursive `ValueOfMove`.
  - The move table `MoveTable`.
  - The selection `SelectUpTo` / `Select`. Its floating-point ratio is modelled as a real number, or as +∞, −∞ or NaN after a division by zero.
- `KalahPlayer` (`kalah_player.dfy`): the class `Player`. Its fields are `playerID`, `tmpBoard` and `simBoard`. Its methods run the source's loops and are proved equal to the `KalahEvaluation` functions.
- `KalahExamples` (`kalah_examples.dfy`): worked positions.

How the model treats the evaluator's recursion:

- The source reads every child position from the field `tmpBoard`. `transfer` never writes that field, so the child board is always whatever array `tmpBoard` holds: all zeros after construction. The model keeps this wiring: the child board is the parameter `tmp` of `ValueOfMove`.
- With the constructed all-zero `tmpBoard`, every playable move scores as a drawn finished game. `makePlay` then picks the leftmost non-empty pit (`ZeroChildBoardPicksFirst`).
- With a child board whose small pits are all non-empty, the recursion never ends (`FullChildBoardOverflows`). In Java that is a stack overflow.
- The unbounded recursion therefore carries a depth `fuel` in the model. Exhausting it yields `Overflow`, which stands for the stack overflow. A finished result does not depend on the bound: with more fuel the result is the same (`ValueOfMoveFuel`, `MoveTableFuel`).

Where the code departs from the usual rules of Kalah, or from its own comments, the model follows the code:

- A new board holds 3 seeds in each of the 12 small pits, 36 in all (`KalahExamples.StartPosition`). The common form of the game starts with 4 seeds per pit, 48 in all.
- A capture moves one seed from the opposite pit, not all of them. The comment on `transfer` (`src/algorithm/Board.java:91-94`) and the usual rules say that all seeds are taken. The loop that moves them is bounded by the receiving pit's count, which is 1 (`SowingFacts.CaptureTakesOneSeed`).
- `clear` moves the rounded-up half of each small pit, not all of it, as the usual end-of-game sweep would. Its loop bound `getCount()` shrinks as seeds leave. Each pit keeps the rounded-down half (`SowingFacts.SweepKeepsHalf`), and each end zone gains the rounded-up halves of its own owner's pits (`SowingFacts.SweepHomes`).
- The game is over when either row is empty (`isGameOver` returns `pl1 || pl2`).
- The evaluator's terminal test asks for both rows to be empty. `TerminalIsGameOver` and `GameOverNotTerminal` show that it is strictly stronger than the board's game-over test.

## Model

| member | source | states |
|---|---|---|
| KalahRules.Load | src/algorithm/Board.java:207-237 | Entries 0..13 are rebuilt; entries past 13 are never read. Each count equals its array entry when that entry is non-negative, and is 0 (an empty stack) when it is negative. |
| KalahRules.IsSmallPit | src/algorithm/Board.java:45-57 | Holds for the indices 0..13 other than 6 and 13: the pieces built as `Store`, not `House`. |
| KalahRules.Owner | src/algorithm/Board.java:36-40 | Computes the owner of a piece: 1 below index 7, 2 otherwise. |
| KalahRules.HomeOf | src/algorithm/Board.java:142 | Computes a player's end zone, `player * 7 - 1`: 6 for player 1, 13 for player 2. |
| KalahRules.Opposite | src/algorithm/Board.java:139 | Computes the pit across the board, `destIndex + (6 - destIndex) * 2`, which is `12 - destIndex`. |
| KalahRules.Other | src/algorithm/Board.java:155-158 | Computes the turn after a switch: 2 after 1, and 1 after anything else. |
| KalahRules.SourceIndex | src/algorithm/Board.java:105-107 | Computes the absolute source pit: `12 - s` for player 2's relative pit `s`, unchanged for player 1. |
| KalahRules.Start | src/algorithm/Board.java:27-60 | Computes the opening position: 3 seeds in each small pit, 0 in the end zones 6 and 13. |
| KalahRules.Shift | src/algorithm/Board.java:114-128 | Computes `n` seeds taken from one pit (`getItem`) and put into another (`putItem`). |
| KalahRules.Capture | src/algorithm/Board.java:142-150 | Computes the literal capture: one seed from the opposite pit `12 - d`, then the one seed of `d`, into the mover's end zone `player*7-1`. |
| KalahRules.LastSeed | src/algorithm/Board.java:131-159 | Computes the last-seed rules. They fire only when the source pit is empty. A landing in a small pit switches the turn. A landing in the mover's own small pit that now holds one seed, across from a non-empty pit, also captures. |
| KalahRules.Step | src/algorithm/Board.java:112-161 | Computes one iteration of the sowing loop: a seed leaves the source, lands at `Deposit(destIndex)`, the last-seed rules run, and `destIndex` advances. |
| KalahRules.Sow | src/algorithm/Board.java:112-162 | Computes `k` iterations of the sowing loop. |
| KalahRules.Sown | src/algorithm/Board.java:109-162 | Computes the whole loop: as many iterations as the source pit holds seeds, starting at `destIndex = source + 1` with the turn set to the mover. |
| KalahRules.SweepPit | src/algorithm/Board.java:175-180 | Computes `clear` on one piece: a small pit sends `(n + 1) / 2` of its `n` seeds to its owner's end zone; an end zone is left alone. |
| KalahRules.SweepUpTo | src/algorithm/Board.java:173-182 | Computes `clear` after visiting pieces 0..p-1 in key order. |
| KalahRules.Sweep | src/algorithm/Board.java:173-182 | Computes `clear` over all 14 pieces. |
| KalahRules.RowEmpty | src/algorithm/Board.java:70-77 | Holds when six consecutive small pits of one row are all empty. |
| KalahRules.GameOver | src/algorithm/Board.java:67-79 | Holds when player 1's row or player 2's row is empty. |
| KalahRules.Move | src/algorithm/Board.java:98-171 | Computes `transfer`: load, map the source, sow; then, if the game is over, sweep and return turn 0; otherwise return the board and the turn the sowing left. |
| KalahRules.Deposit | src/algorithm/Board.java:116-122 | For a `destIndex` in 0..14, the pit that receives the next seed is a valid index 0..13. |
| KalahBoard.Board.constructor | src/algorithm/Board.java:27-60 | A new board is the opening position `Start()` (3 seeds in every small pit, 0 in both end zones), with player 1 to move. |
| KalahBoard.Board.IsGameOver | src/algorithm/Board.java:67-79 | The result is true exactly when all six small pits of player 1, or all six of player 2, are empty. |
| KalahBoard.Board.SetBoard | src/algorithm/Board.java:207-237 | For an array of 14 or more entries, the pit counts become `Load(board)`, and the board stays non-negative. |
| KalahBoard.Board.ConvertToIntArray | src/algorithm/Board.java:184-205 | Returns a fresh array holding the 14 counts in index order. |
| KalahBoard.Board.Clear | src/algorithm/Board.java:173-182 | The new counts are `Sweep` of the old ones: each small pit, in index order, sends the rounded-up half of its seeds to its owner's end zone. |
| KalahBoard.Board.CaptureSeeds | src/algorithm/Board.java:142-150 | The new counts are `Capture` of the old ones: one seed from the opposite pit, then the receiving pit's single seed, go to the mover's end zone. |
| KalahBoard.Board.SowSeed | src/algorithm/Board.java:112-161 | One loop iteration takes the board, `destIndex` and `turn` to `Step` of the old ones. |
| KalahBoard.Board.Transfer | src/algorithm/Board.java:98-171 | The board and the returned turn are `Move(board, source, player)`, the returned value equals the `turn` field, and no count is negative. |
| SowingFacts.OpponentHome | src/algorithm/Board.java:117 | Computes the end zone the skip test passes over: the end zone of the other player, 13 when player 1 moves and 6 otherwise. |
| SowingFacts.PathSkipsOpponentHome | src/algorithm/Board.java:116-122 | Each seed lands on the next index modulo 14, except that the opponent's end zone is passed over; no seed lands there. |
| SowingFacts.SpreadAt | src/algorithm/Board.java:112-128 | Under the reference sowing, pit `i` loses `k` seeds if it is the source and gains one seed per visit of the path. |
| SowingFacts.SowBeforeLast | src/algorithm/Board.java:112-131 | Before the last seed the source pit is never empty, so the loop is the reference sowing, with the turn unchanged and `destIndex` one past the path. |
| SowingFacts.LastSeedBeforeEmpty | src/algorithm/Board.java:131 | While the source pit still holds seeds, the last-seed rules change nothing. |
| SowingFacts.SownIsSpreadThenLastSeed | src/algorithm/Board.java:112-162 | The whole sowing loop is the reference sowing of all the source's seeds, followed by the last-seed rules at the index the last seed reached. |
| SowingFacts.SourceAfterSpread | src/algorithm/Board.java:112-131 | After the last seed, the source pit holds exactly the seeds that wrapped back into it. |
| SowingFacts.SpreadNonNegative | src/algorithm/Board.java:112-128 | The reference sowing never drives a count below zero. |
| SowingFacts.SowNonNegative | src/algorithm/Board.java:112-162 | Sowing, including a capture, never drives a count below zero. |
| SowingFacts.LastSeedNonNegative | src/algorithm/Board.java:131-159 | A capture takes seeds only from pits that hold some. |
| SowingFacts.SumUpdate | src/algorithm/Board.java:114-128 | Changing one count changes the seed total by the difference. |
| SowingFacts.ShiftConserves | src/algorithm/Board.java:114-128 | Every removal of seeds paired with an addition keeps the seed total. |
| SowingFacts.StepConserves | src/algorithm/Board.java:112-162 | One iteration of the sowing loop, with its capture, keeps the seed total. |
| SowingFacts.SowConserves | src/algorithm/Board.java:112-162 | Any number of sowing iterations keeps the seed total. |
| SowingFacts.SweepConserves | src/algorithm/Board.java:173-182 | `clear` keeps the seed total. |
| SowingFacts.MoveConserves | src/algorithm/Board.java:98-171 | After `transfer` the board holds exactly the seeds that were loaded. That is the total of entries 0..13 of the input when none of them is negative. |
| SowingFacts.StepKeepsOpponentHome | src/algorithm/Board.java:116-150 | One sowing iteration, with its capture, leaves the opponent's end zone unchanged. |
| SowingFacts.SowKeepsOpponentHome | src/algorithm/Board.java:112-162 | The whole sowing leaves the opponent's end zone unchanged. |
| SowingFacts.MoveTurn | src/algorithm/Board.java:99-168 | The returned turn is 0 when the game is over after sowing. Otherwise it is the opponent exactly when the source had seeds, none wrapped back into it, and the last landed in a small pit; in every other case it is the mover. |
| SowingFacts.ExtraTurn | src/algorithm/Board.java:131-159 | A last seed in the mover's own end zone gives the mover the next turn, unless the game is over. |
| SowingFacts.WrapSkipsRules | src/algorithm/Board.java:131 | A sowing that wraps back into its source pit applies no rule: no capture, and the turn stays with the mover. |
| SowingFacts.CaptureTakesOneSeed | src/algorithm/Board.java:137-150 | When the last seed lands in the mover's own empty small pit `d` across from a non-empty pit: `d` is emptied, the opposite pit loses one seed, the mover's end zone gains two, every other pit keeps its count, and the turn passes. |
| SowingFacts.SweepUpToAt | src/algorithm/Board.java:173-182 | After `clear` has visited pits 0..p-1, each visited small pit keeps the rounded-down half of its seeds and the others are untouched. |
| SowingFacts.SweepKeepsHalf | src/algorithm/Board.java:173-182 | After `clear` every small pit holds half its seeds, rounded down. A pit with two or more seeds is therefore not emptied. |
| SowingFacts.Banked | src/algorithm/Board.java:173-182 | Reference sum: the rounded-up halves of the pits of one row that `clear` has visited. |
| SowingFacts.SweepUpToHomes | src/algorithm/Board.java:173-182 | After `clear` has visited pits 0..p-1, end zone 6 has gained exactly the rounded-up halves of the visited pits among 0..5, and end zone 13 those of the visited pits among 7..12. |
| SowingFacts.SweepHomes | src/algorithm/Board.java:173-182 | After `clear`, each end zone holds its seeds plus the rounded-up halves of its own owner's six small pits; no seed crosses to the other side. |
| KalahExamples.StartSuffix | src/algorithm/Board.java:45-57 | The seeds of the opening position from pit `k` onwards: three per small pit. |
| KalahExamples.StartPosition | src/algorithm/Board.java:27-60 | The opening position has 3 seeds in each small pit and none in the end zones, 36 seeds in all. |
| KalahExamples.OpeningSteps | src/algorithm/Board.java:112-162 | The three iterations of the sowing loop for pit 2 of the opening position. |
| KalahExamples.OpeningMove | src/algorithm/Board.java:98-171 | Player 1 sowing pit 2 of the opening position puts one seed in each of pits 3, 4 and 5, and player 2 moves next. |
| KalahExamples.AfterOpeningNotOver | src/algorithm/Board.java:67-79 | The position after that move is not over. |
| KalahExamples.CaptureExample | src/algorithm/Board.java:137-158 | A single seed sown from pit 0 into the empty pit 1, across from pit 11 with 3 seeds, leaves 2 seeds in the end zone 6 and 2 in pit 11; player 2 moves next. |
| KalahExamples.AfterCaptureNotOver | src/algorithm/Board.java:67-79 | The position after the capture is not over. |
| KalahEvaluation.Zeros | src/algorithm/Player.java:39 | Computes the child board a new evaluator holds: `new int[14]`, fourteen zeros. |
| KalahEvaluation.ChildMove | src/algorithm/Player.java:229-241 | Computes the `k`-th move tried at a child position: pit `k` when the next player is 1, index `7 + k` otherwise. |
| KalahEvaluation.Initial | src/algorithm/Player.java:60-62 | Computes the starting best pair of `makePlay`: ratio -9999, score -9999, move 0. |
| KalahEvaluation.Sentinel | src/algorithm/Player.java:195-200 | Computes the marker triple `(-9999, -9999, -9999)` of an empty pit. |
| KalahEvaluation.SmallPitsBelow | src/algorithm/Player.java:204-207 | Computes the terminal-test sum after its loop has visited indices 0..i-1, leaving out 6. |
| KalahEvaluation.SmallPitTotal | src/algorithm/Player.java:204-209 | Computes the terminal-test sum over indices 0..12 except 6: the twelve small pits. |
| KalahEvaluation.AbsorbSlot | src/algorithm/Player.java:236-238 | Computes one slot of the aggregation: the child's value is added only when it equals -9999. |
| KalahEvaluation.Absorb | src/algorithm/Player.java:236-238 | Computes the aggregation of one child triple, slot by slot. |
| KalahEvaluation.Fold | src/algorithm/Player.java:229-251 | Computes the aggregation of the children's triples from a zero triple, in order. |
| KalahEvaluation.ValueOfMove | src/algorithm/Player.java:170-254 | Computes `getValueOfMove`: the marker triple for an empty pit; otherwise the move is simulated for its next player, and the child board `tmp` is scored as a leaf when its small pits are empty, or else by aggregating its six children one level deeper. |
| KalahEvaluation.Percent | src/algorithm/Player.java:73 | Computes `wins / outcomes * 100` as a real number, or +∞, −∞ or NaN when `outcomes` is 0. |
| KalahEvaluation.RatioOf | src/algorithm/Player.java:72-73 | Computes a column's ratio: -9999 when its outcome slot holds the marker, otherwise `Percent`. |
| KalahEvaluation.Greater | src/algorithm/Player.java:75 | Holds when one ratio is above another under floating-point `>`, which is false whenever a NaN is involved. |
| KalahEvaluation.Same | src/algorithm/Player.java:79 | Holds when two ratios are equal under floating-point `==`, which is false for NaN. |
| KalahEvaluation.Beats | src/algorithm/Player.java:75-83 | Holds when a column replaces the best so far: a strictly higher ratio, or an equal ratio and a strictly higher score. |
| KalahEvaluation.Credit | src/algorithm/Player.java:216-218 | The win credit is 1 exactly when the own end zone is ahead, 0.5 exactly on a tie, and 0 exactly when it is behind. |
| KalahEvaluation.Leaf | src/algorithm/Player.java:212-226 | A finished game counts one outcome, scored from the side `id` (end zone 6 for player 1, 13 otherwise): own end zone minus the other, with the credit of `Credit`. |
| KalahEvaluation.LeafZeroSum | src/algorithm/Player.java:212-226 | The two sides' leaf scores are opposite, and their win credits add up to one. |
| KalahEvaluation.FoldBySlot | src/algorithm/Player.java:229-251 | The aggregation treats the three slots independently. |
| KalahEvaluation.SlotFoldCounts | src/algorithm/Player.java:236-238 | A whole-number slot aggregates to the marker times the number of children holding the marker there. |
| KalahEvaluation.CreditFoldCounts | src/algorithm/Player.java:237 | The win-credit slot aggregates to the marker times the number of children holding the marker there. |
| KalahEvaluation.FoldCountsMarkers | src/algorithm/Player.java:229-251 | Each aggregated slot is -9999 times the number of children whose value in that slot is exactly -9999. Every other child value is dropped. |
| KalahEvaluation.FoldBounds | src/algorithm/Player.java:229-251 | No aggregated slot is positive, and none is below `-9999` times the number of children. |
| KalahEvaluation.TriedIsSowable | src/algorithm/Player.java:229-246 | Every move the evaluator tries maps to a small pit. Player 2's absolute indices 7..12 are mirrored onto the opponent's pits 5..0. |
| KalahEvaluation.ChildValues | src/algorithm/Player.java:229-251 | A finished list of child values has one value per child tried. |
| KalahEvaluation.ChildValuesStep | src/algorithm/Player.java:235-238 | Evaluating one more child appends its value, and the aggregate absorbs it. |
| KalahEvaluation.ChildOverflowPersists | src/algorithm/Player.java:230-250 | Once one child overflows, the whole aggregation overflows. |
| KalahEvaluation.ValueOfMoveFuel | src/algorithm/Player.java:170-254 | A finished evaluation gives the same triple under any larger depth bound, so a result reached within the bound is the result of the unbounded recursion. |
| KalahEvaluation.ChildValuesFuel | src/algorithm/Player.java:229-251 | The same for the values of a node's children. |
| KalahEvaluation.ValueOfMoveShape | src/algorithm/Player.java:170-254 | A finished evaluation is one of three things: the marker triple for an empty pit, the leaf triple of the child board when its small pits are empty, or an aggregate whose slots lie between six markers and zero. |
| KalahEvaluation.SmallPitsBelowZero | src/algorithm/Player.java:204-209 | On a non-negative board, the partial small-pit sum is zero exactly when those pits are all empty. |
| KalahEvaluation.TerminalIffEmpty | src/algorithm/Player.java:204-209 | On a non-negative board the terminal test holds exactly when all twelve small pits are empty; the end zones do not count. |
| KalahEvaluation.TerminalIsGameOver | src/algorithm/Player.java:204-209 | A terminal position is over for the board as well. |
| KalahEvaluation.GameOverNotTerminal | src/algorithm/Player.java:204-209 | A board can be over (one row empty) and still not be terminal for the evaluator. |
| KalahEvaluation.ZeroChildBoardDraws | src/algorithm/Player.java:179-226 | With the child board left as constructed, every playable move scores as one drawn finished game, `(0, 0.5, 1)`. |
| KalahEvaluation.FullChildBoardOverflows | src/algorithm/Player.java:186-251 | With a child board whose small pits are all non-empty, a playable move overflows at every depth: the recursion never reaches a leaf. |
| KalahEvaluation.ChildrenOverflow | src/algorithm/Player.java:229-251 | On such a child board the aggregation of one or more children overflows. |
| KalahEvaluation.SmallPitsBelowPositive | src/algorithm/Player.java:204-209 | A board with seeds in every small pit is not terminal. |
| KalahEvaluation.MoveTable | src/algorithm/Player.java:105-128 | A finished table of the first `k` pits has `k` columns. |
| KalahEvaluation.TableOverflowPersists | src/algorithm/Player.java:110-128 | Once a column overflows, the whole table overflows. |
| KalahEvaluation.MoveTableColumns | src/algorithm/Player.java:109-128 | Every column of a finished table is the evaluator's value of its pit, empty pits included. |
| KalahEvaluation.MoveTableOverflow | src/algorithm/Player.java:109-128 | The table overflows only when the evaluator overflows on one of its pits. |
| KalahEvaluation.MoveTableFuel | src/algorithm/Player.java:105-128 | A finished move table is the same under any larger depth bound. |
| KalahEvaluation.EmptyPitColumn | src/algorithm/Player.java:179-200 | The evaluator itself gives an empty pit the marker triple that the table writes. |
| KalahEvaluation.SelectUpTo | src/algorithm/Player.java:60-83 | The chosen move is between 0 and the number of columns seen. Move 0 keeps the starting pair; otherwise the pair is that column's ratio and score. |
| KalahEvaluation.Select | src/algorithm/Player.java:57-97 | `makePlay` returns a move between 0 and 6. |
| KalahEvaluation.SelectIsArgMax | src/algorithm/Player.java:70-83 | A column whose ratio is NaN is never chosen. NaN is 0/0: an aggregated node none of whose children holds the marker in the win-credit slot or in the outcome slot, whatever its score slot holds. No column beats the chosen (ratio, score) pair, and the chosen column strictly beats every earlier non-NaN column, so ties keep the earliest index. The result is 0 exactly when no column beats the starting pair (-9999, -9999). |
| KalahEvaluation.BeatsTransitive | src/algorithm/Player.java:75-83 | A column that beats the best pair also beats any non-NaN column that does not. |
| KalahEvaluation.NotBeatsTransitive | src/algorithm/Player.java:75-83 | A column that does not beat the best pair does not beat a column that does. |
| KalahEvaluation.AllEmptySelectsNone | src/algorithm/Player.java:70-83 | A table of marker columns selects move 0. |
| KalahEvaluation.FirstNonEmpty | src/algorithm/Player.java:116 | The first non-empty pit among the first `k`, with all pits before it empty. |
| KalahEvaluation.ZeroChildBoardTable | src/algorithm/Player.java:109-128 | With the child board left as constructed, the table holds the marker triple for an empty pit and a drawn finished game otherwise. |
| KalahEvaluation.DrawTableSelectsFirst | src/algorithm/Player.java:70-83 | On such a table the selection is the leftmost non-empty pit, 1-based, or 0 when all are empty. |
| KalahEvaluation.ZeroChildBoardPicksFirst | src/algorithm/Player.java:57-128 | With the child board left as constructed, `makePlay` for player 1 returns the leftmost non-empty pit, 1-based, whatever the rest of the position. |
| KalahEvaluation.SelectSamePrefix | src/algorithm/Player.java:70-83 | The selection over the first `k` columns depends only on those columns. |
| KalahPlayer.Player.constructor | src/algorithm/Player.java:36-41 | A new evaluator plays for `player`, with an all-zero child board and a fresh simulation board. |
| KalahPlayer.Player.SetTmpBoard | src/algorithm/Player.java:47-50 | The child board becomes the given array itself, not a copy. |
| KalahPlayer.Player.GetValueOfMove | src/algorithm/Player.java:170-254 | The returned triple is `ValueOfMove` of the evaluator's side, the child board, the move and the current board. |
| KalahPlayer.Player.SumSmallPits | src/algorithm/Player.java:204-207 | The loop computes the sum of the twelve small pits. |
| KalahPlayer.Player.ScoreLeaf | src/algorithm/Player.java:212-226 | The triple is the leaf triple of the board from the evaluator's side. |
| KalahPlayer.Player.Aggregate | src/algorithm/Player.java:229-251 | The result is the marker-only aggregation of the six children's values, or an overflow when a child overflows. |
| KalahPlayer.Player.AddMarkers | src/algorithm/Player.java:236-238 | One child is absorbed: each slot is added only when it holds the marker. |
| KalahPlayer.Player.GetMoveArray | src/algorithm/Player.java:105-128 | The table is `MoveTable` of the child board and the given board. |
| KalahPlayer.Player.MakePlay | src/algorithm/Player.java:57-98 | The result is `Select` of that table, or an overflow. |

## Left out

- Console output: every `System.out` call in `Player.java`, the `main` method (`src/algorithm/Player.java:256-260`) and the `scoreArray` that is only printed.
- KalahAlgorithm/kalah/Board.java is not part of this model. It is a partial older copy of the board whose `transfer` only throws.
- The classes `Piece`, `Store`, `House` and `Seed` are not part of this model. Each piece is modelled as its seed count, with `getItem` removing one seed, `putItem` adding one and `getCount` returning the count. Seed identities have no observable effect.
- `convertToIntArray` iterates a `HashMap`'s values; the model assumes ascending key order 0..13. `clear` iterates the same way, but its result does not depend on the order.
- Java exceptions are preconditions:
  - `KalahBoard.Board.Transfer` requires the mapped source to be a small pit; an end zone would fail the `Store` cast and an index outside 0..13 a null lookup.
  - `KalahBoard.Board.SetBoard`, `KalahBoard.Board.Transfer`, `KalahRules.Load` and `KalahRules.Move` require at least 14 entries; a shorter array makes `setBoard` index past its end. Entries past 13 are never read, as in the source.
  - `KalahPlayer.Player.GetValueOfMove` accepts only the moves the evaluator itself tries: 0..5 for player 1, 7..12 otherwise.
- KalahPlayer.Player.SetTmpBoard: requires exactly 14 entries, and so does every board the evaluator reads (`GetValueOfMove`, `GetMoveArray`, `MakePlay`). The source stores any array. A shorter one fails only later, when `getValueOfMove` reads indices up to 13 of it. A longer one works, and its extra entries are never read. The model does not take such arrays.
- KalahPlayer.Player.GetMoveArray: models player 1 only, and so does KalahPlayer.Player.MakePlay. The player-2 branch (`src/algorithm/Player.java:130-147`) writes columns 7..12 of a six-column array, which throws.
- KalahPlayer.Player.constructor: the source calls `new Board(this)`, and `Board` has no such constructor; the model uses the no-argument `Board()`.
- The `originalBoard` field is set by the constructor and never read; it is not modelled.
- KalahPlayer.Player.GetValueOfMove: the unbounded recursion carries a depth `fuel`, and `Overflow` stands for the stack overflow; any result reached within the bound is the source's result (`KalahEvaluation.ValueOfMoveFuel`).
- The player-2 index mix-up is kept, not fixed: the evaluator passes 7..12 to `transfer`, which mirrors them onto pits 5..0 (`KalahEvaluation.TriedIsSowable`).
- The six evaluations of a node run on one shared simulation board that each `transfer` overwrites. Its contents do not reach the result, so only its frame is tracked.
- Floating point: the win ratio of `makePlay` is computed in real arithmetic, with +∞, −∞ and NaN for a division by zero. Rounding of `double` is not modelled. Score and outcome slots are integers in the model; in the source they are `double`s holding whole numbers, and `(int)` of the score is exact.
- KalahPlayer.Player.SumSmallPits: Java's `int` is 32 bits and wraps around, while the model's sums and differences are unbounded. They agree only while every intermediate value stays within `int` range. This applies to the terminal-test sum `sum += newBoard[i]` (`src/algorithm/Player.java:204-207`), so a child board whose small pits add up to a multiple of 2^32 counts as terminal in Java but not in the model. It applies equally to KalahPlayer.Player.ScoreLeaf and KalahEvaluation.Leaf for `newBoard[6] - newBoard[13]` (`src/algorithm/Player.java:215`, `221`), and to KalahEvaluation.SmallPitTotal. On boards reached by play, with at most the 36 starting seeds, no value comes near the limit.
- The move table is a sequence of six column triples instead of a `double[3][6]` array.
