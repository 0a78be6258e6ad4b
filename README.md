# Kalah-style Mancala rules engine, in Dafny

This project models the `Board` class of a Mancala player, the rules engine that a
Monte-Carlo tree search plays over. The board is a list of 15 slots:

- slots 0-5 are player 1's pits and slot 6 is player 1's store (home);
- slots 7-12 are player 2's pits and slot 13 is player 2's store;
- slot 14 repeats whose turn it is (1 or 2).

Beside the list, a `Board` holds `is_player_1s_turn`, `player` and `game_over`.
A move empties one of the mover's pits and sows its marbles one per slot by
increasing index modulo 14, jumping over the opponent's store. Then three rules
apply in order. The capture rule: a last marble alone in a pit on the mover's
side takes the pit opposite. The free-turn rule: a last marble in the mover's
store keeps the turn. The end-of-game rule: a store over 24 or an empty side
sweeps every pit into its own store and ends the game.

Layout:

- `sums.dfy` (module `Sums`) has sums of marble counts and their lemmas.
- `rules.dfy` (module `Rules`) has the pure queries of `Board` as functions over
  the slot sequence: legal moves, next pit to sow, homes, own side, opposite pit,
  empty side, winner, tie. It also has `GameState`, the value of a whole `Board`
  object, and `Move`, what one call of `process_move` does to that value. `Move`
  is built from the stages `Sow`, `Capture`/`Steal`, `Sweep` and `Switch`.
- `board.dfy` (module `Engine`) has the class `Board`. It holds an `array<int>` of
  15 slots and the three flags. `ProcessMove`, `SowMarbles` (the sowing loop),
  `StealMarbles`, `CleanUpWinningMarbles` (whose two identical loops, one per
  side, are the one method `EmptySideIntoStore`) and `SwitchPlayer`
  update them in place. Each one is proved to leave exactly the state that the
  matching `Rules` function gives.
- `properties.dfy` (module `RulesFacts`) has what the rules guarantee. No marble
  is created or lost. The turn records stay in agreement. The opponent's store
  is never sown into. It also proves the capture, free-turn and end-of-game
  rules, the scoring, the worked example from the start position, and that every
  sequence of moves from the start keeps 48 marbles.

Three details of the code that the model keeps:

- An illegal move is not rejected with an error. `process_move` prints a message
  and returns, leaving the state unchanged (`src/rules/Mancala.py:34-37`).
- `steal_marbles` always banks 1 plus the opposite pit. It does not bank the
  count of the landing pit. The two agree because the caller only captures when
  that pit holds exactly 1.
- `process_move` does not look at `game_over`. A finished game stays finished
  only because the sweep empties every pit, so every later move is illegal and
  ignored (`RulesFacts.EmptyPitsFreezeGame`).

`Rules.WellFormed` (the class's `Valid()`) holds in every state a game reaches.
It requires 15 slots, no negative count, and `player == (1 if
is_player_1s_turn else 2) == slot 14`. The constructor establishes it and every
method keeps it.

## Model

| member | source | states |
|---|---|---|
| `Engine.Board.constructor` | src/rules/Mancala.py:2-13 | a new board is the initial state: player 1 to move, `player == 1`, not over |
| `Rules.InitialBoard` | src/rules/Mancala.py:18-25 | 4 marbles in every pit, 0 in both stores, 1 in the turn slot |
| `Rules.InitialState` | src/rules/Mancala.py:2-8 | the initial state has the initial board, is well formed, has player 1 to move, `player == 1`, `game_over` false |
| `RulesFacts.InitialTotal` | src/rules/Mancala.py:25 | the starting board holds 48 marbles |
| `Rules.MovesFrom` | src/rules/Mancala.py:95-110 | the filter over slots from `i` on keeps exactly the non-empty pits of the mover, strictly ascending |
| `Rules.LegalMoves` | src/rules/Mancala.py:95-110 | a slot is returned iff it is a non-empty pit of the mover (0-5 or 7-12); stores and slot 14 never; ascending |
| `RulesFacts.FullSideMoves` | src/rules/Mancala.py:95-110 | with all six of the mover's pits non-empty the moves are exactly 0-5, or 7-12 for player 2 |
| `RulesFacts.InitialLegalMoves` | src/rules/Mancala.py:95-110 | player 1's first legal moves are [0, 1, 2, 3, 4, 5] |
| `Engine.Board.WhoseTurn` | src/rules/Mancala.py:117-118 | the turn number agrees with `player` and slot 14, and is 1 iff it is player 1's turn |
| `Rules.Switch` | src/rules/Mancala.py:112-115 | the turn flag flips, `player` and slot 14 both record the new mover, slots 0-13 and `game_over` are kept |
| `Engine.Board.SwitchPlayer` | src/rules/Mancala.py:112-115 | flips the turn flag and records the new player in `player` and slot 14 |
| `Rules.EnemyHome` | src/rules/Mancala.py:137-141 | the opponent's store: slot 13 on player 1's turn, slot 6 on player 2's |
| `Rules.OwnHome` | src/rules/Mancala.py:143-147 | the mover's store: slot 6 on player 1's turn, slot 13 on player 2's |
| `Rules.OwnSidePit` | src/rules/Mancala.py:270-273 | slots below 6 on player 1's turn, slots 7-12 on player 2's |
| `Rules.PitToAdd` | src/rules/Mancala.py:120-135 | the next slot is one on modulo 14, or two on when that is the opponent's store; never the opponent's store |
| `Rules.OppositePit` | src/rules/Mancala.py:12-13 | defined exactly for the 12 pits, and maps pit p to pit 12 - p |
| `Rules.CountZeros` | src/rules/Mancala.py:176-180 | the count of zeros equals the length iff every entry is zero |
| `Rules.MarblesGoneOnOneSide` | src/rules/Mancala.py:174-183 | true iff pits 0-5 are all empty or pits 7-12 are all empty |
| `Rules.Sow` | src/rules/Mancala.py:45-54 | sowing at least one marble never ends on the opponent's store, and always ends on one of the 14 marble slots |
| `RulesFacts.SowOnlyAdds` | src/rules/Mancala.py:45-54 | sowing never adds to the opponent's store or the turn slot, never lowers a slot, and ends on a slot it raised |
| `RulesFacts.SowConserves` | src/rules/Mancala.py:49-54 | sowing n marbles raises the marble total by exactly n |
| `RulesFacts.SowWithoutWrap` | src/rules/Mancala.py:49-54 | a sow that stays below slot 14 and skips no store puts one marble in each of the next n slots and ends n slots on |
| `Engine.Board.SowMarbles` | src/rules/Mancala.py:39-54 | the sowing loop leaves the array and last pit that `Sow` gives for the emptied pit |
| `Rules.Steal` | src/rules/Mancala.py:275-294 | an empty opposite pit leaves the board alone; otherwise both pits become 0, the mover's store gains 1 plus the opposite count, and no other slot changes |
| `Engine.Board.StealMarbles` | src/rules/Mancala.py:275-294 | the in-place capture leaves the array that `Steal` gives |
| `RulesFacts.StealConserves` | src/rules/Mancala.py:282-294 | a capture from a pit holding 1 keeps the marble total |
| `RulesFacts.SweepFacts` | src/rules/Mancala.py:243-263 | the sweep empties all 12 pits, adds each side's pits to its own store, keeps the total, and the stores then hold it all |
| `Engine.Board.CleanUpWinningMarbles` | src/rules/Mancala.py:243-263 | the two sweep loops leave the array that `Sweep` gives |
| `Engine.Board.EmptySideIntoStore` | src/rules/Mancala.py:246-263 | one sweep loop empties six consecutive pits, adds their sum to the store after them, and changes no other slot |
| `Rules.Sweep` | src/rules/Mancala.py:243-263 | each side's pits emptied into that side's store; its properties are stated by `RulesFacts.SweepFacts` |
| `Rules.Winner` | src/rules/Mancala.py:152-161 | the result is in {-1, 0, 1}; 1 iff store 6 exceeds store 13, -1 iff it is smaller |
| `Rules.IsTie` | src/rules/Mancala.py:149-150 | the two stores hold the same count; `RulesFacts.TieIsDraw` ties it to `Winner` |
| `RulesFacts.TieIsDraw` | src/rules/Mancala.py:149-150 | `is_tie` holds exactly when `get_winner` is 0 |
| `Rules.Capture` | src/rules/Mancala.py:56-59 | the capture step never changes the turn slot or the opponent's store; `RulesFacts.CaptureTakesOpposite` and `RulesFacts.NoCaptureFromEmpty` state its two outcomes |
| `Rules.GameEnds` | src/rules/Mancala.py:65-68 | a store over 24 or an empty side; `RulesFacts.EndOfGameSweeps` states what follows |
| `Rules.Move` | src/rules/Mancala.py:27-74 | one call of `process_move` on the whole state; its properties are the `RulesFacts` lemmas on `Move` below |
| `Engine.Board.IsGameOver` | src/rules/Mancala.py:171-172 | reads `game_over`; `RulesFacts.Reachable` states that a finished game has every pit empty |
| `Engine.Board.ProcessMove` | src/rules/Mancala.py:27-74 | the object ends in the state `Move` gives for the old state and the move, and stays valid |
| `RulesFacts.IllegalMoveIgnored` | src/rules/Mancala.py:34-37 | a move that is not legal changes neither the board, the turn flags nor `game_over` |
| `RulesFacts.MoveConservesMarbles` | src/rules/Mancala.py:27-74 | the marble total over slots 0-13 is the same before and after every move, capture and sweep included |
| `RulesFacts.CaptureConserves` | src/rules/Mancala.py:56-59 | the capture step keeps the marble total |
| `RulesFacts.FinishConserves` | src/rules/Mancala.py:61-74 | the end-of-game sweep and the turn hand-over keep the marble total |
| `RulesFacts.MovePreservesWellFormed` | src/rules/Mancala.py:61-74 | after any move `player`, slot 14 and the turn flag still agree and no count is negative |
| `RulesFacts.EnemyStoreUntouched` | src/rules/Mancala.py:120-141 | a move that does not end the game leaves the opponent's store as it was |
| `RulesFacts.CaptureTakesOpposite` | src/rules/Mancala.py:56-59 | a lone last marble on the mover's side across from a non-empty pit empties both pits into the mover's store, which gains 1 plus the opposite count, when the move does not end the game |
| `RulesFacts.NoCaptureFromEmpty` | src/rules/Mancala.py:277-280 | across from an empty pit the capture step leaves the sown board unchanged |
| `RulesFacts.TurnAfterMove` | src/rules/Mancala.py:61-74 | the turn stays iff the last marble reached the mover's store or the game ended; `game_over` is set iff the game ended |
| `RulesFacts.ExactCountKeepsTurn` | src/rules/Mancala.py:61-63 | a pit holding exactly its distance to the mover's store ends in that store and keeps the turn |
| `RulesFacts.EndOfGameSweeps` | src/rules/Mancala.py:65-71 | when the game ends the board is exactly the sweep of the captured board (so each store gains its own side's pits, see `RulesFacts.SweepFacts`), all pits are 0, the two stores hold every marble, `game_over` is set and the turn does not change |
| `RulesFacts.EmptyPitsFreezeGame` | src/rules/Mancala.py:34-37 | with every pit empty there are no legal moves and every move leaves the state unchanged |
| `RulesFacts.FirstMovePitTwo` | src/rules/Mancala.py:27-74 | from the start, moving pit 2 gives [4,4,0,5,5,5,1,4,4,4,4,4,4,0,1] with player 1 still to move |
| `RulesFacts.MoveKeepsReachable` | src/rules/Mancala.py:27-74 | one move keeps a state well formed, at 48 marbles, and with all pits empty once the game is over |
| `RulesFacts.PlayKeepsReachable` | src/rules/Mancala.py:27-74 | any sequence of moves keeps those three facts |
| `RulesFacts.GamesFromStartAreReachable` | src/rules/Mancala.py:2-8 | every sequence of moves from the initial board keeps them |

## Left out

- Printing and string formatting are display only and are not modelled: `__str__`,
  `print_current_board`, `board_key`, `current_board_str`, `get_winner_string`,
  and every `is_printing` / `is_debug_printing` branch. The message printed for
  an illegal move is left out too; only the early return is modelled.
- `policy_for_legal_moves` and `policy_dict_for_legal_moves` are not modelled.
  They normalise floating-point network output.
- The `winner` field is not modelled. It is set to `None` and never updated.
- `player_1_pit` and `player_2_pit` are never reassigned. They are modelled as
  the constants `Player1Store` and `Player2Store`, and `pairs` as the constant
  map `Pairs`.
- `get_winner` and `is_tie` are modelled as functions of the slot sequence
  (`Rules.Winner`, `Rules.IsTie`), not as methods of the object.
- The search engine and self-play driver (`src/JasonMonteCarlo.py`) are not part
  of this model. They depend on a neural network, multiprocessing, file I/O and
  the search-tree class `Node`.
- Python integers are unbounded and so are Dafny's `int`, so there is no overflow
  to model.
