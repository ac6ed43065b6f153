# Super tic-tac-toe game state, in Dafny

A model of the game-state engine of the super tic-tac-toe program
(`src/game.rs`), with its properties proved. The program has nine 3x3
boards. Two players, X and O, put marks in cells. A board's winner is found
by scanning eight fixed lines: three rows, three columns and two diagonals.

- `grid.dfy`, module `Grid`. The value-level vocabulary:
  - `Player` and `Location`.
  - `Index`: the `location as usize` cast, row by row.
  - The eight `WinningLines` in the source's order.
  - `Winner`: the pure first-match scan that `Board::find_winner` performs.
  - Lemmas that describe exactly what that scan returns.
- `moves.dfy`, module `Moves`. The observable state of one board as a value (`BoardView`: nine marks and the cached winner):
  - `AfterMove`: the effect of `Board::place_move` on that value.
  - `Play`: any sequence of such calls.
  - Lemmas about what a sequence of moves can and cannot change.
- `engine.dfy`, module `Engine`. The source's mutable objects as classes:
  - `Cell`: a write-once slot.
  - `Board`: an array of nine distinct `Cell`s, plus the cached `winner`.
  - `Game`: an array of nine `Board`s with disjoint footprints.
  - `Board` and `Game` each have a `Valid()` invariant and a ghost `Contents` that gives their abstract value. `Cell`'s one field, `slot`, is its own abstract value.
  - `Board.PlaceMove` is proved to do exactly what `AfterMove` says.
  - `Game.PlaceMove` is proved to apply `AfterMove` to the board it names and to leave the other eight boards alone.

The cached winner is part of the object invariant. `Board.Valid()` requires
`winner == Winner(Contents)`, and every method preserves it.

Where src/main.rs relies on more than src/game.rs defines, the model follows src/game.rs:
- `Game::place_move` returns nothing. It discards the result of the inner `Board::place_move` (src/game.rs:60-62).
- `Game` has no winner of its own, and no `board_is_won` method.

## Model

| member | source | states |
|---|---|---|
| Grid.Index | src/game.rs:8-18 | each location's index is below 9, so every access to `cells[cell as usize]` or `boards[board as usize]` is in bounds |
| Grid.FromIndex | src/game.rs:8-18 | every index 0..8 is the index of some location, the one at that position in declaration order |
| Grid.IndexBijective | src/game.rs:8-18 | `location as usize` is a bijection between the nine locations and 0..8: distinct variants get distinct indices |
| Grid.LineOwner | src/game.rs:137-145 | the single-line test returns `Some(p)` exactly when all three cells of the line hold `p`, and `None` otherwise |
| Grid.FirstOwnerSome | src/game.rs:136-148 | the first-match scan over any list of lines returns `Some(p)` if and only if some line is all `p` and no earlier line is owned by anyone |
| Grid.FirstOwnerNone | src/game.rs:136-148 | the scan returns `None` if and only if no line in the list has an owner |
| Grid.WinnerCharacterization | src/game.rs:124-148 | `find_winner` returns `Some(p)` if and only if one of the eight winning lines is all `p` and no earlier line, in declaration order, is complete; it returns `None` if and only if no winning line is all one player's |
| Grid.WinnerOwnsALine | src/game.rs:124-148 | a winner always holds a full winning line, and a full winning line always produces some winner |
| Grid.EmptyHasNoWinner | src/game.rs:107-109 | `find_winner` of a new board's cells is `None` |
| Grid.LinesHaveThreeCells | src/game.rs:125-134 | each of the eight winning lines names three different locations |
| Grid.FewMarksNoWinner | src/game.rs:124-148 | a board with fewer than three marks has no winner |
| Grid.Placed | src/game.rs:124-148 | helper, not a model of source code: the board on which one player holds exactly a given set of locations (that player's mark there, nothing elsewhere), used to state `Grid.WinExactlyOnLines` |
| Grid.WinExactlyOnLines | src/game.rs:125-134 | when only `p` has played, `find_winner` gives `Some(p)` if and only if the occupied locations contain one of the eight lines, so no other set of cells counts as a win |
| Grid.Mirror | src/game.rs:124-148 | helper, not a model of source code: the board with X exactly where the original has O and O exactly where it has X, used to state `Grid.MirrorWinner` |
| Grid.MirrorFirstOwner | src/game.rs:136-148 | swapping every mark swaps the result of the first-match scan over any list of lines |
| Grid.MirrorWinner | src/game.rs:124-148 | swapping every X with O and back swaps the winner that `find_winner` returns |
| Moves.EmptyBoardConsistent | src/game.rs:107-109 | a new board has nine empty cells and `winner == None`, which agrees with `find_winner` |
| Moves.AfterMove | src/game.rs:115-122 | the board changes if and only if the move is accepted, meaning no winner yet and an empty target cell; an accepted move marks the target cell; no other cell changes; an occupied cell never changes; a won board does not change; the invariant "cached winner = recomputed winner" is preserved |
| Moves.OnlyMoverWins | src/game.rs:115-122 | when a move changes the cached winner of a consistent board, the new winner is the player who moved |
| Moves.PlayConsistent | src/game.rs:115-122 | over any sequence of `place_move` calls, the cached winner stays equal to a recomputation from the cells |
| Moves.ReachableConsistent | src/game.rs:107-122 | every board reachable from `Board::new` by `place_move` calls has a consistent cached winner |
| Moves.PlayWriteOnce | src/game.rs:32-39 | an occupied cell keeps its mark through any sequence of later moves |
| Moves.PlayFrozen | src/game.rs:116-121 | once a board has a winner, no sequence of moves changes its cells or its winner |
| Moves.PlayAppend | src/game.rs:115-122 | playing two sequences of moves one after the other is the same as playing their concatenation |
| Moves.PlayWinnerMonotone | src/game.rs:116-118 | once `winner` is `Some(p)` it stays `Some(p)` whatever moves follow |
| Moves.TopRowScenario | src/game.rs:115-148 | on a new board, X at TopLeft and then at Top leaves the board open; X at TopRight then wins it; a later O move into the still-empty Middle changes nothing |
| Moves.TopRowPlay | src/game.rs:115-148 | the same four moves as a sequence leave X as the winner |
| Engine.Cell.constructor | src/game.rs:20-21 | `Cell::default()` is empty |
| Engine.Cell.IsEmpty | src/game.rs:24-30 | `is_empty()` holds exactly when `player()` is `None` |
| Engine.Cell.PlaceMove | src/game.rs:32-39 | on an empty cell: the cell becomes `Some(player)` and the result is true; on an occupied cell: the result is false and the cell is unchanged |
| Engine.Cell.Label | src/game.rs:41-47 | the label is `' '` exactly for an empty cell, `'X'` exactly for X and `'O'` exactly for O |
| Engine.LabelDistinguishes | src/game.rs:41-47 | two cells have the same label if and only if they hold the same mark |
| Engine.Board.constructor | src/game.rs:107-109 | a new board has nine distinct empty cells and no winner, and its invariant holds |
| Engine.Board.IsEmpty | src/game.rs:111-113 | `is_empty(cell)` holds exactly when that cell of the board has no mark |
| Engine.Board.FindWinner | src/game.rs:124-149 | the loop over the eight lines, with its early return, computes `Winner` of the board's marks |
| Engine.Board.PlaceMove | src/game.rs:115-122 | the result is true exactly when the board had no winner and the target cell was empty; the new state is `AfterMove` of the old one, so only the target cell changes and `winner` becomes `find_winner()`; the invariant `winner == find_winner(cells)` is kept; a won board keeps its cells and winner |
| Engine.Game.constructor | src/game.rs:56-58 | a new game has nine new, separate, empty boards |
| Engine.Game.PlaceMove | src/game.rs:60-62 | board `board` changes exactly as `Board::place_move(player, cell)` would change it; the other eight boards are unchanged; the invariant of every board is kept |
| Engine.TopRowScenario | src/game.rs:60-62 | through `Game::place_move` on a new game, X's three moves along the top row of the top-left board win it for X; O's next move into its centre is refused; board Bottom, which no move named, is still a valid, entirely empty board |

## Left out

- `Board::lines`, `Board::print`, `Game::lines` and `Game::print` (src/game.rs:64-97, src/game.rs:151-183) are left out. They only build text with box-drawing characters and write it to standard output.
- `src/main.rs` is not part of this model. It is a console loop that reads standard input and prints prompts.
  - It calls `Game::winner`, `Game::board_is_won`, `Location::from_input`, `Player::opponent` and `to_string`. None of these is defined in `src/game.rs`, so their behaviour is not modelled.
  - It also uses a result of `Game::place_move`, which in `src/game.rs` returns nothing.
- The following are not implemented in `src/game.rs` and are left out: a winner of the whole game (three boards won in a row), and the rule that the next move goes to the board named by the last cell played.
- Rust value semantics are not modelled as such. `Board` and `Game` are `Copy` values in the source. Here they are objects, and `Valid()` requires that every cell and board is a separate object with a separate footprint. So `[Board::new(); 9]` and `[Cell::default(); 9]` become nine separate constructions in a loop.
- The derived `Debug`, `Hash`, `Clone` and `PartialEq` implementations are left out. Equality of two `Cell`s, in `find_winner`, is modelled as equality of their marks.
- `Cell::player` (src/game.rs:24-26) is the plain getter `Engine.Cell.Occupant`, which has no contract of its own. Its meaning is stated through `Engine.Cell.IsEmpty`, `Engine.Cell.Label` and `Engine.Cell.PlaceMove`.
- `Grid.OtherPlayer`, `Grid.SwapMark` and `Grid.Mirror` exist only to state the symmetry property `Grid.MirrorWinner`. They are not a model of the driver's `Player::opponent`.
