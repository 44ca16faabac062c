# Chess engine state and moves, in Dafny

This project models the board-and-move bookkeeping of a small Python chess
program (`Chess/ChessEngine.py`). It also proves what that code guarantees.

- `GameState` holds an 8 by 8 board of two-character piece codes such as
  `"wp"` or `"bK"`. The code `"--"` marks an empty square.
- It also holds a `white_to_move` flag and a log of the moves applied so far.
- `make_move` clears the start square and writes the moved piece on the end
  square. It then appends the move to the log and passes the turn.
- `make_move` ignores a move whose recorded moved piece is empty.
- `Move` records two squares and reads the pieces on them from a board. It
  renders itself in coordinate notation such as `e2e4` through two lookup
  tables and their inverted copies.

Files:

- `runtime.dfy` (module `Runtime`) holds the Python behaviour the engine
  relies on:
  - list subscripts, where a negative subscript counts from the end and
    anything outside `-n .. n-1` raises IndexError;
  - dictionary lookup, where a missing key raises KeyError;
  - the dictionary comprehension that inverts a table.
  The engine's exceptions are values: `Result` for an expression and
  `Outcome` for a call that returns nothing.
- `move.dfy` (module `ChessMove`) holds `Move` as a datatype, the four
  tables, the constructor `NewMove`, and `RankFile` and `Notation`
  (`get_rank_file`, `get_chess_notation`), with lemmas about them.
- `engine.dfy` (module `ChessEngine`) holds the game as a value (`Game`). It
  specifies `make_move` as the pure function `Apply`, with lemmas about
  `Apply`. It also holds the class `GameState`, whose board is an
  `array2<string>` updated in place. `GameState.MakeMove` is proved to do
  exactly what `Apply` says to the board, the turn flag and the log.

Two behaviours of the Python code are kept on purpose:

- A `Move` keeps the subscripts it was given. A move built from `(-1, 0)`
  reaches the same square as one built from `(7, 0)`. So a move can have one
  square as both start and end even when its subscripts differ. In that case
  the second write wins and the piece stays.
- If the start subscript of a move indexes the board but the end subscript
  does not, `make_move` has already cleared the start square when the
  IndexError is raised. The model keeps that partial update.

A fuller chess engine would also generate legal moves, undo moves, track
the kings, detect check and stalemate, and promote pawns. This version of
`ChessEngine.py` does none of these, so the model follows the code and has
none of them either.

## Model

| member | source | states |
|---|---|---|
| `Runtime.ListIndex` | Chess/ChessEngine.py:60-61 | A list subscript succeeds exactly for `-n <= i < n`. It then reaches position `i` or `i + n`, which is below `n`. A subscript in `0..n-1` reaches itself. |
| `Runtime.Locate` | Chess/ChessEngine.py:60-61 | `board[row][col]` on a `rows` by `cols` board reaches a cell exactly when both subscripts are in Python's range. The cell is the pair of positions `ListIndex` gives for the row and the column, and it is on the board. |
| `Runtime.LocateNormalises` | Chess/ChessEngine.py:60-61 | An in-range subscript pair reaches the cell obtained by adding the dimension to each negative subscript and keeping each non-negative one. |
| `Runtime.LocateAliases` | Chess/ChessEngine.py:32-33 | Two in-range subscript pairs reach the same cell exactly when, coordinate by coordinate, they are equal or differ by the dimension. This covers the mixed case, for example `(-1, 0)` and `(7, 0)` on the 8 by 8 board. |
| `Runtime.Lookup` | Chess/ChessEngine.py:68 | A dictionary lookup returns the stored value exactly when the key is present, and raises KeyError otherwise. |
| `Runtime.Invert` | Chess/ChessEngine.py:45-46 | Inverting an injective table gives a table whose keys are the old values. Each direction undoes the other. |
| `ChessMove.NewMove` | Chess/ChessEngine.py:48-61 | A move keeps the four subscripts as given. `pieceMoved` is the piece on the start square and `pieceCaptured` the piece on the end square. It raises IndexError exactly when a subscript does not index the board. The board is only read. |
| `ChessMove.InvertedTables` | Chess/ChessEngine.py:40-46 | `rows_to_ranks` and `cols_to_files` have exactly the keys 0..7. Row `r` maps to rank `8 - r` and column `c` to file `'a' + c`. |
| `ChessMove.TablesAreInverse` | Chess/ChessEngine.py:40-46 | Each inverted table is the exact inverse of its original, in both directions, on rows and columns 0..7 and on the ranks and files. |
| `ChessMove.RankFile` | Chess/ChessEngine.py:67-68 | Its own contract says only that a result is two characters and that the only error is KeyError. Its behaviour is stated by the `ChessMove.RankFileSpec` row. |
| `ChessMove.Notation` | Chess/ChessEngine.py:64-65 | Its own contract says only that a result is four characters and that the only error is KeyError. Its behaviour is stated by the `ChessMove.NotationRoundTrip`, `ChessMove.NotationOffBoard` and `ChessMove.NotationOfParsed` rows. |
| `ChessMove.RankFileSpec` | Chess/ChessEngine.py:67-68 | `get_rank_file` succeeds exactly on the board, giving the file letter then the rank digit. Off the board it raises KeyError. |
| `ChessMove.NotationRoundTrip` | Chess/ChessEngine.py:64-68 | For on-board squares the notation has four characters: file and rank of the start, then file and rank of the end. `files_to_cols` and `ranks_to_rows` parse these back into the move's four coordinates. |
| `ChessMove.NotationOffBoard` | Chess/ChessEngine.py:64-68 | The notation exists exactly when both squares are on the board. Otherwise the lookups raise KeyError. |
| `ChessMove.NotationOfParsed` | Chess/ChessEngine.py:64-68 | Every four-character file-rank-file-rank string is the notation of the move it parses to. Together with the round trip, notation is therefore a bijection. |
| `ChessEngine.Put` | Chess/ChessEngine.py:32-33 | Assigning `board[row][col]` changes that cell to the new piece and keeps every other cell and every row length. |
| `ChessEngine.Apply` | Chess/ChessEngine.py:26-35 | Its own contract says only that the board stays 8 by 8 and that the only error is IndexError. Its behaviour is stated by the `ChessEngine.EmptyMoveIgnored`, `ChessEngine.MoveApplied`, `ChessEngine.MoveRaises`, `ChessEngine.ApplyKeepsShapeAndLog` and `ChessEngine.ApplyLogsMove` rows. |
| `ChessEngine.EmptyMoveIgnored` | Chess/ChessEngine.py:28-30 | A move whose moved piece is `"--"` leaves the board, the turn and the log unchanged and returns normally. |
| `ChessEngine.MoveApplied` | Chess/ChessEngine.py:32-35 | Any other move whose subscripts index the board returns normally. The end square then holds the moved piece. The start square is empty unless it is also the end square. No other square changes. The log gains exactly this move at its end, and the turn flips. |
| `ChessEngine.MoveRaises` | Chess/ChessEngine.py:32-33 | A bad subscript raises IndexError and leaves the turn and the log unchanged. With a bad start the board is unchanged. With a bad end only the start square has been cleared. |
| `ChessEngine.ApplyKeepsShapeAndLog` | Chess/ChessEngine.py:26-35 | In every case the board stays 8 by 8. The log is either unchanged or extended by exactly the given move, and the turn flips exactly when the log grows. |
| `ChessEngine.InitialTurn` | Chess/ChessEngine.py:13-24 | The starting game has an 8 by 8 board, White to move and an empty log, so the turn matches the parity of the log. |
| `ChessEngine.ApplyKeepsTurnMatchingLog` | Chess/ChessEngine.py:34-35 | "White to move exactly when the log has even length" is preserved by every call. |
| `ChessEngine.ApplyLogsMove` | Chess/ChessEngine.py:28-35 | For a move whose subscripts index the board, the call returns normally. It appends the move unless the move is ignored, and it flips the turn exactly when it appends. |
| `ChessEngine.PlayLogsMoves` | Chess/ChessEngine.py:26-35 | After any sequence of such moves, the log has grown by exactly the non-ignored moves, in order, and the turn still matches the parity of the log. |
| `ChessEngine.BuiltMoveApplies` | Chess/ChessEngine.py:26-61 | A move built from an 8 by 8 board never raises when applied to a game. |
| `ChessEngine.GameState.Cells` | Chess/ChessEngine.py:13-22 | The board read as a list of rows is 8 by 8 and agrees with the array on every square. |
| `ChessEngine.GameState.constructor` | Chess/ChessEngine.py:7-24 | A new state has a fresh 8 by 8 board with the starting layout square for square (Black at the top, `board[0][0]` is a8). White is to move and the move log is empty. |
| `ChessEngine.GameState.MakeMove` | Chess/ChessEngine.py:26-35 | The new board, turn flag, log and outcome are exactly what `Apply` gives for the old state. No square other than the move's start and end squares changes, and the board keeps its dimensions. |

## Left out

- `Chess/ChessMain.py` is not part of this model. It covers pygame set-up, image loading, the event loop and drawing. This is presentation and I/O over a library outside the program. The light/dark square colouring is presentational only.
- The debug output of `ChessMain.py` is not modelled, because it is I/O.
- Ragged boards are not modelled. Python's `Move(...)` accepts any list of lists, but `NewMove` reads a rectangular `array2`.
- The rank and file entries of the four tables are modelled as `char`. In Python they are one-character strings: the keys of `ranks_to_rows` and `files_to_cols` and the values of `rows_to_ranks` and `cols_to_files`. `get_rank_file` concatenates two of them.
- Subscripts and table keys are modelled as integers. Python's list subscripts also accept booleans, other integer-like objects and slices, and raise TypeError for anything else. The dictionary lookups in `get_rank_file` accept any value equal to a key, such as `True` or `1.0`, and raise KeyError for other hashable values. The model covers none of these cases.
- `move_log` holds references to `Move` objects, which Python could mutate, and the model logs values instead. Nothing in this code changes a `Move` after it is built, so the difference is never observed.
- `Move` has no equality of its own in the Python code, so object identity is what applies there. Nothing in this code compares moves, so the model's structural datatype equality is never observed.
- `ChessEngine.PlayLogsMoves` covers only sequences whose every move indexes the board. A sequence that raises ends where `Play` stops, and the lemma does not describe that end.
