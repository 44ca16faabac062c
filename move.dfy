/** The `Move` record of the chess engine: one ply, its squares as the caller
    gave them, the piece it moves and the piece it captures, and its
    coordinate notation (`e2e4`). */
module ChessMove {
  import opened Runtime

  /** A piece code such as "wp" or "bK"; "--" is the empty square. */
  type Piece = string

  const Empty: Piece := "--"

  /** Row and column subscripts are kept exactly as the caller passed them:
      Python accepts a negative subscript, so they are not normalised. */
  datatype Move = Move(
    startRow: int, startCol: int,
    endRow: int, endCol: int,
    pieceMoved: Piece,
    pieceCaptured: Piece)

  /** `ranks_to_rows`: rank "8" is row 0, the top of the board. */
  const RanksToRows: map<char, int> :=
    map['1' := 7, '2' := 6, '3' := 5, '4' := 4, '5' := 3, '6' := 2, '7' := 1, '8' := 0]

  /** `files_to_cols`: file "a" is column 0, at the left. */
  const FilesToCols: map<char, int> :=
    map['a' := 0, 'b' := 1, 'c' := 2, 'd' := 3, 'e' := 4, 'f' := 5, 'g' := 6, 'h' := 7]

  /** `rows_to_ranks`, built by inverting `ranks_to_rows`. */
  const RowsToRanks: map<int, char> := Invert(RanksToRows)

  /** `cols_to_files`, built by inverting `files_to_cols`. */
  const ColsToFiles: map<int, char> := Invert(FilesToCols)

  /** `Move(start_sq, end_sq, board)`: records both squares and reads the
      pieces on them. A subscript that does not index `board` raises
      IndexError. Being a function, it cannot change the board. */
  function NewMove(startSq: (int, int), endSq: (int, int), board: array2<Piece>): (r: Result<Move>)
    reads board
    ensures r.Ok? <==>
      Locate(startSq.0, startSq.1, board.Length0, board.Length1).Some? &&
      Locate(endSq.0, endSq.1, board.Length0, board.Length1).Some?
    ensures r.Raised? ==> r.error == IndexError
    ensures r.Ok? ==>
      var s := Locate(startSq.0, startSq.1, board.Length0, board.Length1).value;
      var e := Locate(endSq.0, endSq.1, board.Length0, board.Length1).value;
      r.value.startRow == startSq.0 && r.value.startCol == startSq.1 &&
      r.value.endRow == endSq.0 && r.value.endCol == endSq.1 &&
      r.value.pieceMoved == board[s.0, s.1] &&
      r.value.pieceCaptured == board[e.0, e.1]
  {
    match Locate(startSq.0, startSq.1, board.Length0, board.Length1)
    case None => Raised(IndexError)
    case Some(s) =>
      match Locate(endSq.0, endSq.1, board.Length0, board.Length1)
      case None => Raised(IndexError)
      case Some(e) =>
        Ok(Move(startSq.0, startSq.1, endSq.0, endSq.1, board[s.0, s.1], board[e.0, e.1]))
  }

  /** `get_rank_file(row, col)`: the file letter, then the rank digit. A row
      or column outside 0..7 is not a key of the tables: KeyError. */
  function RankFile(row: int, col: int): (r: Result<string>)
    ensures r.Ok? ==> |r.value| == 2
    ensures r.Raised? ==> r.error == KeyError
  {
    match Lookup(ColsToFiles, col)
    case Raised(e) => Raised(e)
    case Ok(file) =>
      match Lookup(RowsToRanks, row)
      case Raised(e) => Raised(e)
      case Ok(rank) => Ok([file, rank])
  }

  /** `get_chess_notation()`: the start square, then the end square. */
  function Notation(m: Move): (r: Result<string>)
    ensures r.Ok? ==> |r.value| == 4
    ensures r.Raised? ==> r.error == KeyError
  {
    match RankFile(m.startRow, m.startCol)
    case Raised(e) => Raised(e)
    case Ok(from) =>
      match RankFile(m.endRow, m.endCol)
      case Raised(e) => Raised(e)
      case Ok(to) => Ok(from + to)
  }

  predicate OnBoard(row: int, col: int) {
    0 <= row < 8 && 0 <= col < 8
  }

  /** The rank digit of a row and the file letter of a column. */
  function RankChar(row: int): (ch: char)
    requires 0 <= row < 8
  {
    ('8' as int - row) as char
  }

  function FileChar(col: int): (ch: char)
    requires 0 <= col < 8
  {
    ('a' as int + col) as char
  }

  /** The inverted tables cover exactly rows and columns 0..7, and row r is
      rank 8 - r, column c is file 'a' + c. */
  lemma {:induction false} InvertedTables()
    ensures forall r: int :: r in RowsToRanks <==> 0 <= r < 8
    ensures forall c: int :: c in ColsToFiles <==> 0 <= c < 8
    ensures forall r: int :: 0 <= r < 8 ==> RowsToRanks[r] == RankChar(r)
    ensures forall c: int :: 0 <= c < 8 ==> ColsToFiles[c] == FileChar(c)
  {
    assert RanksToRows['1'] == 7 && RanksToRows['2'] == 6 && RanksToRows['3'] == 5 && RanksToRows['4'] == 4;
    assert RanksToRows['5'] == 3 && RanksToRows['6'] == 2 && RanksToRows['7'] == 1 && RanksToRows['8'] == 0;
    assert FilesToCols['a'] == 0 && FilesToCols['b'] == 1 && FilesToCols['c'] == 2 && FilesToCols['d'] == 3;
    assert FilesToCols['e'] == 4 && FilesToCols['f'] == 5 && FilesToCols['g'] == 6 && FilesToCols['h'] == 7;
  }

  /** Each inverted table undoes its original, in both directions. */
  lemma {:induction false} TablesAreInverse()
    ensures forall r: int :: 0 <= r < 8 ==> r in RowsToRanks && RowsToRanks[r] in RanksToRows && RanksToRows[RowsToRanks[r]] == r
    ensures forall c: int :: 0 <= c < 8 ==> c in ColsToFiles && ColsToFiles[c] in FilesToCols && FilesToCols[ColsToFiles[c]] == c
    ensures forall ch :: ch in RanksToRows ==> RanksToRows[ch] in RowsToRanks && RowsToRanks[RanksToRows[ch]] == ch
    ensures forall ch :: ch in FilesToCols ==> FilesToCols[ch] in ColsToFiles && ColsToFiles[FilesToCols[ch]] == ch
  {
    InvertedTables();
  }

  /** `get_rank_file` succeeds exactly on the board, giving file then rank. */
  lemma {:induction false} RankFileSpec(row: int, col: int)
    ensures RankFile(row, col).Ok? <==> OnBoard(row, col)
    ensures OnBoard(row, col) ==> RankFile(row, col).value == [FileChar(col), RankChar(row)]
    ensures !OnBoard(row, col) ==> RankFile(row, col) == Raised(KeyError)
  {
    InvertedTables();
  }

  /** On the board, the notation is four characters which the original
      tables parse back into the move's four coordinates. */
  lemma {:induction false} NotationRoundTrip(m: Move)
    requires OnBoard(m.startRow, m.startCol) && OnBoard(m.endRow, m.endCol)
    ensures Notation(m).Ok?
    ensures var s := Notation(m).value;
      |s| == 4 &&
      s[0] in FilesToCols && FilesToCols[s[0]] == m.startCol &&
      s[1] in RanksToRows && RanksToRows[s[1]] == m.startRow &&
      s[2] in FilesToCols && FilesToCols[s[2]] == m.endCol &&
      s[3] in RanksToRows && RanksToRows[s[3]] == m.endRow
  {
    RankFileSpec(m.startRow, m.startCol);
    RankFileSpec(m.endRow, m.endCol);
    TablesAreInverse();
  }

  /** Off the board, the dictionary lookups raise KeyError. */
  lemma {:induction false} NotationOffBoard(m: Move)
    ensures Notation(m).Ok? <==> OnBoard(m.startRow, m.startCol) && OnBoard(m.endRow, m.endCol)
    ensures Notation(m).Raised? ==> Notation(m).error == KeyError
  {
    RankFileSpec(m.startRow, m.startCol);
    RankFileSpec(m.endRow, m.endCol);
  }

  /** Conversely, every four-character string of file, rank, file, rank is
      the notation of the move it parses to, so notation is a bijection
      between on-board coordinate quadruples and such strings. */
  lemma {:induction false} NotationOfParsed(s: string, pieceMoved: Piece, pieceCaptured: Piece)
    requires |s| == 4
    requires s[0] in FilesToCols && s[1] in RanksToRows && s[2] in FilesToCols && s[3] in RanksToRows
    ensures var m := Move(RanksToRows[s[1]], FilesToCols[s[0]], RanksToRows[s[3]], FilesToCols[s[2]],
                          pieceMoved, pieceCaptured);
      OnBoard(m.startRow, m.startCol) && OnBoard(m.endRow, m.endCol) &&
      Notation(m) == Ok(s)
  {
    var m := Move(RanksToRows[s[1]], FilesToCols[s[0]], RanksToRows[s[3]], FilesToCols[s[2]],
                  pieceMoved, pieceCaptured);
    TablesAreInverse();
    InvertedTables();
    RankFileSpec(m.startRow, m.startCol);
    RankFileSpec(m.endRow, m.endCol);
    assert RankFile(m.startRow, m.startCol) == Ok([s[0], s[1]]);
    assert RankFile(m.endRow, m.endCol) == Ok([s[2], s[3]]);
    assert [s[0], s[1]] + [s[2], s[3]] == s;
  }
}
