/** The `GameState` of the chess engine: an 8 by 8 board of piece codes, the
    side to move and the log of applied moves, with `make_move` updating them
    in place. */
module ChessEngine {
  import opened Runtime
  import opened ChessMove

  const Dim: nat := 8

  /** A board as a list of rows, each a list of piece codes. */
  type Grid = seq<seq<Piece>>

  ghost predicate IsBoard(g: Grid) {
    |g| == Dim && forall r :: 0 <= r < |g| ==> |g[r]| == Dim
  }

  /** The starting layout: Black on rows 0 and 1 (so `board[0][0]` is a8),
      White on rows 6 and 7. */
  const StartingBoard: Grid := [
    ["bR", "bN", "bB", "bQ", "bK", "bB", "bN", "bR"],
    ["bp", "bp", "bp", "bp", "bp", "bp", "bp", "bp"],
    ["--", "--", "--", "--", "--", "--", "--", "--"],
    ["--", "--", "--", "--", "--", "--", "--", "--"],
    ["--", "--", "--", "--", "--", "--", "--", "--"],
    ["--", "--", "--", "--", "--", "--", "--", "--"],
    ["wp", "wp", "wp", "wp", "wp", "wp", "wp", "wp"],
    ["wR", "wN", "wB", "wQ", "wK", "wB", "wN", "wR"]
  ]

  /** The value of a game state: what `GameState`'s three fields hold. */
  datatype Game = Game(board: Grid, whiteToMove: bool, moveLog: seq<Move>)

  const Initial: Game := Game(StartingBoard, true, [])

  /** `board[row][col] = piece` on a list of lists. */
  function Put(g: Grid, row: nat, col: nat, piece: Piece): (h: Grid)
    requires row < |g| && col < |g[row]|
    ensures |h| == |g| && forall r :: 0 <= r < |g| ==> |h[r]| == |g[r]|
    ensures forall r, c :: 0 <= r < |g| && 0 <= c < |g[r]| ==>
      h[r][c] == if r == row && c == col then piece else g[r][c]
  {
    g[row := g[row][col := piece]]
  }

  /** The squares a move's subscripts reach on the 8 by 8 board. */
  function StartCell(m: Move): (cell: Option<(nat, nat)>) {
    Locate(m.startRow, m.startCol, Dim, Dim)
  }

  function EndCell(m: Move): (cell: Option<(nat, nat)>) {
    Locate(m.endRow, m.endCol, Dim, Dim)
  }

  /** The game after `make_move(m)`, and whether it returned or raised.
      A move of the empty piece is ignored. Otherwise the start square is
      cleared, then the moved piece is written on the end square, then the
      move is logged and the turn passes. A subscript that does not index the
      board raises IndexError at the write that uses it, after the writes
      before it have happened. */
  function Apply(g: Game, m: Move): (r: (Game, Outcome))
    requires IsBoard(g.board)
    ensures IsBoard(r.0.board)
    ensures r.1.Failed? ==> r.1.error == IndexError
  {
    if m.pieceMoved == Empty then (g, Returned)
    else
      match StartCell(m)
      case None => (g, Failed(IndexError))
      case Some(s) =>
        var cleared := Put(g.board, s.0, s.1, Empty);
        match EndCell(m)
        case None => (g.(board := cleared), Failed(IndexError))
        case Some(e) =>
          (Game(Put(cleared, e.0, e.1, m.pieceMoved), !g.whiteToMove, g.moveLog + [m]), Returned)
  }

  /** A move of the empty piece changes nothing: board, turn and log. */
  lemma {:induction false} EmptyMoveIgnored(g: Game, m: Move)
    requires IsBoard(g.board)
    requires m.pieceMoved == Empty
    ensures Apply(g, m) == (g, Returned)
  {
  }

  /** Any other move with subscripts that index the board: the end square
      holds the moved piece, the start square is empty unless it is the end
      square too, no other square changes, the move is appended to the log
      and the turn passes. */
  lemma {:induction false} MoveApplied(g: Game, m: Move)
    requires IsBoard(g.board)
    requires m.pieceMoved != Empty
    requires StartCell(m).Some? && EndCell(m).Some?
    ensures var (h, outcome) := Apply(g, m);
      var s, e := StartCell(m).value, EndCell(m).value;
      outcome == Returned &&
      IsBoard(h.board) &&
      h.board[e.0][e.1] == m.pieceMoved &&
      (s != e ==> h.board[s.0][s.1] == Empty) &&
      (forall r, c :: 0 <= r < Dim && 0 <= c < Dim && (r, c) != s && (r, c) != e ==>
         h.board[r][c] == g.board[r][c]) &&
      h.moveLog == g.moveLog + [m] &&
      h.whiteToMove == !g.whiteToMove
  {
  }

  /** A subscript that does not index the board raises IndexError and leaves
      the log and the turn alone; if only the end subscript is bad, the start
      square has already been cleared. */
  lemma {:induction false} MoveRaises(g: Game, m: Move)
    requires IsBoard(g.board)
    requires m.pieceMoved != Empty
    requires StartCell(m).None? || EndCell(m).None?
    ensures var (h, outcome) := Apply(g, m);
      outcome == Failed(IndexError) &&
      h.whiteToMove == g.whiteToMove && h.moveLog == g.moveLog &&
      (StartCell(m).None? ==> h.board == g.board) &&
      (StartCell(m).Some? ==>
         var s := StartCell(m).value;
         IsBoard(h.board) && h.board[s.0][s.1] == Empty &&
         forall r, c :: 0 <= r < Dim && 0 <= c < Dim && (r, c) != s ==> h.board[r][c] == g.board[r][c])
  {
  }

  /** Whatever happens, the board stays 8 by 8, the old log is a prefix of
      the new one, and at most the given move is added. */
  lemma {:induction false} ApplyKeepsShapeAndLog(g: Game, m: Move)
    requires IsBoard(g.board)
    ensures var h := Apply(g, m).0;
      IsBoard(h.board) &&
      (h.moveLog == g.moveLog || h.moveLog == g.moveLog + [m]) &&
      (h.moveLog == g.moveLog <==> h.whiteToMove == g.whiteToMove)
  {
  }

  /** White is to move exactly when an even number of moves are logged. */
  ghost predicate TurnMatchesLog(g: Game) {
    g.whiteToMove <==> |g.moveLog| % 2 == 0
  }

  lemma {:induction false} InitialTurn()
    ensures IsBoard(Initial.board) && TurnMatchesLog(Initial) && Initial.moveLog == []
  {
  }

  lemma {:induction false} ApplyKeepsTurnMatchingLog(g: Game, m: Move)
    requires IsBoard(g.board) && TurnMatchesLog(g)
    ensures TurnMatchesLog(Apply(g, m).0)
  {
  }

  /** The game after making each of `ms` in turn; an IndexError is not
      caught, so it ends the sequence with the state it left behind. */
  function Play(g: Game, ms: seq<Move>): (h: Game)
    requires IsBoard(g.board)
    ensures IsBoard(h.board)
    decreases |ms|
  {
    if ms == [] then g
    else
      var (h, outcome) := Apply(g, ms[0]);
      if outcome.Failed? then h else Play(h, ms[1..])
  }

  /** The moves of `ms` that are not ignored. */
  function Played(ms: seq<Move>): (played: seq<Move>) {
    if ms == [] then []
    else (if ms[0].pieceMoved == Empty then [] else [ms[0]]) + Played(ms[1..])
  }

  ghost predicate AllIndexBoard(ms: seq<Move>) {
    forall i :: 0 <= i < |ms| ==> StartCell(ms[i]).Some? && EndCell(ms[i]).Some?
  }

  /** The log and turn part of `make_move`, for a move whose subscripts
      index the board: it returns, logs the move unless it is ignored, and
      passes the turn exactly when it logs. */
  lemma {:induction false} ApplyLogsMove(g: Game, m: Move)
    requires IsBoard(g.board)
    requires StartCell(m).Some? && EndCell(m).Some?
    ensures Apply(g, m).1 == Returned
    ensures Apply(g, m).0.moveLog == g.moveLog + (if m.pieceMoved == Empty then [] else [m])
    ensures Apply(g, m).0.whiteToMove == (if m.pieceMoved == Empty then g.whiteToMove else !g.whiteToMove)
  {
  }

  /** After any sequence of moves whose subscripts index the board, the log
      has grown by exactly the moves that were not ignored, in order, and the
      turn still matches the parity of the log. */
  lemma {:induction false} PlayLogsMoves(g: Game, ms: seq<Move>)
    requires IsBoard(g.board) && TurnMatchesLog(g)
    requires AllIndexBoard(ms)
    ensures Play(g, ms).moveLog == g.moveLog + Played(ms)
    ensures TurnMatchesLog(Play(g, ms))
    decreases |ms|
  {
    if ms == [] {
      assert g.moveLog + [] == g.moveLog;
    } else {
      var m := ms[0];
      var h := Apply(g, m).0;
      ApplyLogsMove(g, m);
      ApplyKeepsTurnMatchingLog(g, m);
      assert AllIndexBoard(ms[1..]) by {
        forall i | 0 <= i < |ms[1..]| ensures StartCell(ms[1..][i]).Some? && EndCell(ms[1..][i]).Some? {
          assert ms[1..][i] == ms[i + 1];
        }
      }
      PlayLogsMoves(h, ms[1..]);
      assert Play(g, ms) == Play(h, ms[1..]);
      var first := if m.pieceMoved == Empty then [] else [m];
      assert Played(ms) == first + Played(ms[1..]);
      assert g.moveLog + first + Played(ms[1..]) == g.moveLog + (first + Played(ms[1..]));
    }
  }

  /** A move built from an 8 by 8 board never raises when applied to a game,
      since its subscripts index any 8 by 8 board. */
  lemma {:induction false} BuiltMoveApplies(startSq: (int, int), endSq: (int, int), b: array2<Piece>, g: Game)
    requires b.Length0 == Dim && b.Length1 == Dim
    requires NewMove(startSq, endSq, b).Ok?
    requires IsBoard(g.board)
    ensures Apply(g, NewMove(startSq, endSq, b).value).1 == Returned
  {
  }

  /** Two boards with the same piece on every square are the same board. */
  lemma {:induction false} SameCells(a: Grid, b: Grid)
    requires IsBoard(a) && IsBoard(b)
    requires forall r, c :: 0 <= r < Dim && 0 <= c < Dim ==> a[r][c] == b[r][c]
    ensures a == b
  {
    forall r | 0 <= r < Dim ensures a[r] == b[r] {
      assert forall c :: 0 <= c < Dim ==> a[r][c] == b[r][c];
    }
  }

  /** Python's GameState object: the board is updated in place. */
  class GameState {
    var board: array2<Piece>
    var whiteToMove: bool
    var moveLog: seq<Move>

    ghost predicate Valid()
      reads this
    {
      board.Length0 == Dim && board.Length1 == Dim
    }

    /** The board as a list of rows. */
    ghost function Cells(): (g: Grid)
      reads this, board
      requires Valid()
      ensures IsBoard(g)
      ensures forall r, c :: 0 <= r < Dim && 0 <= c < Dim ==> g[r][c] == board[r, c]
    {
      var b := board;
      seq(Dim, r requires 0 <= r < Dim reads b => seq(Dim, c requires 0 <= c < Dim reads b => b[r, c]))
    }

    ghost function State(): (g: Game)
      reads this, board
      requires Valid()
    {
      Game(Cells(), whiteToMove, moveLog)
    }

    /** `GameState()`: the starting layout, White to move, nothing logged. */
    constructor ()
      ensures Valid() && fresh(board)
      ensures State() == Initial
      ensures forall r, c :: 0 <= r < Dim && 0 <= c < Dim ==> board[r, c] == StartingBoard[r][c]
    {
      board := new Piece[Dim, Dim]((r, c) requires 0 <= r < Dim && 0 <= c < Dim => StartingBoard[r][c]);
      whiteToMove := true;
      moveLog := [];
      new;
      SameCells(Cells(), StartingBoard);
    }

    /** `make_move(move)`, as specified by `Apply`. The outcome says whether
        the call returned or raised. */
    method MakeMove(m: Move) returns (outcome: Outcome)
      requires Valid()
      modifies this`whiteToMove, this`moveLog, board
      ensures Valid()
      ensures (State(), outcome) == Apply(old(State()), m)
      ensures forall r, c ::
        (0 <= r < Dim && 0 <= c < Dim && StartCell(m) != Some((r, c)) && EndCell(m) != Some((r, c))) ==>
          board[r, c] == old(board[r, c])
    {
      if m.pieceMoved == Empty {
        return Returned;
      }
      var s := Locate(m.startRow, m.startCol, board.Length0, board.Length1);
      if s.None? {
        return Failed(IndexError);
      }
      board[s.value.0, s.value.1] := Empty;
      var e := Locate(m.endRow, m.endCol, board.Length0, board.Length1);
      if e.None? {
        SameCells(Cells(), Put(old(Cells()), s.value.0, s.value.1, Empty));
        return Failed(IndexError);
      }
      board[e.value.0, e.value.1] := m.pieceMoved;
      moveLog := moveLog + [m];
      whiteToMove := !whiteToMove;
      outcome := Returned;
      SameCells(Cells(), Put(Put(old(Cells()), s.value.0, s.value.1, Empty), e.value.0, e.value.1, m.pieceMoved));
    }
  }
}
