/**
 * The boundary to the chess rules library. Move generation, check and mate
 * detection, SAN and game results belong to the library and are left
 * uninterpreted: a `Library` value bundles them as function values, so every
 * property proved here holds for every rules implementation.
 */
module Chess {
  import opened Outcomes

  datatype Color = White | Black

  function Opponent(c: Color): (r: Color)
    ensures r != c
  {
    if c == White then Black else White
  }

  /** The colour word the status labels print. */
  function ColorName(c: Color): (r: string)
    ensures r == "White" <==> c == White
  {
    if c == White then "White" else "Black"
  }

  datatype PieceType = Pawn | Knight | Bishop | Rook | Queen | King

  datatype Piece = Piece(kind: PieceType, color: Color)

  /** A square index `rank * 8 + file`; kept as `int` because one caller builds it without a bounds check. */
  type Square = int

  /** A move from one square to another, with an optional promotion piece. */
  datatype Move = Move(from: Square, to: Square, promotion: Option<PieceType>)

  /** Where a board was set up: the standard initial array or a FEN string. */
  datatype Start = StandardStart | FromFen(fen: string)

  /** A board: its set-up position plus the move stack pushed on it. */
  datatype Position = Position(start: Start, played: seq<Move>) {
    function Push(m: Move): (p: Position)
      ensures p.start == start && p.played == played + [m]
    {
      Position(start, played + [m])
    }
  }

  /** A fresh `Board()`: the standard initial position with an empty move stack. */
  const Initial := Position(StandardStart, [])

  /** The rules library, left abstract. */
  datatype Library = Library(
    fenTurn: string -> Color,
    pieceAt: (Position, Square) -> Option<Piece>,
    isLegal: (Position, Move) -> bool,
    isCheckmate: Position -> bool,
    isStalemate: Position -> bool,
    isCheck: Position -> bool,
    isGameOver: Position -> bool,
    san: (Position, Move) -> string,
    result: Position -> string,
    plyBound: nat)

  /**
   * The one fact about the library the match loop relies on: the library's
   * drawing rules (seventy-five moves, fivefold repetition) end every game
   * within `plyBound` half-moves.
   */
  ghost predicate GamesEnd(lib: Library)
  {
    forall p: Position :: |p.played| >= lib.plyBound ==> lib.isGameOver(p)
  }

  /** The colour to move at the set-up position. */
  function StartTurn(lib: Library, s: Start): Color
  {
    match s
    case StandardStart => White
    case FromFen(f) => lib.fenTurn(f)
  }

  /** The side to move: every pushed move hands the turn to the other side. */
  function Turn(lib: Library, p: Position): (c: Color)
    ensures p.start == StandardStart ==> (c == White <==> |p.played| % 2 == 0)
  {
    if |p.played| % 2 == 0 then StartTurn(lib, p.start) else Opponent(StartTurn(lib, p.start))
  }

  lemma PushFlipsTurn(lib: Library, p: Position, m: Move)
    ensures Turn(lib, p.Push(m)) == Opponent(Turn(lib, p))
  {
  }

  /** Python's `chess.square(file, rank)`. */
  function SquareOf(file: int, rank: int): Square
  {
    rank * 8 + file
  }

  /** `chess.square_file` and `chess.square_rank` on a board square. */
  function FileOf(sq: Square): int
    requires 0 <= sq < 64
  {
    sq % 8
  }

  function RankOf(sq: Square): int
    requires 0 <= sq < 64
  {
    sq / 8
  }

  lemma SquareCoordinates(file: int, rank: int)
    requires 0 <= file < 8 && 0 <= rank < 8
    ensures 0 <= SquareOf(file, rank) < 64
    ensures FileOf(SquareOf(file, rank)) == file && RankOf(SquareOf(file, rank)) == rank
  {
  }
}
