/**
 * `Code/temp.py`: a draft of the battle arena with a human player, an
 * analysis cursor and PGN import/export. Several of its handlers call
 * members the class never defines (`pgn_tree`, `analyze_position`), so they
 * raise after their state changes; the model keeps both the changes and
 * the raise.
 */
module ArenaDraft {
  import opened Outcomes
  import opened Chess
  import opened Geometry
  import opened Navigation

  datatype Draft = Draft(
    board: Position,
    game: Option<Game>,
    node: Option<NodeRef>,
    index: int,
    selected: Option<Square>,
    waitingForHuman: bool,
    gamesField: string,
    timeField: string,
    status: string)

  /**
   * The constructor sets its fields and builds the window, then raises an
   * AttributeError where the Start button is bound to `start_match`, which
   * the class never defines. What exists at that point: no game record, no
   * node, the index at -1, nothing selected, `waiting_for_human` false, the
   * settings fields at their defaults and the ready message. The canvas
   * click and the engine menus are already bound to this state.
   */
  function OpenDraft(): (r: Handled<Draft>)
    ensures r.Raised?
    ensures r.state.game == None && r.state.node == None && r.state.index == -1 && r.state.selected == None
    ensures !r.state.waitingForHuman && r.state.board == Initial
    ensures r.state.gamesField == "10" && r.state.timeField == "1.0" && r.state.status == "Ready to start match"
    ensures Consistent(r.state)
  {
    Raised(Draft(Initial, None, None, -1, None, false, "10", "1.0", "Ready to start match"))
  }

  /** A node, when present, belongs to the current game record. */
  predicate Consistent(d: Draft)
  {
    d.node.Some? ==> d.game.Some? && ValidNode(d.game.value, d.node.value)
  }

  const HumanChoice := "Human"

  /**
   * `on_engine_selection_change`: choosing "Human" on either side forces
   * one game and 0.1 seconds per move; otherwise nothing changes.
   */
  function EngineSelectionChange(d: Draft, choice1: string, choice2: string): (r: Draft)
    ensures (choice1 == HumanChoice || choice2 == HumanChoice) ==>
              r == d.(gamesField := "1", timeField := "0.1",
                      status := "Human player selected. Number of games set to 1.")
    ensures !(choice1 == HumanChoice || choice2 == HumanChoice) ==> r == d
  {
    if choice1 == HumanChoice || choice2 == HumanChoice then
      d.(gamesField := "1", timeField := "0.1", status := "Human player selected. Number of games set to 1.")
    else d
  }

  /**
   * Choosing "Human" on either side forces one game at 0.1 seconds whatever
   * the fields held before, and choosing it again changes nothing more.
   */
  lemma HumanForcesSingleQuickGame(d: Draft, choice1: string, choice2: string)
    requires choice1 == HumanChoice || choice2 == HumanChoice
    ensures EngineSelectionChange(d, choice1, choice2).gamesField == "1"
    ensures EngineSelectionChange(d, choice1, choice2).timeField == "0.1"
    ensures EngineSelectionChange(EngineSelectionChange(d, choice1, choice2), choice1, choice2)
            == EngineSelectionChange(d, choice1, choice2)
  {
  }

  /**
   * The promotion rule as written: queen promotion is attached when the
   * piece on the clicked TARGET square is a pawn standing on the mover's
   * last rank.
   */
  function PromotionAsWritten(lib: Library, p: Position, target: Square): Option<PieceType>
    requires 0 <= target < 64
  {
    var piece := lib.pieceAt(p, target);
    if piece.Some? && piece.value.kind == Pawn
       && ((Turn(lib, p) == White && RankOf(target) == 7) || (Turn(lib, p) == Black && RankOf(target) == 0))
    then Some(Queen) else None
  }

  /** The rule of chess that no pawn ever stands on the first or last rank. */
  ghost predicate NoPawnOnBackRank(lib: Library, p: Position)
  {
    forall sq :: 0 <= sq < 64 && (RankOf(sq) == 0 || RankOf(sq) == 7) && lib.pieceAt(p, sq).Some? ==>
      lib.pieceAt(p, sq).value.kind != Pawn
  }

  /** In any position a rules library can reach, the as-written rule never promotes. */
  lemma AsWrittenNeverPromotes(lib: Library, p: Position, target: Square)
    requires 0 <= target < 64 && NoPawnOnBackRank(lib, p)
    ensures PromotionAsWritten(lib, p, target) == None
  {
  }

  /**
   * The evidently intended rule: queen promotion when the SELECTED piece is
   * a pawn of the side to move and the target lies on that side's last rank.
   */
  function PromotionIntended(lib: Library, p: Position, from: Square, target: Square): (r: Option<PieceType>)
    requires 0 <= target < 64
    ensures r == None || r == Some(Queen)
    ensures r == Some(Queen) <==>
              && lib.pieceAt(p, from) == Some(Piece(Pawn, Turn(lib, p)))
              && RankOf(target) == (if Turn(lib, p) == White then 7 else 0)
  {
    var piece := lib.pieceAt(p, from);
    if piece.Some? && piece.value.kind == Pawn && piece.value.color == Turn(lib, p)
       && RankOf(target) == (if Turn(lib, p) == White then 7 else 0)
    then Some(Queen) else None
  }

  /** A board with only a White pawn on e7 (square 52), White to move. */
  function PawnOnE7(): Library
  {
    Library(
      _ => White,
      (p: Position, sq: Square) => if sq == 52 then Some(Piece(Pawn, White)) else None,
      (p: Position, m: Move) => m == Move(52, 60, Some(Queen)),
      _ => false, _ => false, _ => false, _ => false,
      (p: Position, m: Move) => "", _ => "*", 0)
  }

  /**
   * Pushing the e7 pawn to e8: the as-written rule builds the move without
   * a promotion (e8 is empty), which is not the legal move e7e8=Q; the
   * intended rule builds the legal move.
   */
  lemma PromotionClickCounterexample()
    ensures PromotionAsWritten(PawnOnE7(), Initial, 60) == None
    ensures !PawnOnE7().isLegal(Initial, Move(52, 60, PromotionAsWritten(PawnOnE7(), Initial, 60)))
    ensures PromotionIntended(PawnOnE7(), Initial, 52, 60) == Some(Queen)
    ensures PawnOnE7().isLegal(Initial, Move(52, 60, PromotionIntended(PawnOnE7(), Initial, 52, 60)))
  {
  }

  /**
   * `make_move`: push on the board and add the move as a variation of the
   * current node (raising first if there is no node yet). The cursor index
   * is left alone, and the display refresh raises because the draft has no
   * history panel, so the handler always ends by raising.
   */
  function MakeMove(d: Draft, m: Move): (r: Handled<Draft>)
    requires Consistent(d)
    ensures r.Raised?
    ensures r.state == d.(board := d.board.Push(m), game := r.state.game, node := r.state.node)
    ensures d.node == None ==> r.state == d.(board := d.board.Push(m))
    ensures d.node.Some? ==>
              && r.state.node.Some? && r.state.game.Some? && ValidNode(r.state.game.value, r.state.node.value)
              && Path(r.state.game.value, r.state.node.value) == Path(d.game.value, d.node.value) + [m]
    ensures Consistent(r.state)
  {
    match d.node
    case None => Raised(d.(board := d.board.Push(m)))
    case Some(n) =>
      var (g, n') := AddVariation(d.game.value, n, m);
      Raised(d.(board := d.board.Push(m), game := Some(g), node := Some(n')))
  }

  /**
   * `on_square_clicked`: ignored unless a human is to move. The square size
   * comes from the canvas. A first click picks up a piece of the side to
   * move. A second click builds the move with the promotion rule as written
   * (the piece on the target square decides), and a legal move is applied;
   * since applying it raises, the selection is then NOT cleared. An illegal
   * second click clears it.
   */
  function Click(lib: Library, d: Draft, x: int, y: int, canvasWidth: nat, canvasHeight: nat): (r: Handled<Draft>)
    requires Consistent(d)
    ensures !d.waitingForHuman ==> r == Returned(d)
    ensures Consistent(r.state)
    ensures r.state.index == d.index
    ensures d.waitingForHuman ==> (SquareAt(x, y, ResizedSquare(canvasWidth, canvasHeight)) == ZeroSize <==> r == Raised(d))
    ensures d.waitingForHuman && SquareAt(x, y, ResizedSquare(canvasWidth, canvasHeight)) == OffBoard ==> r == Returned(d)
    ensures d.selected == None ==> r.state == d.(selected := r.state.selected)
    ensures d.waitingForHuman && d.selected == None && SquareAt(x, y, ResizedSquare(canvasWidth, canvasHeight)).OnSquare? ==>
              var sq := SquareAt(x, y, ResizedSquare(canvasWidth, canvasHeight)).square;
              && r.Returned?
              && (r.state.selected.Some? <==> lib.pieceAt(d.board, sq).Some? && lib.pieceAt(d.board, sq).value.color == Turn(lib, d.board))
              && (r.state.selected.Some? ==> r.state.selected == Some(sq))
    ensures d.waitingForHuman && d.selected.Some? && SquareAt(x, y, ResizedSquare(canvasWidth, canvasHeight)).OnSquare? ==>
              var target := SquareAt(x, y, ResizedSquare(canvasWidth, canvasHeight)).square;
              var m := Move(d.selected.value, target, PromotionAsWritten(lib, d.board, target));
              && (lib.isLegal(d.board, m) ==>
                    r.Raised? && r.state == d.(board := d.board.Push(m), game := r.state.game, node := r.state.node))
              && (!lib.isLegal(d.board, m) ==> r == Returned(d.(selected := None)))
  {
    if !d.waitingForHuman then Returned(d)
    else
      match SquareAt(x, y, ResizedSquare(canvasWidth, canvasHeight))
      case ZeroSize => Raised(d)
      case OffBoard => Returned(d)
      case OnSquare(sq) =>
        if d.selected == None then
          var piece := lib.pieceAt(d.board, sq);
          if piece.Some? && piece.value.color == Turn(lib, d.board) then Returned(d.(selected := Some(sq)))
          else Returned(d)
        else
          var m := Move(d.selected.value, sq, PromotionAsWritten(lib, d.board, sq));
          if lib.isLegal(d.board, m) then MakeMove(d, m) else Returned(d.(selected := None))
  }

  /**
   * With the e7 pawn picked up, a click on e8 (pixel (241, 1) of a 480-pixel
   * canvas) builds e7e8 without a promotion, which is illegal: the click only
   * drops the selection and the pawn stays.
   */
  lemma PromotionClickIgnored()
    ensures var d := OpenDraft().state.(waitingForHuman := true, selected := Some(52));
            Click(PawnOnE7(), d, 241, 1, 480, 480) == Returned(d.(selected := None))
  {
    var d := OpenDraft().state.(waitingForHuman := true, selected := Some(52));
    assert ResizedSquare(480, 480) == 60;
    assert SquareAt(241, 1, 60) == OnSquare(60);
    PromotionClickCounterexample();
  }

  /**
   * `go_to_move(k)`: as in the analysis board, from the standard start, with
   * the index set to `k` unclamped; without a game record the handler raises
   * after resetting the board and dropping the node. The missing engine
   * call makes it raise in every case.
   */
  method GoTo(d: Draft, k: int) returns (r: Handled<Draft>)
    ensures r.Raised?
    ensures r.state.board.start == StandardStart && r.state.selected == d.selected && r.state.game == d.game
    ensures d.game == None ==> r.state == d.(board := Initial, node := None)
    ensures d.game.Some? ==>
              && r.state == d.(board := r.state.board, node := r.state.node, index := k)
              && r.state.board.played == d.game.value.mainline[..ReplayCount(k, |d.game.value.mainline|)]
              && r.state.node == Some(NodeRef(|r.state.board.played|, []))
    ensures Consistent(r.state)
  {
    if d.game == None {
      r := Raised(d.(board := Initial, node := None));
    } else {
      var board, node, index := GoToMove(d.game.value, k);
      r := Raised(d.(board := board, node := Some(node), index := index));
    }
  }

  /**
   * `load_pgn`: without a parsed game nothing changes. Otherwise the game is
   * replaced and its whole mainline replayed from the standard start, the
   * index counting up from -1 once per move, so it ends on the last move.
   */
  method LoadPgn(d: Draft, read: ReadOutcome) returns (r: Draft)
    ensures !read.GameRead? ==> r == d
    ensures read.GameRead? ==>
              && r.game == Some(read.game)
              && r.board == Position(StandardStart, read.game.mainline)
              && r.node == Some(NodeRef(|read.game.mainline|, []))
              && r.index == |read.game.mainline| - 1
              && r == d.(game := r.game, board := r.board, node := r.node, index := r.index)
    ensures Consistent(d) ==> Consistent(r)
  {
    if !read.GameRead? {
      return d;
    }
    var g := read.game;
    var board := Initial;
    var node := Root;
    var index := -1;
    for i := 0 to |g.mainline|
      invariant board == Position(StandardStart, g.mainline[..i])
      invariant node == NodeRef(i, [])
      invariant index == i - 1
    {
      assert g.mainline[..i + 1] == g.mainline[..i] + [g.mainline[i]];
      board := board.Push(g.mainline[i]);
      node := NodeRef(node.depth + 1, []);
      index := index + 1;
    }
    assert g.mainline[..|g.mainline|] == g.mainline;
    r := d.(game := Some(g), board := board, node := Some(node), index := index);
  }

  /**
   * `export_pgn`: the Event, Date, White, Black and Result tags of the Seven
   * Tag Roster are set on the current game, Result from the board as it
   * stands (possibly rewound). Without a game record it raises.
   */
  function ExportHeaders(lib: Library, d: Draft, date: string): (r: Handled<Draft>)
    ensures d.game == None <==> r == Raised(d)
    ensures d.game.Some? ==>
              && r.Returned? && r.state == d.(game := r.state.game) && r.state.game.Some?
              && var before, after := d.game.value, r.state.game.value;
              && after.mainline == before.mainline
              && after.headers.Keys == before.headers.Keys + {"Event", "Date", "White", "Black", "Result"}
              && after.headers["Event"] == "Chess Analysis" && after.headers["Date"] == date
              && after.headers["White"] == "?" && after.headers["Black"] == "?"
              && after.headers["Result"] == lib.result(d.board)
              && forall t :: t in before.headers && t !in {"Event", "Date", "White", "Black", "Result"} ==>
                   after.headers[t] == before.headers[t]
  {
    match d.game
    case None => Raised(d)
    case Some(g) =>
      var headers := g.headers["Event" := "Chess Analysis"]["Date" := date]["White" := "?"]["Black" := "?"]
                              ["Result" := lib.result(d.board)];
      Returned(d.(game := Some(Game(headers, g.mainline))))
  }
}
