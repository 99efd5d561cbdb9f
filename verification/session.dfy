/**
 * The analysis board session (`ModernChessGUI`): a board, the game record,
 * the current node, the cursor index and a pending selection. The click,
 * move and jump handlers change this state alike in `Code/gui.py` and
 * `gui.py`; they end by analysing the new position, which `Code/gui.py`
 * guards and `gui.py` does not (see `ClassicGui`).
 */
module Session {
  import opened Outcomes
  import opened Chess
  import opened Geometry
  import opened Navigation

  datatype Session = Session(
    board: Position,
    game: Game,
    node: NodeRef,
    index: int,
    selected: Option<Square>,
    squareSize: nat)

  /** The constructor: the board starts from the given position, the game record is empty. */
  function Open(start: Start): (s: Session)
    ensures s.board == Position(start, []) && s.game.mainline == [] && s.node == Root
    ensures s.index == -1 && s.selected == None && s.squareSize == 60
  {
    Session(Position(start, []), NewGame(), Root, -1, None, 60)
  }

  /** The board shows exactly the moves leading to the current node. */
  predicate Synced(s: Session)
  {
    ValidNode(s.game, s.node) && s.board.played == Path(s.game, s.node)
  }

  /** The cursor index names the last move on the board (-1 for none). */
  predicate IndexTracks(s: Session)
  {
    s.index + 1 == |s.board.played|
  }

  lemma OpenIsSynced(start: Start)
    ensures Synced(Open(start)) && IndexTracks(Open(start))
  {
  }

  /** A square holding a piece of the side to move: the only kind that can be selected. */
  predicate Selectable(lib: Library, p: Position, sq: Square)
  {
    lib.pieceAt(p, sq).Some? && lib.pieceAt(p, sq).value.color == Turn(lib, p)
  }

  /**
   * `make_move`: push on the board, add the move as a variation of the
   * current node and follow it, clear the selection, advance the index by one.
   */
  function MakeMove(s: Session, m: Move): (r: Session)
    requires ValidNode(s.game, s.node)
    ensures r.board == s.board.Push(m)
    ensures r.index == s.index + 1
    ensures r.selected == None && r.squareSize == s.squareSize
    ensures ValidNode(r.game, r.node) && Path(r.game, r.node) == Path(s.game, s.node) + [m]
    ensures Synced(s) ==> Synced(r)
    ensures IndexTracks(s) ==> IndexTracks(r)
  {
    var (g, n) := AddVariation(s.game, s.node, m);
    Session(s.board.Push(m), g, n, s.index + 1, None, s.squareSize)
  }

  /**
   * `on_square_clicked`: a first click selects a piece of the side to move;
   * a second click plays the move from the selection if it is legal (never
   * with a promotion piece) and clears the selection either way.
   */
  function Click(lib: Library, s: Session, x: int, y: int): (r: Handled<Session>)
    requires ValidNode(s.game, s.node)
    ensures SquareAt(x, y, s.squareSize) == ZeroSize <==> r == Raised(s)
    ensures SquareAt(x, y, s.squareSize) == OffBoard ==> r == Returned(s)
    ensures s.selected == None ==> r.state == s.(selected := r.state.selected)
    ensures s.selected == None ==>
              (r.state.selected.Some? <==>
                 SquareAt(x, y, s.squareSize).OnSquare? && Selectable(lib, s.board, SquareAt(x, y, s.squareSize).square))
    ensures s.selected == None && r.state.selected.Some? ==>
              SquareAt(x, y, s.squareSize) == OnSquare(r.state.selected.value)
    ensures s.selected.Some? && SquareAt(x, y, s.squareSize).OnSquare? ==>
              var m := Move(s.selected.value, SquareAt(x, y, s.squareSize).square, None);
              && r.Returned? && r.state.selected == None
              && (lib.isLegal(s.board, m) ==> r.state == MakeMove(s, m))
              && (!lib.isLegal(s.board, m) ==> r.state == s.(selected := None))
    ensures ValidNode(r.state.game, r.state.node)
    ensures Synced(s) ==> Synced(r.state)
    ensures IndexTracks(s) ==> IndexTracks(r.state)
  {
    match SquareAt(x, y, s.squareSize)
    case ZeroSize => Raised(s)
    case OffBoard => Returned(s)
    case OnSquare(sq) =>
      if s.selected == None then
        if Selectable(lib, s.board, sq) then Returned(s.(selected := Some(sq))) else Returned(s)
      else
        var m := Move(s.selected.value, sq, None);
        if lib.isLegal(s.board, m) then Returned(MakeMove(s, m)) else Returned(s.(selected := None))
  }

  /**
   * `go_to_move(k)`: the board is rebuilt from the standard start (not from
   * the position the session was opened with) and holds the mainline prefix
   * of length `min(k + 1, n)`; the index becomes `k` unclamped, so it keeps
   * naming the last move on the board exactly when `-1 <= k < n`.
   */
  method GoTo(s: Session, k: int) returns (r: Session)
    ensures r.board.start == StandardStart
    ensures r.board.played == s.game.mainline[..ReplayCount(k, |s.game.mainline|)]
    ensures r.index == k && r.game == s.game
    ensures r.selected == s.selected && r.squareSize == s.squareSize
    ensures Synced(r) && r.node.off == []
    ensures IndexTracks(r) <==> -1 <= k < |s.game.mainline|
  {
    var board, node, index := GoToMove(s.game, k);
    r := Session(board, s.game, node, index, s.selected, s.squareSize);
  }

  /**
   * The game record is never overwritten: a move played after jumping back
   * from the mainline's end starts a side variation, the mainline keeps its
   * old continuation, and the board leaves the mainline.
   */
  lemma MoveAfterRewindBranches(s: Session, m: Move)
    requires Synced(s) && s.node.off == [] && s.node.depth < |s.game.mainline|
    requires m != s.game.mainline[s.node.depth]
    ensures MakeMove(s, m).game.mainline == s.game.mainline
    ensures MakeMove(s, m).board.played != s.game.mainline[..|MakeMove(s, m).board.played|]
  {
    var r := MakeMove(s, m);
    var d := s.node.depth;
    assert r.board.played[d] == m;
  }
}
