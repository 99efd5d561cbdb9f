/**
 * What `gui.py` adds to the shared session: a table history whose rows
 * carry their move number, an unconditional resize, and an engine
 * analysis that is not guarded, so a failure to launch or query the engine escapes
 * from every handler that analyses the new position.
 */
module ClassicGui {
  import opened Outcomes
  import opened Chess
  import opened Geometry
  import opened Navigation
  import opened Session

  /**
   * `on_square_clicked` in `gui.py`: as in the shared session, except that
   * a legal second click ends in `analyze_position`, which raises when the
   * analysis fails (`analysisCompletes` false) after the move is made.
   */
  function ClickWithEngine(lib: Library, s: Session, x: int, y: int, analysisCompletes: bool): (r: Handled<Session>)
    requires ValidNode(s.game, s.node)
    ensures r.state == Click(lib, s, x, y).state
    ensures r.Raised? <==>
              || Click(lib, s, x, y).Raised?
              || (!analysisCompletes && s.selected.Some? && SquareAt(x, y, s.squareSize).OnSquare?
                  && lib.isLegal(s.board, Move(s.selected.value, SquareAt(x, y, s.squareSize).square, None)))
  {
    var played := s.selected.Some? && SquareAt(x, y, s.squareSize).OnSquare?
                  && lib.isLegal(s.board, Move(s.selected.value, SquareAt(x, y, s.squareSize).square, None));
    var c := Click(lib, s, x, y);
    if played && !analysisCompletes then Raised(c.state) else c
  }

  /**
   * `go_to_move` in `gui.py`: the shared replay, then `analyze_position`,
   * which raises when the analysis fails.
   */
  method GoToWithEngine(s: Session, k: int, analysisCompletes: bool) returns (r: Handled<Session>)
    ensures r.Raised? <==> !analysisCompletes
    ensures r.state.index == k && r.state.game == s.game && Synced(r.state)
    ensures r.state.board.played == s.game.mainline[..ReplayCount(k, |s.game.mainline|)]
    ensures r.state == s.(board := r.state.board, node := r.state.node, index := k)
    ensures IndexTracks(r.state) <==> -1 <= k < |s.game.mainline|
  {
    var t := GoTo(s, k);
    r := if analysisCompletes then Returned(t) else Raised(t);
  }

  /**
   * `on_pgn_select`: with a row selected whose move-number column reads
   * `number`, the cursor jumps to half-move `2 * (number - 1)`, White's move
   * of that full move, raising afterwards when the analysis fails; with nothing selected nothing happens.
   */
  method OnPgnSelect(s: Session, selectedNumber: Option<int>, analysisCompletes: bool) returns (r: Handled<Session>)
    ensures selectedNumber == None ==> r == Returned(s)
    ensures selectedNumber.Some? ==>
              var k := 2 * (selectedNumber.value - 1);
              && (r.Raised? <==> !analysisCompletes)
              && r.state.index == k && r.state.game == s.game && Synced(r.state)
              && r.state.board.played == s.game.mainline[..ReplayCount(k, |s.game.mainline|)]
    ensures selectedNumber.Some? && 1 <= selectedNumber.value <= (|s.game.mainline| + 1) / 2 ==> IndexTracks(r.state)
  {
    if selectedNumber.Some? {
      r := GoToWithEngine(s, 2 * (selectedNumber.value - 1), analysisCompletes);
    } else {
      r := Returned(s);
    }
  }

  /**
   * `on_canvas_resize`: the square size becomes the largest that fits eight
   * squares in the canvas, even 0 for a canvas under 8 pixels; nothing else changes.
   */
  function Resize(s: Session, width: nat, height: nat): (r: Session)
    ensures r == s.(squareSize := r.squareSize)
    ensures 8 * r.squareSize <= width && 8 * r.squareSize <= height
    ensures width < 8 * r.squareSize + 8 || height < 8 * r.squareSize + 8
  {
    s.(squareSize := ResizedSquare(width, height))
  }

  /** After shrinking the canvas below 8 pixels, the next click raises and changes nothing. */
  lemma ClickAfterTinyResizeRaises(lib: Library, s: Session, width: nat, height: nat, x: int, y: int)
    requires ValidNode(s.game, s.node)
    requires width < 8 || height < 8
    ensures Click(lib, Resize(s, width, height), x, y) == Raised(Resize(s, width, height))
  {
    TinyCanvasBreaksClicks(width, height, x, y);
  }
}
