/**
 * The play-against-bot window: a fixed 80-pixel board on which only White
 * pieces can be picked up, a move history split into a White list and a
 * Black list, and the start / resign / reset controls. The engine's reply is
 * only scheduled here; playing it belongs to the engine process.
 */
module BotGame {
  import opened Outcomes
  import opened Chess
  import opened Notation

  /** The fixed square size of the bot board, in pixels. */
  const SquareSize := 80

  /** The rows selected in the White and Black move lists (single-selection listboxes). */
  datatype ListSel = ListSel(white: Option<int>, black: Option<int>)

  const NoSelection := ListSel(None, None)

  /**
   * The window's state: the board, whether a game was started, the picked-up
   * square, the status line, how many engine replies were scheduled, the
   * moves last written into the two lists, the two lists' rows and their
   * selections.
   */
  datatype Bot = Bot(
    board: Position,
    started: bool,
    selected: Option<Square>,
    status: string,
    repliesScheduled: nat,
    listed: seq<Move>,
    whiteRows: seq<string>,
    blackRows: seq<string>,
    lists: ListSel)

  /** The window as it opens: a fresh board, no game started, empty lists. */
  const Opened := Bot(Initial, false, None, "", 0, [], [], [], NoSelection)

  /**
   * The two lists show the first `n` half-moves of `moves`: White's, each
   * after its move number, in the White list and Black's bare in the Black
   * list.
   */
  predicate ShowsFirst(lib: Library, moves: seq<Move>, n: nat, white: seq<string>, black: seq<string>)
    requires n <= |moves|
  {
    && |white| == (n + 1) / 2
    && |black| == n / 2
    && (forall j :: 0 <= j < |white| ==> white[j] == MoveNumberLabel(2 * j) + SanAt(lib, moves, 2 * j))
    && (forall j :: 0 <= j < |black| ==> black[j] == SanAt(lib, moves, 2 * j + 1))
  }

  /** The two lists show the whole game `moves`. */
  predicate ShowsMoves(lib: Library, moves: seq<Move>, white: seq<string>, black: seq<string>)
  {
    ShowsFirst(lib, moves, |moves|, white, black)
  }

  /** The window is consistent: the lists show `listed`, and the board is a prefix of it. */
  predicate Consistent(lib: Library, b: Bot)
  {
    && b.board.start == StandardStart
    && ShowsMoves(lib, b.listed, b.whiteRows, b.blackRows)
    && b.board.played <= b.listed
  }

  lemma OpenedIsConsistent(lib: Library)
    ensures Consistent(lib, Opened)
  {
  }

  /** Half-move `i` is shown in row `i / 2` of the list of its colour. */
  lemma EveryMoveIsShown(lib: Library, moves: seq<Move>, white: seq<string>, black: seq<string>, i: nat)
    requires ShowsMoves(lib, moves, white, black) && i < |moves|
    ensures i % 2 == 0 ==> i / 2 < |white| && white[i / 2] == MoveNumberLabel(i) + SanAt(lib, moves, i)
    ensures i % 2 == 1 ==> i / 2 < |black| && black[i / 2] == SanAt(lib, moves, i)
  {
    if i % 2 == 0 {
      assert 2 * (i / 2) == i;
    } else {
      assert 2 * (i / 2) + 1 == i;
    }
  }

  /** An even half-move becomes a new numbered row of the White list. */
  lemma ShowsWhiteMove(lib: Library, moves: seq<Move>, white: seq<string>, black: seq<string>, i: nat)
    requires i < |moves| && i % 2 == 0 && ShowsFirst(lib, moves, i, white, black)
    ensures ShowsFirst(lib, moves, i + 1, white + [MoveNumberLabel(i) + SanAt(lib, moves, i)], black)
  {
    var w := white + [MoveNumberLabel(i) + SanAt(lib, moves, i)];
    assert |w| == (i + 2) / 2;
    forall j | 0 <= j < |w|
      ensures w[j] == MoveNumberLabel(2 * j) + SanAt(lib, moves, 2 * j)
    {
      if j == |white| {
        assert 2 * j == i;
      }
    }
  }

  /** An odd half-move becomes a new bare row of the Black list. */
  lemma ShowsBlackMove(lib: Library, moves: seq<Move>, white: seq<string>, black: seq<string>, i: nat)
    requires i < |moves| && i % 2 == 1 && ShowsFirst(lib, moves, i, white, black)
    ensures ShowsFirst(lib, moves, i + 1, white, black + [SanAt(lib, moves, i)])
  {
    var bl := black + [SanAt(lib, moves, i)];
    assert |bl| == (i + 1) / 2;
    forall j | 0 <= j < |bl|
      ensures bl[j] == SanAt(lib, moves, 2 * j + 1)
    {
      if j == |black| {
        assert 2 * j + 1 == i;
      }
    }
  }

  /**
   * `highlight_selected_move`: both selections are cleared and the row of
   * half-move `k` is selected in the list of its colour. The row and the
   * list together encode `k` back.
   */
  function Highlight(k: int): (r: ListSel)
    ensures r.white.Some? != r.black.Some?
    ensures r.white.Some? ==> 2 * r.white.value == k
    ensures r.black.Some? ==> 2 * r.black.value + 1 == k
  {
    if k % 2 == 0 then ListSel(Some(k / 2), None) else ListSel(None, Some(k / 2))
  }

  /**
   * `update_pgn`: both lists are refilled from the board's move stack,
   * replayed on a fresh board for the SANs; when a list is non-empty the
   * last half-move is highlighted.
   */
  method UpdatePgn(lib: Library, moves: seq<Move>) returns (white: seq<string>, black: seq<string>, lists: ListSel)
    ensures ShowsMoves(lib, moves, white, black)
    ensures |moves| > 0 ==> lists == Highlight(|moves| - 1)
    ensures |moves| == 0 ==> lists == NoSelection
  {
    white, black, lists := [], [], NoSelection;
    var copy := Initial;
    for i := 0 to |moves|
      invariant copy == Position(StandardStart, moves[..i])
      invariant ShowsFirst(lib, moves, i, white, black)
    {
      var text := lib.san(copy, moves[i]);
      if i % 2 == 0 {
        ShowsWhiteMove(lib, moves, white, black, i);
        white := white + [MoveNumberLabel(i) + text];
      } else {
        ShowsBlackMove(lib, moves, white, black, i);
        black := black + [text];
      }
      assert moves[..i + 1] == moves[..i] + [moves[i]];
      copy := copy.Push(moves[i]);
    }
    if |white| > 0 || |black| > 0 {
      lists := Highlight(|moves| - 1);
    }
  }

  /** The square a click at pixel `(x, y)` names: file `x // 80`, rank `7 - y // 80`, with no bounds check. */
  function ClickedSquare(x: nat, y: nat): (sq: Square)
    ensures x < 8 * SquareSize && y < 8 * SquareSize ==>
              0 <= sq < 64 && FileOf(sq) == x / SquareSize && RankOf(sq) == 7 - y / SquareSize
  {
    if x < 8 * SquareSize && y < 8 * SquareSize then
      SquareCoordinates(x / SquareSize, 7 - y / SquareSize);
      SquareOf(x / SquareSize, 7 - y / SquareSize)
    else
      SquareOf(x / SquareSize, 7 - y / SquareSize)
  }

  /** The human plays White: only a White piece can be picked up, whoever is to move. */
  predicate WhitePieceAt(lib: Library, p: Position, sq: Square)
  {
    lib.pieceAt(p, sq).Some? && lib.pieceAt(p, sq).value.color == White
  }

  /**
   * `on_square_click`. Before Start only the status line changes. With
   * nothing picked up, a White piece on the clicked square is picked up.
   * Otherwise the move from the picked-up square (never a promotion) is
   * pushed when legal, the lists are refilled and one engine reply is
   * scheduled; legal or not, the pick-up is dropped.
   */
  method Click(lib: Library, b: Bot, x: nat, y: nat) returns (r: Bot)
    ensures !b.started ==> r == b.(status := "Press 'Start Game' to begin.")
    ensures b.started && b.selected == None ==>
              && r.(selected := None) == b.(selected := None)
              && (r.selected.Some? <==> WhitePieceAt(lib, b.board, ClickedSquare(x, y)))
              && (r.selected.Some? ==> r.selected.value == ClickedSquare(x, y))
    ensures b.started && b.selected.Some? ==>
              var m := Move(b.selected.value, ClickedSquare(x, y), None);
              && r.selected == None && r.started && r.status == b.status
              && (!lib.isLegal(b.board, m) ==> r == b.(selected := None))
              && (lib.isLegal(b.board, m) ==>
                    && r.board == b.board.Push(m)
                    && r.listed == r.board.played
                    && r.repliesScheduled == b.repliesScheduled + 1
                    && r.lists == Highlight(|r.listed| - 1))
    ensures Consistent(lib, b) ==> Consistent(lib, r)
  {
    if !b.started {
      return b.(status := "Press 'Start Game' to begin.");
    }
    var sq := ClickedSquare(x, y);
    if b.selected == None {
      if WhitePieceAt(lib, b.board, sq) {
        return b.(selected := Some(sq));
      }
      return b;
    }
    var m := Move(b.selected.value, sq, None);
    if lib.isLegal(b.board, m) {
      var board := b.board.Push(m);
      var white, black, lists := UpdatePgn(lib, board.played);
      r := b.(board := board, listed := board.played, whiteRows := white, blackRows := black, lists := lists,
              selected := None, repliesScheduled := b.repliesScheduled + 1);
    } else {
      r := b.(selected := None);
    }
  }

  /** A click on row `row` of one list selects it there; the other list keeps its selection. */
  function ClickRow(ls: ListSel, fromBlack: bool, row: nat): (r: ListSel)
    ensures fromBlack ==> r.black == Some(row) && r.white == ls.white
    ensures !fromBlack ==> r.white == Some(row) && r.black == ls.black
  {
    if fromBlack then ls.(black := Some(row)) else ls.(white := Some(row))
  }

  /**
   * The half-move `on_pgn_select` computes, as written: the White list's
   * selection is taken when there is one, even when the click was in the
   * Black list, and doubled, plus one for a click in the Black list.
   */
  function SelectedMoveAsWritten(ls: ListSel, fromBlack: bool): (r: Option<int>)
    ensures r.Some? <==> ls.white.Some? || ls.black.Some?
    ensures ls.white.Some? ==> r == Some(2 * ls.white.value + (if fromBlack then 1 else 0))
  {
    var sel := if ls.white.Some? then ls.white else ls.black;
    if sel.None? then None else Some(2 * sel.value + (if fromBlack then 1 else 0))
  }

  /** The half-move the click evidently means: the selection of the list that was clicked. */
  function SelectedMove(ls: ListSel, fromBlack: bool): (r: Option<int>)
    ensures fromBlack ==> (r.Some? <==> ls.black.Some?) && (r.Some? ==> r.value == 2 * ls.black.value + 1)
    ensures !fromBlack ==> (r.Some? <==> ls.white.Some?) && (r.Some? ==> r.value == 2 * ls.white.value)
  {
    var sel := if fromBlack then ls.black else ls.white;
    if sel.None? then None else Some(2 * sel.value + (if fromBlack then 1 else 0))
  }

  /** A click on a row selects exactly the half-move shown in that row, and highlighting it selects that row again. */
  lemma ClickedRowRoundTrip(ls: ListSel, fromBlack: bool, row: nat)
    ensures SelectedMove(ClickRow(ls, fromBlack, row), fromBlack) == Some(2 * row + (if fromBlack then 1 else 0))
    ensures var k := 2 * row + (if fromBlack then 1 else 0);
            Highlight(k) == (if fromBlack then ListSel(None, Some(row)) else ListSel(Some(row), None))
  {
  }

  /**
   * The code as written agrees with the intended reading exactly when the
   * click was in the White list, or the White list has no other selected row.
   */
  lemma AsWrittenAgreesIff(ls: ListSel, fromBlack: bool, row: nat)
    ensures SelectedMoveAsWritten(ClickRow(ls, fromBlack, row), fromBlack) ==
            SelectedMove(ClickRow(ls, fromBlack, row), fromBlack)
            <==> !fromBlack || ls.white.None? || ls.white.value == row
  {
  }

  /**
   * After three half-moves `update_pgn` highlights the third (White list,
   * row 1); clicking Black's first reply (Black list, row 0) then jumps to
   * half-move 3 instead of half-move 1.
   */
  lemma StaleSelectionCounterexample()
    ensures var ls := ClickRow(Highlight(2), true, 0);
            SelectedMoveAsWritten(ls, true) == Some(3) && SelectedMove(ls, true) == Some(1)
  {
  }

  /** Python's `s[:stop]`: a negative stop counts from the end. */
  function SliceTo<T>(s: seq<T>, stop: int): (r: seq<T>)
    ensures r <= s
    ensures 0 <= stop ==> |r| == if stop < |s| then stop else |s|
    ensures stop < 0 ==> |r| == if -stop < |s| then |s| + stop else 0
  {
    if stop >= 0 then (if stop < |s| then s[..stop] else s)
    else if -stop < |s| then s[..|s| + stop] else []
  }

  /**
   * `go_to_move` as written: the board is replaced by a fresh one before its
   * move stack is sliced, so the replay has nothing to push and the board is
   * always the initial position; only the highlight moves.
   */
  function GoToMoveAsWritten(b: Bot, k: int): (r: Bot)
    ensures r.board.played == SliceTo(Initial.played, k + 1)
    ensures r.board == Initial && r.lists == Highlight(k)
    ensures r.(board := b.board, lists := b.lists) == b
  {
    b.(board := Initial, lists := Highlight(k))
  }

  /** Selecting Black's first reply shows the initial position instead of the position after it. */
  lemma GoToMoveCounterexample(b: Bot)
    requires |b.listed| >= 2
    ensures GoToMoveAsWritten(b, 1).board.played != SliceTo(b.listed, 2)
  {
  }

  /**
   * `go_to_move` as evidently intended: a fresh board replays the listed
   * moves up to and including half-move `k`.
   */
  method GoToMove(b: Bot, k: int) returns (r: Bot)
    ensures r.board == Position(StandardStart, SliceTo(b.listed, k + 1))
    ensures r.lists == Highlight(k)
    ensures r.(board := b.board, lists := b.lists) == b
  {
    var replay := SliceTo(b.listed, k + 1);
    var board := Initial;
    for i := 0 to |replay|
      invariant board == Position(StandardStart, replay[..i])
    {
      assert replay[..i + 1] == replay[..i] + [replay[i]];
      board := board.Push(replay[i]);
    }
    assert replay[..|replay|] == replay;
    r := b.(board := board, lists := Highlight(k));
  }

  /**
   * `on_pgn_select` as written, after a click on row `row` of one list: the
   * White list's selection wins, and the replay leaves the initial position
   * on the board; only the highlight follows the selected half-move.
   */
  function OnPgnSelect(b: Bot, fromBlack: bool, row: nat): (r: Bot)
    ensures var k := 2 * (if b.lists.white.Some? && fromBlack then b.lists.white.value else row)
                     + (if fromBlack then 1 else 0);
            && r.board == Initial
            && r.lists == Highlight(k)
            && r.(board := b.board, lists := b.lists) == b
  {
    var ls := ClickRow(b.lists, fromBlack, row);
    var k := SelectedMoveAsWritten(ls, fromBlack);
    GoToMoveAsWritten(b.(lists := ls), k.value)
  }

  /**
   * `on_pgn_select` after a click on row `row` of one list, with the
   * intended reading of the selection and of the replay.
   */
  method OnPgnSelectIntended(b: Bot, fromBlack: bool, row: nat) returns (r: Bot)
    ensures var k := 2 * row + (if fromBlack then 1 else 0);
            && r.board == Position(StandardStart, SliceTo(b.listed, k + 1))
            && r.lists == Highlight(k)
            && r.(board := b.board, lists := b.lists) == b
  {
    var ls := ClickRow(b.lists, fromBlack, row);
    ClickedRowRoundTrip(b.lists, fromBlack, row);
    var k := SelectedMove(ls, fromBlack);
    r := GoToMove(b.(lists := ls), k.value);
  }

  /**
   * With the intended handler, selecting a row of a consistent window puts
   * on the board exactly the position after the half-move that row shows,
   * and keeps the window consistent.
   */
  lemma SelectShowsRow(lib: Library, b: Bot, fromBlack: bool, row: nat)
    requires Consistent(lib, b)
    requires row < if fromBlack then |b.blackRows| else |b.whiteRows|
    ensures var k := 2 * row + (if fromBlack then 1 else 0);
            var played := SliceTo(b.listed, k + 1);
            && k < |b.listed| && |played| == k + 1 && played[k] == b.listed[k]
            && SanAt(lib, b.listed, k) == lib.san(Position(StandardStart, played[..k]), played[k])
            && (if fromBlack then b.blackRows[row] == SanAt(lib, b.listed, k)
                else b.whiteRows[row] == MoveNumberLabel(k) + SanAt(lib, b.listed, k))
            && Consistent(lib, b.(board := Position(StandardStart, played), lists := Highlight(k)))
  {
    var k := 2 * row + (if fromBlack then 1 else 0);
    var played := SliceTo(b.listed, k + 1);
    assert k < |b.listed|;
    assert played == b.listed[..k + 1];
    assert played[..k] == b.listed[..k];
  }

  /** `start_game`: the game starts; the engine choice is locked. */
  function StartGame(b: Bot): (r: Bot)
    ensures r.started && r.(started := b.started) == b
  {
    b.(started := true)
  }

  /** `resign_game`: the game stops and the status says so; board and lists stay. */
  function ResignGame(b: Bot): (r: Bot)
    ensures !r.started && r.status == "You resigned. Game over."
    ensures r.(started := b.started, status := b.status) == b
  {
    b.(started := false, status := "You resigned. Game over.")
  }

  /**
   * `reset_game`: a fresh board, no game started, nothing picked up, and
   * `update_pgn` empties both lists. The status line and replies already
   * scheduled are left as they are.
   */
  method ResetGame(lib: Library, b: Bot) returns (r: Bot)
    ensures r.board == Initial && !r.started && r.selected == None
    ensures r.listed == [] && r.whiteRows == [] && r.blackRows == [] && r.lists == NoSelection
    ensures r.status == b.status && r.repliesScheduled == b.repliesScheduled
    ensures Consistent(lib, r)
  {
    var white, black, lists := UpdatePgn(lib, []);
    r := b.(board := Initial, started := false, selected := None,
            listed := [], whiteRows := white, blackRows := black, lists := lists);
  }
}
