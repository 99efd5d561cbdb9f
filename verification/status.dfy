/**
 * The status line under the board. `Code/gui.py` and `Code/play_bot.py`
 * report checkmate, then stalemate, then check, then the side to move;
 * `gui.py` has no stalemate branch.
 */
module StatusLabel {
  import opened Chess

  /** The label text and the colour of the frame behind it. */
  datatype Banner = Banner(text: string, color: string)

  function MateText(winner: Color): string
  {
    "Checkmate! " + ColorName(winner) + " wins!"
  }

  const StalemateText := "Stalemate! Game is drawn."

  function CheckText(toMove: Color): string
  {
    "Check! " + ColorName(toMove) + " to move."
  }

  function ToMoveText(toMove: Color): string
  {
    ColorName(toMove) + " to move"
  }

  /** The side that made the last move of a position with at least one move. */
  function LastMover(lib: Library, p: Position): Color
    requires |p.played| > 0
  {
    Turn(lib, Position(p.start, p.played[..|p.played| - 1]))
  }

  /**
   * `update_status_labels` of `Code/gui.py` (and `update_turn_indicator` of
   * `Code/play_bot.py`): checkmate outranks stalemate, which outranks check;
   * a mate names as winner the side that delivered it.
   */
  function FullStatus(lib: Library, p: Position): (r: Banner)
    ensures lib.isCheckmate(p) <==> r.color == "#d64045"
    ensures lib.isCheckmate(p) ==> r.text == MateText(Opponent(Turn(lib, p)))
    ensures lib.isCheckmate(p) && |p.played| > 0 ==> r.text == MateText(LastMover(lib, p))
    ensures r.text == StalemateText <==> !lib.isCheckmate(p) && lib.isStalemate(p)
    ensures r.color == "#e69a00" <==> !lib.isCheckmate(p) && !lib.isStalemate(p) && lib.isCheck(p)
    ensures !lib.isCheckmate(p) && !lib.isStalemate(p) && lib.isCheck(p) ==> r.text == CheckText(Turn(lib, p))
    ensures !lib.isCheckmate(p) && !lib.isStalemate(p) && !lib.isCheck(p) ==>
              r.text == ToMoveText(Turn(lib, p)) && (r.color == "#1f538d" <==> Turn(lib, p) == White)
  {
    var turn := Turn(lib, p);
    if lib.isCheckmate(p) then Banner(MateText(Opponent(turn)), "#d64045")
    else if lib.isStalemate(p) then Banner(StalemateText, "#777777")
    else if lib.isCheck(p) then Banner(CheckText(turn), "#e69a00")
    else Banner(ToMoveText(turn), if turn == White then "#1f538d" else "#333333")
  }

  /** The title the status is appended to in `gui.py`, bullet mis-decoded as in the source. */
  const TitlePrefix := "Chess Toolkit Pro \U{e2}\U{20ac}\U{a2} "

  /** `update_status_labels` of `gui.py`: checkmate, then check, then the side to move. */
  function ShortStatus(lib: Library, p: Position): (r: string)
    ensures lib.isCheckmate(p) <==> r == TitlePrefix + MateText(Opponent(Turn(lib, p)))
    ensures !lib.isCheckmate(p) ==>
              r == TitlePrefix + (if lib.isCheck(p) then CheckText(Turn(lib, p)) else ToMoveText(Turn(lib, p)))
  {
    var turn := Turn(lib, p);
    TitlePrefix + (if lib.isCheckmate(p) then MateText(Opponent(turn))
                   else if lib.isCheck(p) then CheckText(turn)
                   else ToMoveText(turn))
  }

  /** The two variants say the same thing except on a stalemate, which `gui.py` reports as an ordinary turn. */
  lemma VariantsDifferOnlyOnStalemate(lib: Library, p: Position)
    ensures ShortStatus(lib, p) == TitlePrefix + FullStatus(lib, p).text
            <==> !(lib.isStalemate(p) && !lib.isCheckmate(p))
    ensures lib.isStalemate(p) && !lib.isCheckmate(p) && !lib.isCheck(p) ==>
              ShortStatus(lib, p) == TitlePrefix + ToMoveText(Turn(lib, p))
  {
    if lib.isStalemate(p) && !lib.isCheckmate(p) {
      var t := ShortStatus(lib, p)[|TitlePrefix|..];
      assert ShortStatus(lib, p) == TitlePrefix + t;
      if lib.isCheck(p) {
        assert t == CheckText(Turn(lib, p));
        assert t[0] != StalemateText[0];
      } else {
        assert t == ToMoveText(Turn(lib, p));
        assert t[0] != StalemateText[0];
      }
    }
  }
}
