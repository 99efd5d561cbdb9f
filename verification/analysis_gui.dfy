/**
 * What `Code/gui.py` adds to the shared session: selecting a line of the
 * text history panel.
 */
module AnalysisGui {
  import opened Navigation
  import opened Session

  /**
   * `on_pgn_select`: line `line` (0-based) of the history panel is accepted
   * only when fewer than `tokens` move-number tokens precede it in the
   * exported movetext, and then the cursor jumps to White's half-move of
   * full-move `line + 1`, half-move index `2 * line`.
   */
  method OnPgnSelect(s: Session, line: int, tokens: nat) returns (r: Session)
    ensures !(0 <= line < tokens) ==> r == s
    ensures 0 <= line < tokens ==>
              && r.index == 2 * line && r.game == s.game && Synced(r)
              && r.board.played == s.game.mainline[..ReplayCount(2 * line, |s.game.mainline|)]
    ensures 0 <= line < tokens && tokens <= (|s.game.mainline| + 1) / 2 ==> IndexTracks(r)
  {
    if 0 <= line < tokens {
      r := GoTo(s, 2 * line);
    } else {
      r := s;
    }
  }
}
