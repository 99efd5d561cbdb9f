/**
 * Move text shown beside the board: SAN along a replay, move-number labels
 * (White's half-move opens a numbered row, as the move-number indications of
 * section 8.2.2 of the PGN Standard prescribe), the principal-variation line
 * and the mate score.
 */
module Notation {
  import opened Chess
  import opened Text

  /** SAN of each move of `moves`, each rendered on a copy of `p` with the earlier moves pushed. */
  function Sans(lib: Library, p: Position, moves: seq<Move>): (r: seq<string>)
    ensures |r| == |moves|
    ensures forall i :: 0 <= i < |moves| ==>
              r[i] == lib.san(Position(p.start, p.played + moves[..i]), moves[i])
    decreases |moves|
  {
    if |moves| == 0 then []
    else
      var rest := Sans(lib, p.Push(moves[0]), moves[1..]);
      assert forall i :: 1 <= i < |moves| ==>
        p.played + moves[..i] == p.Push(moves[0]).played + moves[1..][..i - 1];
      assert p.played + moves[..0] == p.played;
      [lib.san(p, moves[0])] + rest
  }

  /** The full-move number of half-move `i` (0-based): two half-moves per full move. */
  function FullMoveNumber(i: nat): (n: nat)
    ensures n >= 1 && 2 * (n - 1) <= i <= 2 * (n - 1) + 1
  {
    i / 2 + 1
  }

  /** The SAN of half-move `i` of a game played from the standard start, in the position before it. */
  function SanAt(lib: Library, moves: seq<Move>, i: nat): string
    requires i < |moves|
  {
    lib.san(Position(StandardStart, moves[..i]), moves[i])
  }

  /** The SAN list of a game from the standard start holds `SanAt` at every index. */
  lemma SansFromStart(lib: Library, moves: seq<Move>, i: nat)
    requires i < |moves|
    ensures Sans(lib, Initial, moves)[i] == SanAt(lib, moves, i)
  {
    assert Initial.played + moves[..i] == moves[..i];
  }

  /** The label opening a row: the full-move number, a period and a space. */
  function MoveNumberLabel(i: nat): string
  {
    NatToString(FullMoveNumber(i)) + ". "
  }

  /** The label ends in ". " and the digits before it read back as the full-move number. */
  lemma MoveNumberLabelParses(i: nat)
    ensures var r := MoveNumberLabel(i);
            |r| >= 3 && r[|r| - 2..] == ". " && ParseNat(r[..|r| - 2]) == FullMoveNumber(i)
  {
    var digits := NatToString(FullMoveNumber(i));
    NatToStringRoundTrip(FullMoveNumber(i));
    assert (digits + ". ")[..|digits|] == digits;
  }

  /** How many principal-variation moves the analysis panel shows. */
  const PvShown := 5

  function Min(a: int, b: int): int
  {
    if a <= b then a else b
  }

  lemma JoinShowsParts(xs: seq<string>)
    ensures |xs| > 0 && (forall k :: 0 <= k < |xs| ==> Avoids(xs[k], ' ')) ==> Split(Join(xs, ' '), ' ') == xs
  {
    if |xs| > 0 && (forall k :: 0 <= k < |xs| ==> Avoids(xs[k], ' ')) {
      SplitJoinRoundTrip(xs, ' ');
    }
  }

  /** The part of a formatted line before the trailing ellipsis, if any. */
  function ShownMoves(line: string, pvLength: nat): string
  {
    if pvLength > PvShown && |line| >= 3 then line[..|line| - 3] else line
  }

  /**
   * `format_pv`: the first five SAN moves of the principal variation joined
   * by single spaces, followed by "..." exactly when more moves exist.
   * Splitting the shown part on spaces gives back those SAN moves whenever
   * no SAN contains a space.
   */
  function FormatPv(lib: Library, p: Position, pv: seq<Move>): (r: string)
    ensures |pv| == 0 ==> r == ""
    ensures |pv| > PvShown ==> |r| >= 3 && r[|r| - 3..] == "..."
    ensures var sans := Sans(lib, p, pv)[..Min(PvShown, |pv|)];
            |pv| > 0 && (forall k :: 0 <= k < |sans| ==> Avoids(sans[k], ' ')) ==>
              Split(ShownMoves(r, |pv|), ' ') == sans
  {
    var sans := Sans(lib, p, pv)[..Min(PvShown, |pv|)];
    var line := Join(sans, ' ');
    JoinShowsParts(sans);
    if |pv| > PvShown then
      assert (line + "...")[..|line|] == line;
      line + "..."
    else line
  }

  /**
   * The mate branch of `format_score`: "M" followed by the distance to mate
   * in decimal, without its sign.
   */
  function FormatMate(n: int): (r: string)
    ensures |r| >= 2 && r[0] == 'M' && AllDigits(r[1..])
    ensures ParseNat(r[1..]) == (if n < 0 then -n else n)
  {
    var d := if n < 0 then -n else n;
    NatToStringRoundTrip(d);
    assert ("M" + NatToString(d))[1..] == NatToString(d);
    "M" + NatToString(d)
  }

  /** Who mates is not shown: a mate for and against the side to move print alike. */
  lemma MateSignDropped(n: int)
    ensures FormatMate(n) == FormatMate(-n)
  {
  }
}
