/**
 * The game record and the navigation cursor shared by every board view:
 * appending a move as a variation of the current node, and jumping to a
 * half-move by replaying the mainline from the standard start.
 */
module Navigation {
  import opened Outcomes
  import opened Chess

  /**
   * A game record (`chess.pgn.Game`): its header tags and its mainline. Side
   * variations are not stored; their only trace is an off-mainline `NodeRef`.
   */
  datatype Game = Game(headers: map<string, string>, mainline: seq<Move>)

  /** `chess.pgn.Game()`: the Seven Tag Roster with unknown values and no moves. */
  function NewGame(): (g: Game)
    ensures g.mainline == []
    ensures "Event" in g.headers && "Result" in g.headers && g.headers["Result"] == "*"
  {
    Game(map["Event" := "?", "Site" := "?", "Date" := "????.??.??", "Round" := "?",
             "White" := "?", "Black" := "?", "Result" := "*"], [])
  }

  /**
   * A node of the game tree: follow the mainline for `depth` moves, then the
   * moves `off` along a variation created from there (empty when the node is
   * on the mainline).
   */
  datatype NodeRef = NodeRef(depth: nat, off: seq<Move>)

  const Root := NodeRef(0, [])

  predicate ValidNode(g: Game, n: NodeRef)
  {
    n.depth <= |g.mainline|
  }

  /** The moves leading from the root to a node. */
  function Path(g: Game, n: NodeRef): seq<Move>
    requires ValidNode(g, n)
  {
    g.mainline[..n.depth] + n.off
  }

  /** The node is the last node of the mainline, the only node without children. */
  predicate AtTip(g: Game, n: NodeRef)
  {
    n.off == [] && n.depth == |g.mainline|
  }

  /**
   * `node.add_variation(move)`: a new child is appended to the node's
   * children. Only a childless node gets it as its main child, so the game's
   * mainline grows only when the node is the mainline's tip; anywhere else
   * the move starts or extends a side variation.
   */
  function AddVariation(g: Game, n: NodeRef, m: Move): (r: (Game, NodeRef))
    requires ValidNode(g, n)
    ensures ValidNode(r.0, r.1)
    ensures Path(r.0, r.1) == Path(g, n) + [m]
    ensures r.0.headers == g.headers
    ensures AtTip(g, n) ==> r.0.mainline == g.mainline + [m] && AtTip(r.0, r.1)
    ensures !AtTip(g, n) ==> r.0 == g && r.1.off != []
  {
    if AtTip(g, n) then (Game(g.headers, g.mainline + [m]), NodeRef(n.depth + 1, []))
    else (g, NodeRef(n.depth, n.off + [m]))
  }

  /** How many mainline moves `go_to_move(k)` replays: those with index at most `k`. */
  function ReplayCount(k: int, n: nat): (c: nat)
    ensures c <= n
    ensures c == (if k + 1 <= 0 then 0 else if k + 1 >= n then n else k + 1)
  {
    if k < 0 then 0 else if k + 1 < n then k + 1 else n
  }

  /**
   * `go_to_move(k)`: a fresh standard board and the game's root, then every
   * mainline move with index at most `k` is pushed and the node follows the
   * main child. The cursor index is set to `k` as given, without clamping.
   */
  method GoToMove(g: Game, k: int) returns (board: Position, node: NodeRef, index: int)
    ensures board.start == StandardStart
    ensures board.played == g.mainline[..ReplayCount(k, |g.mainline|)]
    ensures node == NodeRef(|board.played|, []) && ValidNode(g, node)
    ensures Path(g, node) == board.played
    ensures index == k
  {
    board := Initial;
    node := Root;
    var i := 0;
    while i < |g.mainline|
      invariant 0 <= i <= |g.mainline|
      invariant i <= ReplayCount(k, |g.mainline|)
      invariant board == Position(StandardStart, g.mainline[..i])
      invariant node == NodeRef(i, [])
    {
      if i > k {
        break;
      }
      board := board.Push(g.mainline[i]);
      assert g.mainline[..i + 1] == g.mainline[..i] + [g.mainline[i]];
      node := NodeRef(node.depth + 1, []);
      i := i + 1;
    }
    index := k;
  }

  /** What `chess.pgn.read_game` gives back for a text. */
  datatype ReadOutcome =
    | GameRead(game: Game)
    /** No game in the text: `read_game` returns `None`. */
    | NoGame
    /** The reader raised an exception with this message. */
    | ReadFailed(message: string)
}
