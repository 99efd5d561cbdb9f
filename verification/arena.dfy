/**
 * `Code/battle_arena.py`: two engines play a series of games on a worker
 * thread. Engine processes are abstract: `Engines.play` is the move the
 * process at a path returns for a position (`None` when the call raises),
 * and `running` gives the match-running flag at each successive read, which
 * is how a stop request from the UI thread reaches the worker.
 */
module Arena {
  import opened Outcomes
  import opened Chess
  import opened Text
  import opened Notation
  import opened Navigation

  /** Games per match: the "Number of Games" field is never read, so the constructor's 10 always applies. */
  const NumGames := 10

  /** The two engines as configured in the menus, "Engine 1" and "Engine 2". */
  datatype Slot = Engine1 | Engine2

  function OtherSlot(s: Slot): Slot
  {
    if s == Engine1 then Engine2 else Engine1
  }

  datatype Config = Config(engine1Name: string, engine2Name: string, engine1Path: string, engine2Path: string)

  function NameOf(cfg: Config, s: Slot): string
  {
    if s == Engine1 then cfg.engine1Name else cfg.engine2Name
  }

  function PathOf(cfg: Config, s: Slot): string
  {
    if s == Engine1 then cfg.engine1Path else cfg.engine2Path
  }

  datatype Engines = Engines(launches: string -> bool, play: (string, Position) -> Option<Move>)

  /** The configured engine playing White in game `gameNum` (numbered from 1): engine 1 in odd games. */
  function WhiteSlot(gameNum: nat): Slot
  {
    if gameNum % 2 == 1 then Engine1 else Engine2
  }

  /** The engine that makes half-move `ply` (0-based) of game `gameNum`. */
  function MoverSlot(gameNum: nat, ply: nat): Slot
  {
    if ply % 2 == 0 then WhiteSlot(gameNum) else OtherSlot(WhiteSlot(gameNum))
  }

  /** The two processes opened for a game: the one called `engine1` plays White, `engine2` Black. */
  datatype Handles = Handles(whitePath: string, blackPath: string)

  function HandlesFor(cfg: Config, gameNum: nat): (h: Handles)
    ensures h.whitePath == PathOf(cfg, WhiteSlot(gameNum))
    ensures h.blackPath == PathOf(cfg, OtherSlot(WhiteSlot(gameNum)))
  {
    if gameNum % 2 == 1 then Handles(cfg.engine1Path, cfg.engine2Path)
    else Handles(cfg.engine2Path, cfg.engine1Path)
  }

  /**
   * The headers of each game record: `chess.pgn.Game()` starts with the
   * Seven Tag Roster, and `run_match` then assigns Event, Date, White, Black
   * and Round, so Site and Result keep their unknown values.
   */
  function GameHeaders(cfg: Config, gameNum: nat, date: string): (h: map<string, string>)
    ensures h.Keys == {"Event", "Site", "Date", "Round", "White", "Black", "Result"}
    ensures h["Event"] == "Engine Battle" && h["Date"] == date
    ensures h["Site"] == "?" && h["Result"] == "*"
    ensures h["White"] == NameOf(cfg, WhiteSlot(gameNum)) && h["Black"] == NameOf(cfg, OtherSlot(WhiteSlot(gameNum)))
    ensures ParseNat(h["Round"]) == gameNum
  {
    NatToStringRoundTrip(gameNum);
    NewGame().headers["Event" := "Engine Battle"]["Date" := date]
                     ["White" := if gameNum % 2 == 1 then cfg.engine1Name else cfg.engine2Name]
                     ["Black" := if gameNum % 2 == 1 then cfg.engine2Name else cfg.engine1Name]
                     ["Round" := NatToString(gameNum)]
  }

  /**
   * Colours alternate from one game to the next, and the engine named as
   * White in the headers is the one whose process plays White.
   */
  lemma ColoursAlternate(cfg: Config, gameNum: nat, date: string)
    ensures WhiteSlot(gameNum + 1) == OtherSlot(WhiteSlot(gameNum))
    ensures GameHeaders(cfg, gameNum + 1, date)["White"] == GameHeaders(cfg, gameNum, date)["Black"]
    ensures HandlesFor(cfg, gameNum + 1).whitePath == HandlesFor(cfg, gameNum).blackPath
  {
  }

  /** The process that moves in a position: the White process exactly when White is to move. */
  function Mover(lib: Library, h: Handles, p: Position): string
  {
    if Turn(lib, p) == White then h.whitePath else h.blackPath
  }

  datatype Credit = Win(winner: Slot) | Draw

  /**
   * The result of a finished game: a checkmate credits engine 1 when "Black
   * is mated" coincides with "engine 1 had White", otherwise engine 2; any
   * other ending, a stop included, is a draw.
   */
  function CreditFor(lib: Library, gameNum: nat, final: Position): Credit
  {
    if lib.isCheckmate(final) then
      if (Turn(lib, final) == Black) == (gameNum % 2 == 1) then Win(Engine1) else Win(Engine2)
    else Draw
  }

  /** A checkmate is credited to the engine that made the mating (last) half-move. */
  lemma CheckmateCreditsMatingEngine(lib: Library, gameNum: nat, final: Position)
    requires final.start == StandardStart && |final.played| > 0 && lib.isCheckmate(final)
    ensures CreditFor(lib, gameNum, final) == Win(MoverSlot(gameNum, |final.played| - 1))
  {
  }

  datatype Score = Score(engine1: nat, engine2: nat, draws: nat) {
    function Total(): nat
    {
      engine1 + engine2 + draws
    }

    function Add(c: Credit): (r: Score)
      ensures r.Total() == Total() + 1
      ensures c == Win(Engine1) <==> r.engine1 == engine1 + 1
      ensures c == Win(Engine2) <==> r.engine2 == engine2 + 1
      ensures c == Draw <==> r.draws == draws + 1
    {
      match c
      case Win(Engine1) => this.(engine1 := engine1 + 1)
      case Win(Engine2) => this.(engine2 := engine2 + 1)
      case Draw => this.(draws := draws + 1)
    }
  }

  /** How a game's half-move loop ended: the board, flag reads so far, and whether an engine call raised. */
  datatype GameEnd = GameEnd(board: Position, flagReads: nat, crashed: bool)

  /**
   * The half-move loop: while the game is not over and the flag (read only
   * when the game is not over) is set, the process for the side to move
   * plays and its move is pushed.
   */
  function PlayOut(lib: Library, eng: Engines, h: Handles, running: nat -> bool, board: Position, flagReads: nat): GameEnd
    requires GamesEnd(lib)
    decreases lib.plyBound - |board.played|
  {
    if lib.isGameOver(board) then GameEnd(board, flagReads, false)
    else if !running(flagReads) then GameEnd(board, flagReads + 1, false)
    else
      match eng.play(Mover(lib, h, board), board)
      case None => GameEnd(board, flagReads + 1, true)
      case Some(m) => PlayOut(lib, eng, h, running, board.Push(m), flagReads + 1)
  }

  /**
   * Every half-move a game adds was returned by the process of the engine
   * whose turn it was, for the position before it.
   */
  lemma {:induction false} MovesComeFromTheMover(
    lib: Library, eng: Engines, cfg: Config, gameNum: nat, running: nat -> bool, board: Position, flagReads: nat)
    requires GamesEnd(lib) && board.start == StandardStart
    ensures var e := PlayOut(lib, eng, HandlesFor(cfg, gameNum), running, board, flagReads);
            && e.board.start == StandardStart
            && |board.played| <= |e.board.played| && e.board.played[..|board.played|] == board.played
            && forall i :: |board.played| <= i < |e.board.played| ==>
                 eng.play(PathOf(cfg, MoverSlot(gameNum, i)), Position(StandardStart, e.board.played[..i]))
                   == Some(e.board.played[i])
    decreases lib.plyBound - |board.played|
  {
    var h := HandlesFor(cfg, gameNum);
    if !lib.isGameOver(board) && running(flagReads) && eng.play(Mover(lib, h, board), board).Some? {
      var m := eng.play(Mover(lib, h, board), board).value;
      var next := board.Push(m);
      MovesComeFromTheMover(lib, eng, cfg, gameNum, running, next, flagReads + 1);
      var e := PlayOut(lib, eng, h, running, next, flagReads + 1);
      var n := |board.played|;
      assert e.board.played[..n + 1] == next.played;
      assert e.board.played[..n] == board.played by {
        assert e.board.played[..n] == e.board.played[..n + 1][..n];
      }
      assert Position(StandardStart, e.board.played[..n]) == board;
      assert Mover(lib, h, board) == PathOf(cfg, MoverSlot(gameNum, n));
    }
  }

  /** The match state a run leaves behind. */
  datatype MatchEnd = MatchEnd(score: Score, entered: nat, aborted: bool, board: Position, flagReads: nat)

  /**
   * The game loop from game `gameNum` on: a cleared flag ends the match
   * before a game starts; otherwise the game is entered, both processes are
   * launched and the game played; an exception (launch or engine call)
   * abandons the match without crediting the game.
   */
  function MatchFrom(lib: Library, cfg: Config, eng: Engines, running: nat -> bool,
                     gameNum: nat, score: Score, board: Position, flagReads: nat): MatchEnd
    requires GamesEnd(lib) && gameNum >= 1
    decreases NumGames + 1 - gameNum
  {
    if gameNum > NumGames then MatchEnd(score, gameNum - 1, false, board, flagReads)
    else if !running(flagReads) then MatchEnd(score, gameNum - 1, false, board, flagReads + 1)
    else
      var h := HandlesFor(cfg, gameNum);
      if !eng.launches(h.whitePath) || !eng.launches(h.blackPath) then
        MatchEnd(score, gameNum, true, Initial, flagReads + 1)
      else
        var e := PlayOut(lib, eng, h, running, Initial, flagReads + 1);
        if e.crashed then MatchEnd(score, gameNum, true, e.board, e.flagReads)
        else MatchFrom(lib, cfg, eng, running, gameNum + 1, score.Add(CreditFor(lib, gameNum, e.board)), e.board, e.flagReads)
  }

  /**
   * Score conservation: every game entered adds exactly one to exactly one
   * counter, except a game abandoned by an exception, which adds nothing;
   * at most `NumGames` games are entered.
   */
  lemma {:induction false} MatchConservesScore(
    lib: Library, cfg: Config, eng: Engines, running: nat -> bool, gameNum: nat, score: Score, board: Position, flagReads: nat)
    requires GamesEnd(lib) && 1 <= gameNum <= NumGames + 1
    ensures var e := MatchFrom(lib, cfg, eng, running, gameNum, score, board, flagReads);
            && gameNum - 1 <= e.entered <= NumGames
            && e.score.Total() == score.Total() + (e.entered - (gameNum - 1)) - (if e.aborted then 1 else 0)
            && (e.aborted ==> e.entered >= gameNum)
    decreases NumGames + 1 - gameNum
  {
    if gameNum <= NumGames && running(flagReads) {
      var h := HandlesFor(cfg, gameNum);
      if eng.launches(h.whitePath) && eng.launches(h.blackPath) {
        var e := PlayOut(lib, eng, h, running, Initial, flagReads + 1);
        if !e.crashed {
          MatchConservesScore(lib, cfg, eng, running, gameNum + 1,
                              score.Add(CreditFor(lib, gameNum, e.board)), e.board, e.flagReads);
        }
      }
    }
  }

  /** The half-move loop of one game, from a fresh board. */
  method PlayGame(lib: Library, eng: Engines, h: Handles, running: nat -> bool, flagReads0: nat)
    returns (board: Position, flagReads: nat, crashed: bool)
    requires GamesEnd(lib)
    ensures PlayOut(lib, eng, h, running, Initial, flagReads0) == GameEnd(board, flagReads, crashed)
  {
    board, flagReads, crashed := Initial, flagReads0, false;
    while true
      invariant PlayOut(lib, eng, h, running, board, flagReads) == PlayOut(lib, eng, h, running, Initial, flagReads0)
      invariant !crashed
      decreases lib.plyBound - |board.played|
    {
      if lib.isGameOver(board) {
        return;
      }
      var go := running(flagReads);
      flagReads := flagReads + 1;
      if !go {
        return;
      }
      var reply := eng.play(Mover(lib, h, board), board);
      if reply.None? {
        crashed := true;
        return;
      }
      board := board.Push(reply.value);
    }
  }

  /**
   * One pass of the game loop for game `gameNum`: read the flag, enter the
   * game, launch both processes and play it out. The pass either ends the
   * match (`stop`) or credits the game and hands on to the next one.
   */
  method EnterGame(lib: Library, cfg: Config, eng: Engines, running: nat -> bool,
                   gameNum: nat, score: Score, board: Position, flagReads: nat)
    returns (stop: bool, score': Score, entered: nat, aborted: bool, board': Position, flagReads': nat)
    requires GamesEnd(lib) && 1 <= gameNum <= NumGames
    ensures !stop ==> !aborted && entered == gameNum
    ensures MatchFrom(lib, cfg, eng, running, gameNum, score, board, flagReads) ==
            if stop then MatchEnd(score', entered, aborted, board', flagReads')
            else MatchFrom(lib, cfg, eng, running, gameNum + 1, score', board', flagReads')
  {
    score', board', flagReads' := score, board, flagReads + 1;
    entered, aborted := gameNum - 1, false;
    var flag := running(flagReads);
    if !flag {
      return true, score', entered, aborted, board', flagReads';
    }
    entered := gameNum;
    var h := HandlesFor(cfg, gameNum);
    board' := Initial;
    if !eng.launches(h.whitePath) || !eng.launches(h.blackPath) {
      return true, score', entered, true, board', flagReads';
    }
    var crashed;
    board', flagReads', crashed := PlayGame(lib, eng, h, running, flagReads');
    if crashed {
      return true, score', entered, true, board', flagReads';
    }
    score' := score.Add(CreditFor(lib, gameNum, board'));
    stop := false;
  }

  /** What `run_match` leaves: the score, the games entered, and the flag and status its `finally` sets. */
  datatype Report = Report(score: Score, entered: nat, aborted: bool, board: Position, running: bool, status: string)

  /** The game loop of `run_match` over games 1..10, agreeing with the reference `MatchFrom`. */
  method GameLoop(lib: Library, cfg: Config, eng: Engines, running: nat -> bool, score0: Score, board0: Position)
    returns (score: Score, entered: nat, aborted: bool, board: Position)
    requires GamesEnd(lib)
    ensures var e := MatchFrom(lib, cfg, eng, running, 1, score0, board0, 0);
            score == e.score && entered == e.entered && aborted == e.aborted && board == e.board
  {
    var flagReads, gameNum, stop := 0, 1, false;
    score, board, entered, aborted := score0, board0, 0, false;
    ghost var spec := MatchFrom(lib, cfg, eng, running, gameNum, score, board, flagReads);
    while !stop && gameNum <= NumGames
      invariant 1 <= gameNum <= NumGames + 1
      invariant !stop ==> !aborted && entered == gameNum - 1 && MatchFrom(lib, cfg, eng, running, gameNum, score, board, flagReads) == spec
      invariant stop ==> spec == MatchEnd(score, entered, aborted, board, flagReads)
      decreases NumGames + 1 - gameNum, !stop
    {
      stop, score, entered, aborted, board, flagReads := EnterGame(lib, cfg, eng, running, gameNum, score, board, flagReads);
      if !stop {
        gameNum := gameNum + 1;
      }
    }
  }

  /**
   * `run_match`: the game loop and, inside it, the half-move loop; its
   * `finally` clears the flag and sets the status "Match completed." on
   * every exit path.
   */
  method RunMatch(lib: Library, cfg: Config, eng: Engines, running: nat -> bool, score0: Score, board0: Position)
    returns (r: Report)
    requires GamesEnd(lib)
    ensures var e := MatchFrom(lib, cfg, eng, running, 1, score0, board0, 0);
            r.score == e.score && r.entered == e.entered && r.aborted == e.aborted && r.board == e.board
    ensures r.entered <= NumGames
    ensures r.score.Total() == score0.Total() + r.entered - (if r.aborted then 1 else 0)
    ensures !r.running && r.status == "Match completed."
  {
    var score, entered, aborted, board := GameLoop(lib, cfg, eng, running, score0, board0);
    MatchConservesScore(lib, cfg, eng, running, 1, score0, board0, 0);
    r := Report(score, entered, aborted, board, false, "Match completed.");
  }

  /** The start/stop controls: the flag, the status line and how many worker threads were started. */
  datatype Control = Control(running: bool, status: string, workers: nat)

  /** `start_match`: a no-op while a match runs; otherwise sets the flag and starts one worker. */
  function StartMatch(c: Control): (r: Control)
    ensures c.running ==> r == c
    ensures !c.running ==> r == Control(true, "Match in progress...", c.workers + 1)
  {
    if c.running then c else Control(true, "Match in progress...", c.workers + 1)
  }

  /** `stop_match`: clears the flag; the worker notices only at its next read. */
  function StopMatch(c: Control): (r: Control)
    ensures !r.running && r.status == "Match stopped." && r.workers == c.workers
  {
    c.(running := false, status := "Match stopped.")
  }

  /** Pressing Start twice starts one worker. */
  lemma StartIsIdempotent(c: Control)
    ensures StartMatch(StartMatch(c)) == StartMatch(c)
    ensures StartMatch(StartMatch(c)).workers <= c.workers + 1
  {
  }

  /**
   * Row `j` of the move history of the first `n` half-moves: the move number,
   * White's SAN and, if among them, a space and Black's SAN.
   */
  function HistoryRow(lib: Library, moves: seq<Move>, n: nat, j: nat): string
    requires 2 * j < n <= |moves|
  {
    MoveNumberLabel(2 * j) + SanAt(lib, moves, 2 * j) + (if 2 * j + 1 < n then " " + SanAt(lib, moves, 2 * j + 1) else "")
  }

  /** The rows of the first `n` half-moves. */
  predicate HistoryOf(lib: Library, moves: seq<Move>, n: nat, lines: seq<string>)
    requires n <= |moves|
  {
    |lines| == (n + 1) / 2 && forall j :: 0 <= j < |lines| ==> lines[j] == HistoryRow(lib, moves, n, j)
  }

  /** A row already complete is unchanged by later half-moves. */
  lemma HistoryRowKept(lib: Library, moves: seq<Move>, n: nat, j: nat)
    requires 2 * j + 1 < n < |moves|
    ensures HistoryRow(lib, moves, n + 1, j) == HistoryRow(lib, moves, n, j)
  {
  }

  /** Black's half-move completes the row White's half-move opened. */
  lemma HistoryRowCompleted(lib: Library, moves: seq<Move>, j: nat)
    requires 2 * j + 1 < |moves|
    ensures HistoryRow(lib, moves, 2 * j + 2, j) == HistoryRow(lib, moves, 2 * j + 1, j) + " " + SanAt(lib, moves, 2 * j + 1)
  {
    var head := MoveNumberLabel(2 * j) + SanAt(lib, moves, 2 * j);
    var tail := SanAt(lib, moves, 2 * j + 1);
    assert HistoryRow(lib, moves, 2 * j + 1, j) == head + "" == head;
    assert head + " " + tail == head + (" " + tail);
  }

  /** An even half-move opens a new row. */
  lemma HistoryOpenRow(lib: Library, moves: seq<Move>, i: nat, lines: seq<string>)
    requires i < |moves| && i % 2 == 0 && HistoryOf(lib, moves, i, lines)
    ensures HistoryOf(lib, moves, i + 1, lines + [MoveNumberLabel(i) + SanAt(lib, moves, i)])
  {
    var next := lines + [MoveNumberLabel(i) + SanAt(lib, moves, i)];
    forall j | 0 <= j < |next|
      ensures next[j] == HistoryRow(lib, moves, i + 1, j)
    {
      if j < |lines| {
        HistoryRowKept(lib, moves, i, j);
      }
    }
  }

  /** An odd half-move completes the last row after a space. */
  lemma HistoryCloseRow(lib: Library, moves: seq<Move>, i: nat, lines: seq<string>)
    requires i < |moves| && i % 2 == 1 && HistoryOf(lib, moves, i, lines)
    ensures HistoryOf(lib, moves, i + 1, lines[|lines| - 1 := lines[|lines| - 1] + " " + SanAt(lib, moves, i)])
  {
    var last := |lines| - 1;
    var next := lines[last := lines[last] + " " + SanAt(lib, moves, i)];
    forall j | 0 <= j < |next|
      ensures next[j] == HistoryRow(lib, moves, i + 1, j)
    {
      if j < last {
        HistoryRowKept(lib, moves, i, j);
      } else {
        HistoryRowCompleted(lib, moves, j);
      }
    }
  }

  /**
   * `update_move_history`: walking the mainline, an even half-move opens a
   * new numbered row and an odd one is appended to the last row after a
   * space, so row `j` holds full move `j + 1` and there are `ceil(n / 2)` rows.
   */
  method MoveHistory(lib: Library, game: Option<Game>) returns (lines: seq<string>)
    ensures game == None ==> lines == []
    ensures game.Some? ==> HistoryOf(lib, game.value.mainline, |game.value.mainline|, lines)
  {
    lines := [];
    if game == None {
      return;
    }
    var moves := game.value.mainline;
    var board := Initial;
    for i := 0 to |moves|
      invariant board == Position(StandardStart, moves[..i])
      invariant HistoryOf(lib, moves, i, lines)
    {
      var text := lib.san(board, moves[i]);
      if i % 2 == 0 {
        HistoryOpenRow(lib, moves, i, lines);
        lines := lines + [MoveNumberLabel(i) + text];
      } else {
        HistoryCloseRow(lib, moves, i, lines);
        lines := lines[|lines| - 1 := lines[|lines| - 1] + " " + text];
      }
      assert moves[..i + 1] == moves[..i] + [moves[i]];
      board := board.Push(moves[i]);
    }
  }
}
