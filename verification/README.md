# ChessToolkit interaction core in Dafny

This project models the interaction logic of ChessToolkit's Tk windows. These are the analysis board (two
variants, `Code/gui.py` and `gui.py`), the draft arena with a human seat (`Code/temp.py`), the
engine-versus-engine battle arena (`Code/battle_arena.py`), the play-against-bot window
(`Code/play_bot.py`) and the "Import PGN" dialog (`Code/import_dialog.py`).

The chess rules belong to the python-chess library, which the model does not contain. They enter as a
`Chess.Library` value of function fields: piece lookup, legality, mate, stalemate, check, game over, SAN
and result. Every property is therefore proved for every rules implementation. A board is its start
position plus its move stack. The side to move is the start colour flipped once per pushed move. A game
record is its headers plus its main line. The current node is a depth on the main line plus any moves that
left it.

A Python exception escaping a Tk callback is modelled explicitly. `Outcomes.Handled` is either
`Returned(state)` or `Raised(state)`, and the state keeps the mutations made before the raise. Examples:

- A square size of 0 gives a ZeroDivisionError.
- The draft arena's missing history panel raises an AttributeError.
- The draft arena's missing analysis method raises too.

Modules:

- `Outcomes`: `Option` and `Handled`.
- `Chess`: colours, pieces, squares, moves, positions, the library boundary and the turn rule.
- `Geometry`: the pixel-to-square arithmetic and the square size after a resize.
- `Text`: Python's `str(int)`, `" ".join`, `str.split(" ")` and `str.strip()` on `seq<char>`.
- `Navigation`: the game record, `add_variation` and `go_to_move`'s replay.
- `Session`: the analysis board's state, the click handler, `make_move` and `go_to_move`, as both
  analysis boards change the state.
- `Notation`: SAN lists, move numbers, the principal variation line and the mate score text.
- `StatusLabel`: the status banner of both analysis boards.
- `AnalysisGui` and `ClassicGui`: the parts that differ between `Code/gui.py` and `gui.py`.
- `ArenaDraft`: `Code/temp.py`.
- `Arena`: `run_match`, start and stop, and the move history.
- `BotGame`: `Code/play_bot.py`.
- `ImportDialog`: `Code/import_dialog.py`.

Behaviour of the code worth knowing before reading the model:

- **Playing a move after rewinding.** This does not truncate or overwrite the rest of the game. The code
  calls `add_variation`, which keeps the old continuation as the main line and starts a side line. See
  `Session.MoveAfterRewindBranches`.
- **The move cursor.** `go_to_move` stores the requested index unclamped, so the cursor may point past
  the end of the game. `Session.GoTo` states exactly when the index still tracks the board.
- **Selecting a move in the list.** In the bot window this jumps back to the initial position instead of
  the selected move, and a stale selection in the White list wins over a click in the Black list. See
  `BotGame.OnPgnSelect`; `BotGame.OnPgnSelectIntended` is the handler with both corrected.
- **The draft arena.** Its constructor raises an AttributeError: the Start, Stop and Return buttons are
  bound to `start_match`, `stop_match` and `return_to_main_menu`, which the class never defines. The
  handlers are modelled on the state that exists when it raises (`ArenaDraft.OpenDraft`); the canvas click
  and the engine menus are bound to it before the raise. The click handler is guarded by a
  `waiting_for_human` flag that no code ever sets, so it ignores every click. `Code/temp.py` also lacks the
  history panel and the analysis method that its `make_move` and `go_to_move` call, so both end by raising.
  Nothing in `Code/temp.py` binds `import_pgn`, `export_pgn` or `on_pgn_select` (the last needs a
  `pgn_tree` that is never created), so `ArenaDraft.LoadPgn`, `ArenaDraft.ExportHeaders` and
  `ArenaDraft.GoTo` state what those handlers would do if called, not what the window can reach.
- **The analysis board's engine.** Every move and jump ends in `analyze_position`. `Code/gui.py` catches a
  failure of the analysis (launching the engine, querying it, reading its answer); `gui.py` does not, so there the handler raises after its state change.
  See `ClassicGui.ClickWithEngine`.

## Model

| member | source | states |
|---|---|---|
| Chess.Turn | Code/gui.py:242-252 | From the standard start, White is to move exactly when an even number of half-moves has been pushed. |
| Chess.PushFlipsTurn | Code/gui.py:373 | Pushing a move hands the turn to the other colour. |
| Chess.SquareCoordinates | Code/gui.py:354-358 | `chess.square(col, row)` of a grid cell is a board square whose file and rank read back as `col` and `row`. |
| Geometry.ClickHitsDrawnSquare | Code/gui.py:353-358 | A click resolves to square `sq` if and only if the pixel lies inside the rectangle drawn for `sq`. |
| Geometry.GridCoverage | Code/gui.py:354-357 | The bounds check accepts exactly the pixels of the `8 * size` square at the origin. |
| Geometry.ResizedSquare | Code/gui.py:420-424 | The new square size makes the board fit both canvas sides, and a square one pixel larger would not. |
| Geometry.TinyCanvasBreaksClicks | gui.py:264-268 | After a resize to a canvas narrower than 8 pixels, every click divides by zero. |
| Navigation.NewGame | Code/gui.py:29-30 | A fresh game record has no moves and the result tag "*". |
| Navigation.AddVariation | Code/gui.py:374 | The node's path grows by the move. The main line grows only when the node is its tip; otherwise a side line starts and the record's main line is unchanged. |
| Navigation.GoToMove | Code/gui.py:408-416 | A fresh standard board holds the first `k + 1` main-line moves: none for negative `k`, all when `k` is past the end. The node sits at that depth with the same path, and the index is `k` unclamped. |
| Session.Open | Code/gui.py:25-31 | The window opens on the given position with an empty record, the root node, index -1, nothing selected and 60-pixel squares. |
| Session.OpenIsSynced | Code/gui.py:25-31 | At start the board equals the node's path and the index counts the pushed moves. |
| Session.MakeMove | Code/gui.py:372-378 | The board gets the move, the node's path grows by it, the index grows by one and the selection is cleared. Board/node agreement and index tracking are preserved. |
| Session.Click | Code/gui.py:353-370 | The handler raises exactly when the square size is 0, and an off-board click changes nothing. With nothing selected, only the selection changes: to the clicked square iff it holds a piece of the side to move. A second click clears the selection and, iff the move is legal, plays it. Every path preserves the node's validity and board/node agreement. |
| Session.GoTo | Code/gui.py:408-418 | Same replay as `Navigation.GoToMove`, with the rest of the window kept. The index tracks the board iff `-1 <= k <` the main-line length. |
| Session.MoveAfterRewindBranches | Code/gui.py:372-374 | After a rewind, a move that differs from the recorded one leaves the main line as it was, and the board leaves the main line. |
| Notation.Sans | Code/gui.py:287-292 | The i-th SAN is the library's SAN of the i-th move in the position reached by the moves before it. |
| Notation.SansFromStart | Code/battle_arena.py:304-314 | For a game from the standard start, the i-th SAN is the SAN of move i in the position after the first i moves. |
| Notation.FullMoveNumber | Code/battle_arena.py:310 | Half-move `i` belongs to full move `n`, with `2(n-1) <= i <= 2(n-1)+1`. |
| Notation.MoveNumberLabelParses | Code/battle_arena.py:309-311 | The label ends in ". " and the digits before it parse back to the full-move number. |
| Notation.FormatPv | Code/gui.py:287-293 | An empty line prints as "". A line longer than five ends in "...". Splitting the shown part at spaces gives back exactly the first `min(5, n)` SANs. |
| Notation.FormatMate | Code/gui.py:282-284 | A mate score prints as "M" followed by digits that parse back to the absolute mate distance. |
| Notation.MateSignDropped | Code/gui.py:284 | Mate for and mate against print alike. |
| StatusLabel.FullStatus | Code/gui.py:239-255 | Each banner appears under its condition, mate first: red iff checkmate, naming the winner as the side that just moved; the stalemate text iff stalemate without mate; orange iff check without mate or stalemate. Otherwise "to move", blue iff White. |
| StatusLabel.ShortStatus | gui.py:121-129 | The title is the mate text iff checkmate; otherwise it is the check text or the to-move text. |
| StatusLabel.VariantsDifferOnlyOnStalemate | gui.py:121-129 | The two analysis boards show the same status text iff the position is not a stalemate, and `gui.py` calls a stalemate "to move". |
| AnalysisGui.OnPgnSelect | Code/gui.py:399-406 | A text line within the count of move-number tokens jumps to half-move `2 * line` (White's move of that row); other lines change nothing. |
| ClassicGui.ClickWithEngine | gui.py:207-232 | A click in `gui.py` changes the state as the shared click handler does. It raises iff that handler raises, or a legal move was played and the analysis fails. |
| ClassicGui.GoToWithEngine | gui.py:252-262 | The jump replays the main-line prefix and stores the index unclamped. It raises iff the analysis fails, and the index tracks the board iff `-1 <= k < n`. |
| ClassicGui.OnPgnSelect | gui.py:246-250 | A selected row numbered `N` jumps to half-move `2(N - 1)` and raises iff the analysis fails; no selection changes nothing. The index tracks the board when `N` is a real row. |
| ClassicGui.Resize | gui.py:264-268 | Only the square size changes, to the largest one at which the board fits the canvas. |
| ClassicGui.ClickAfterTinyResizeRaises | gui.py:207-209 | After a resize to under 8 pixels, every click on the board raises and leaves the state as it was. |
| ArenaDraft.OpenDraft | Code/temp.py:14-44 | The constructor raises. The state it leaves has no game record, no node, index -1, no selection, a fresh board, the human-wait flag off, the fields at "10" and "1.0" and the ready message. |
| ArenaDraft.EngineSelectionChange | Code/temp.py:382-386 | Choosing "Human" for either engine sets the games field to "1", the time field to "0.1" and a status message. Any other choice changes nothing. |
| ArenaDraft.HumanForcesSingleQuickGame | Code/temp.py:382-386 | Choosing "Human" on either side forces one game at 0.1 seconds whatever the fields held, and repeating the choice changes nothing more. |
| ArenaDraft.PromotionIntended | Code/temp.py:408-412 | A queen promotion is attached iff the selected piece is a pawn of the side to move and the target is on that side's last rank. |
| ArenaDraft.AsWrittenNeverPromotes | Code/temp.py:409-412 | The rule as written never promotes when no pawn stands on a back rank. |
| ArenaDraft.PromotionClickCounterexample | Code/temp.py:400-414 | With a white pawn on e7, the as-written rule builds an illegal e7e8 without promotion. The intended rule builds the legal e7e8=Q. |
| ArenaDraft.MakeMove | Code/temp.py:421-426 | The move is pushed and added after the current node, and the handler always ends by raising. Only the board, the game record and the node change. |
| ArenaDraft.Click | Code/temp.py:388-419 | Unless a human is to move, nothing happens. A click off the board changes nothing. A square size of 0 raises with the state unchanged, and no other click does that. A first click picks up a piece iff it belongs to the side to move. A second click builds the move with the as-written promotion rule. If that move is legal it is played, and the raise in `make_move` leaves the selection set. An illegal second click only clears the selection. |
| ArenaDraft.PromotionClickIgnored | Code/temp.py:400-417 | With the e7 pawn picked up, a click on e8 only drops the selection. |
| ArenaDraft.GoTo | Code/temp.py:452-462 | With no game loaded, the board is reset, the node dropped and the handler raises. Otherwise it replays like `Navigation.GoToMove`, sets the index and then raises. Nothing else changes. |
| ArenaDraft.LoadPgn | Code/temp.py:492-515 | A text with no game, or a failed read, changes nothing. Otherwise the board holds the whole main line, the node is at its end and the index is its length minus one. Nothing else changes. |
| ArenaDraft.ExportHeaders | Code/temp.py:478-486 | With no game the handler raises. Otherwise Event, Date, White, Black and Result are set (Result is the board's result), the other headers and the moves are kept. |
| Arena.HandlesFor | Code/battle_arena.py:399-404 | The process for White is engine 1 in odd games and engine 2 in even games; Black gets the other. |
| Arena.GameHeaders | Code/battle_arena.py:390-397 | The keys are the Seven Tag Roster. Event and Date are set, Site stays "?" and Result stays "*". The names follow the colour assignment, and Round parses back to the game number. |
| Arena.ColoursAlternate | Code/battle_arena.py:395-404 | Consecutive games swap colours, in both the headers and the launched processes. |
| Arena.CheckmateCreditsMatingEngine | Code/battle_arena.py:430-434 | When a game ends in mate, the point goes to the configured engine that made the last move. |
| Arena.MovesComeFromTheMover | Code/battle_arena.py:412-420 | Every move played in a game is the reply of the engine whose turn it was, in the position before it. |
| Arena.MatchConservesScore | Code/battle_arena.py:384-434 | From any game on, at most ten games are entered. Each completed game adds exactly one point in total, and a game abandoned by an exception adds none. |
| Arena.PlayGame | Code/battle_arena.py:412-427 | The half-move loop ends as the reference `PlayOut` does. |
| Arena.EnterGame | Code/battle_arena.py:385-434 | One pass of the game loop either ends the match, as the reference says, or credits the game and continues with the next one. |
| Arena.GameLoop | Code/battle_arena.py:383-437 | The loop over games 1 to ten ends with the score, game count, abandonment and board that the reference `MatchFrom` gives from game 1 with the flag unread. |
| Arena.RunMatch | Code/battle_arena.py:377-445 | The loop's result agrees with the reference `MatchFrom`. The points added equal the games entered, minus one for an abandoned game, and the flag ends cleared with "Match completed.". |
| Arena.StartMatch | Code/battle_arena.py:447-458 | Start is a no-op while a match runs. Otherwise it sets the flag and the status and starts one worker. |
| Arena.StopMatch | Code/battle_arena.py:460-464 | Stop clears the flag and sets "Match stopped." without touching the worker. |
| Arena.StartIsIdempotent | Code/battle_arena.py:447-449 | Pressing Start twice starts one worker. |
| Arena.HistoryOpenRow | Code/battle_arena.py:308-311 | Appending the numbered SAN of an even half-move to the rows of the half-moves before it gives the rows of one more half-move. |
| Arena.HistoryCloseRow | Code/battle_arena.py:312-313 | Extending the last row with a space and the SAN of an odd half-move gives the rows of one more half-move. |
| Arena.MoveHistory | Code/battle_arena.py:299-317 | There are `ceil(n / 2)` rows. Row `j` is the move number, White's SAN and, when played, a space and Black's SAN. |
| BotGame.OpenedIsConsistent | Code/play_bot.py:16-26 | The window opens with empty lists that match the empty game. |
| BotGame.UpdatePgn | Code/play_bot.py:114-130 | The White list holds `ceil(n / 2)` numbered rows and the Black list `floor(n / 2)` bare rows, with the SANs in order. The last half-move is highlighted when there is one. |
| BotGame.EveryMoveIsShown | Code/play_bot.py:120-127 | Half-move `i` appears in row `i / 2` of its colour's list. |
| BotGame.ShowsWhiteMove | Code/play_bot.py:123-124 | Appending the numbered SAN of an even half-move to the White list extends the listing by that half-move. |
| BotGame.ShowsBlackMove | Code/play_bot.py:125-126 | Appending the bare SAN of an odd half-move to the Black list extends the listing by that half-move. |
| BotGame.Highlight | Code/play_bot.py:142-148 | Exactly one list gets a selection, and its row together with the list's colour encodes the half-move back. |
| BotGame.ClickedSquare | Code/play_bot.py:80-82 | A click on the 640-pixel board names a board square whose file and rank come from the pixel. |
| BotGame.Click | Code/play_bot.py:74-96 | Before Start, only the status changes. A White piece is picked up iff it stands on the clicked square. A legal second click pushes the move, refills the lists and schedules one reply; any second click drops the pick-up. Consistency is preserved. |
| BotGame.ClickRow | Code/play_bot.py:304-327 | A click in one list selects that row and leaves the other list's selection, since neither list exports its selection. |
| BotGame.SelectedMoveAsWritten | Code/play_bot.py:132-140 | As written, the White list's selection wins whichever list was clicked. |
| BotGame.SelectedMove | Code/play_bot.py:132-140 | The intended index comes from the clicked list: twice its row, plus one for Black. |
| BotGame.ClickedRowRoundTrip | Code/play_bot.py:132-148 | Clicking a row selects the half-move it shows, and highlighting that half-move selects the same row. |
| BotGame.AsWrittenAgreesIff | Code/play_bot.py:133-139 | The code agrees with the intended index iff the click was in the White list, or the White list has no other selected row. |
| BotGame.StaleSelectionCounterexample | Code/play_bot.py:133-139 | After three half-moves, clicking Black's first reply jumps to half-move 3 instead of 1. |
| BotGame.SliceTo | Code/play_bot.py:153 | Python's `s[:stop]` is a prefix of the stated length, counting from the end for a negative stop. |
| BotGame.GoToMoveAsWritten | Code/play_bot.py:150-156 | As written, the board is replaced before its stack is sliced, so it always ends at the initial position. Only the highlight moves. |
| BotGame.GoToMoveCounterexample | Code/play_bot.py:150-154 | Selecting Black's first reply of a game with two or more half-moves does not show the position after it. |
| BotGame.GoToMove | Code/play_bot.py:150-156 | The intended replay: the board holds the listed moves up to and including half-move `k`. |
| BotGame.OnPgnSelect | Code/play_bot.py:132-156 | As written, clicking row `r` of a list leaves the initial position on the board. It highlights half-move `2r` for a White click. For a Black click it highlights `2w + 1` when White row `w` is selected, and `2r + 1` otherwise. |
| BotGame.OnPgnSelectIntended | Code/play_bot.py:132-156 | With both corrections, clicking row `r` of a list shows the position after half-move `2r` (White) or `2r + 1` (Black) and highlights it. |
| BotGame.SelectShowsRow | Code/play_bot.py:132-156 | With the intended handler, in a consistent window, selecting a listed row puts on the board exactly the position after the half-move shown in that row, the row's text is that half-move's SAN (numbered in the White list), and the window stays consistent. |
| BotGame.StartGame | Code/play_bot.py:158-164 | Start only marks the game started. |
| BotGame.ResignGame | Code/play_bot.py:166-172 | Resign stops the game and says so; the board and lists stay. |
| BotGame.ResetGame | Code/play_bot.py:174-184 | Reset sets a fresh board, no game, no pick-up and empty lists, keeps the status and leaves the window consistent. |
| ImportDialog.OpenDialog | Code/import_dialog.py:6-11 | The dialog opens with no status and nothing delivered. |
| ImportDialog.ValidateAndImport | Code/import_dialog.py:70-89 | A blank text, a text with no game and a failed read each show their message and deliver nothing. Otherwise the stripped text is delivered exactly once, and the dialog closes unless the callback raises, which shows "Error: " and its message. |
| ImportDialog.OnClose | Code/import_dialog.py:91-93 | Closing changes only the open flag. |
| ImportDialog.ImportDeliversOnlyGames | Code/import_dialog.py:71-86 | Every text ever delivered is non-blank, already stripped, and reads as a game. |
| Text.NatToStringRoundTrip | Code/battle_arena.py:397 | `str(n)` of a natural number parses back to `n`. |
| Text.SplitJoinRoundTrip | Code/gui.py:293 | Joining words without spaces with " " and splitting at spaces gives the words back. |
| Text.Strip | Code/import_dialog.py:71 | `str.strip()` is a slice of the input with only whitespace cut away, neither starting nor ending with whitespace. It is empty iff the input is all whitespace. |
| Text.StripIdempotent | Code/import_dialog.py:71 | Stripping a stripped text changes nothing. |

## Left out

- Engine processes and UCI: `engine.play` and `popen_uci` are a parameter (`Arena.Engines`). Engine analysis (`analyze_position`, `display_analysis`, the evaluation bar) is left out. The only part kept is whether the analysis in `gui.py` completes, a parameter (`analysisCompletes`), because any failure there raises. The bot's own reply (`bot_move`) is left out too; it is only counted as scheduled.
- `Code/gui.py`'s analysis handlers and `Code/temp.py`'s missing analysis method need no such parameter: the first catches every failure, the second always raises.
- Threads, the display queue, `time.sleep` and `root.after`: the arena's running flag is a sequence of values indexed by the number of reads. The race in which Start is pressed again between a stop and the worker noticing it is not modelled.
- Drawing: `draw_board`, hover highlighting (`on_square_hover`), colours of squares, fonts and layout.
- The centipawn branch of `format_score` (`score / 100` with two decimals): floating-point formatting.
- `update_pgn_display` and `get_pgn`: PGN export text and the regular expression over it. The analysis board's list selection takes the count of move-number tokens as an input.
- `Code/export_dialog.py`, `Code/main_menu.py`, `main.py`, `utils.py` and `Code/analysis.py`: windows and helpers outside this core. `go_to_analysis` and `confirm_back` of the bot window are left out for the same reason.
- Side lines of the game record: only the main line is stored, and a node off it is the main-line depth plus its own moves.
- The drawing rules of chess (seventy-five moves, fivefold repetition) stand behind `Chess.GamesEnd`: every game ends within `plyBound` half-moves.
- In `run_match`, when engine 2's process fails to launch, engine 1's process is never quit. Process lifetimes are not modelled.
- The arena's number-of-games and time fields are never read by `run_match`, which always plays ten games; the fields appear only in `ArenaDraft`.
- python-chess indexing of squares outside 0..63 (a wrap for -64..-1 and an IndexError beyond): `BotGame.ClickedSquare` passes such squares to the library unchanged.
- BotGame.ClickedSquare: states square, file and rank only for clicks inside the 640-pixel canvas. The canvas never reports clicks outside it.
- BotGame.Highlight: Tk's clamping of a row index beyond the end of a list is not modelled; the requested row is recorded.
- The `Date` header is an input (`date`), since the clock is I/O.
- Replays on a fresh `chess.Board()` (`ArenaDraft.LoadPgn`, `ArenaDraft.GoTo`, `Navigation.GoToMove`) treat every push as succeeding. A game whose moves were made from another position (an analysis board opened on a FEN, or a PGN with a `FEN` header) can hold a move whose from-square is empty in the standard-start replay, and python-chess's `push` then fails partway through; such a move is assumed never to occur.

## Findings

| source | as written | input that shows it | evidently intended | confidence | as-written member | corrected member |
|---|---|---|---|---|---|---|
| Code/temp.py:409-412 | The queen promotion is attached when the piece on the clicked target square is a pawn. | A white pawn on e7 clicked to an empty e8: the target holds no pawn, so e7e8 is built without promotion and rejected as illegal. | Attach the promotion when the selected piece is a pawn moving to its last rank. | not executed | ArenaDraft.PromotionClickCounterexample | ArenaDraft.PromotionIntended |
| Code/play_bot.py:133-139 | `white.curselection() or black.curselection()` prefers the White list's selection even when the Black list was clicked. | After 1. e4 e5 2. Nf3, row 1 of the White list is highlighted. Clicking row 0 of the Black list (…e5) jumps to half-move 3. | Use the selection of the list that was clicked: half-move 1. | not executed | BotGame.StaleSelectionCounterexample | BotGame.SelectedMove |
| Code/play_bot.py:150-154 | `board` is replaced by a fresh board before `board.move_stack[:move_index + 1]` is read, so nothing is replayed. | Any game with two or more half-moves: selecting row 0 of the Black list shows the initial position. | Replay the listed moves up to and including the selected half-move on a fresh board. | not executed | BotGame.GoToMoveCounterexample | BotGame.GoToMove |
