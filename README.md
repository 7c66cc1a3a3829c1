# Reversi demo app: game session and move selection

This project models the core of a small Reversi (Othello) web application in
Dafny. The backend keeps one game session: a move record such as
`"f5d6c3"`, the board text `obf67` replayed from it, a status
(`in_progress` / `finished`) and one watermark per colour. A watermark is the
record length at that colour's first move played by hand. Its value is
`99999999` when the colour has no such move, and only then may the computer
agent play that colour. The request handlers `make_move`, `make_random_move`,
`undo_move` and `do_agent_move` update this session in place; `reset_game`
replaces it with a fresh initial state.
The agent chooses its move with a cascade:

1. the fixed opening `f5` on a four-disc board;
2. otherwise a proven win from a depth-3 negamax search (`simple_solver`);
3. otherwise, below 28 discs, the best verdict from a precomputed table;
4. otherwise the answer of an external exhaustive solver.

The page's script reads the side to move, the empty-square count and the agent
status from the state, and names squares with `indexToCoordinate`.

Modules:

- `Board`: bitboards as sets of squares (`^` is symmetric difference, `1 << i`
  is `{i}`, a bit test is membership). It also holds the board text, and the
  `Engine`: the helper-library primitives (move generator, flipper, record
  replay, text codecs, table, external solver) as function-valued fields. Only
  the facts in `EngineFacts` are assumed about them.
- `Notation`: square names and their inverse.
- `Scanning`: the running first maximum shared by both search loops.
- `Search`: the negamax, the table tier and the cascade, as functions.
  `SearchFacts` proves what they guarantee, and `Solver` holds the loops,
  proved to compute those functions.
- `GameRules`: each handler as a function from the state before a request to
  its outcome and the state after. It also holds the invariant of reachable
  states and the laws relating the handlers (undo after a move restores the
  state).
- `Session`: the session as a class whose methods update its fields in place.
  Each method is proved to match its `GameRules` function. A ghost set of the
  record lengths at which moves were played by hand proves that each watermark
  is the first hand move of its colour.
- `View`: the page's readers of the state.

Two details of the handlers shape the model:

- `undo_move` drops the last two characters of the record (backend.py:115),
  which is one move, also when the replay had a pass in between.
- `make_random_move` lowers the watermark (backend.py:82) before its
  consistency asserts (backend.py:83, backend.py:86), so a failing assert
  there would leave the lowered watermark behind. On the states the handlers
  reach, those asserts are proved never to fail (`GameRules.RandomMoveSpec`).

## Model

| member | source | states |
|---|---|---|
| Board.Xor | backend.py:160 | a square is in `a ^ b` exactly when it is in one of the two |
| Board.PopcountPositive | backend.py:86-87 | a non-empty set of legal squares has a positive count, so the random draw has a range |
| Board.CategoryValue | backend.py:239 | `int(result)` of a table category lies in 0..4 |
| Notation.IndexToCoordinate | script.js:83-87 | square i is named by the letter `'a' + i % 8` and the digit `1 + i / 8`, a name matching `[a-h][1-8]` |
| Notation.CoordinateToIndex | backend.py:58 | a name is read as a square exactly when it matches `[a-h][1-8]`, and the square is below 64 |
| Notation.IndexRoundTrip | backend.py:96 | reading back the name of a square gives the square |
| Notation.CoordinateRoundTrip | backend.py:58 | every well-formed name is the name of the square it reads as |
| Notation.IndexToCoordinateInjective | script.js:83-87 | distinct squares have distinct names |
| Scanning.ScanFindsFirstMaximum | backend.py:154-168 | the loop's running best (start -100, replace on strictly greater) ends on no square exactly when no value was known, else on the first square holding the largest value |
| SearchFacts.NegamaxBounds | backend.py:141-168 | every score `simple_solver` returns is -100 ("unknown") or a disc differential in [-64, 64] |
| SearchFacts.ChildValueIsReplyScore | backend.py:156-164 | a counted reply is a legal square at depth > 0, valued by the negated score of the position after it, searched one ply shallower |
| SearchFacts.ChildBounds | backend.py:159-164 | a counted reply value is a disc differential |
| SearchFacts.ChildrenBounds | backend.py:154-168 | every counted reply value is a disc differential |
| SearchFacts.NegamaxBaseCases | backend.py:142-153 | neither side can move: the final score and "end"; depth 0: -100 and "unknown", also when passing; a pass at depth > 0: the swapped search at the same depth, negated unless unknown, with "ps" |
| SearchFacts.NegamaxBestMove | backend.py:154-168 | with a legal move and depth > 0: no move exactly when no reply was decided (then -100); otherwise the first legal square with the largest reply value, and that value as the score |
| SearchFacts.RootFindsProvenWin | backend.py:171-177 | the root answers exactly when some legal square is decided as a win; its move is then a legal square named in `[a-h][1-8]` and its score is in 1..64 |
| SearchFacts.ReplyValueBounds | backend.py:210-241 | a table verdict exists only for a legal square and lies in [-4, 4] |
| SearchFacts.TableMoveIsFirstBest | backend.py:206-244 | the table tier answers no square exactly when no legal reply had a table hit; otherwise the first legal square with the largest `-int(result) * pass_flag` |
| SearchFacts.OptimalMoveTiers | backend.py:246-266 | "f5" exactly on four discs; a search answer is a proven win on a legal square; the table is asked only below 28 discs after the search found no win, and answers a legal square; the external solver is asked only when both earlier tiers had nothing; every answer but the external solver's matches `[a-h][1-8]` |
| Solver.SimpleSolver | backend.py:141-168 | the recursive method with its loop over the squares returns the negamax function's score and move |
| Solver.SearchBestMoveFromTable | backend.py:206-244 | the loop returns the table tier's square |
| Solver.SimpleSolverRoot | backend.py:171-177 | returns the search result exactly when its score is positive |
| Solver.GetOptimalMove | backend.py:246-266 | answers as the cascade of tiers, tried in order |
| GameRules.InitialStateInv | backend.py:20-26 | the initial state satisfies the invariant of reachable states |
| GameRules.PlayedInv | backend.py:62-68 | a two-character move from a valid game in progress keeps the invariant when only the mover's watermark changes, to the old record length |
| GameRules.MakeMoveSpec | backend.py:43-72 | refused with nothing changed on a finished game or an illegal square; accepted exactly on a legal square; the record grows by the move; the invariant holds; only the mover's watermark changes, to `min(old, len(record))` |
| GameRules.RandomMoveIsMakeMove | backend.py:74-105 | a random move on the drawn square is the direct move by that square's name |
| GameRules.RandomMoveSpec | backend.py:74-105 | refused with nothing changed exactly on a finished game, never aborted; otherwise appends the drawn square's name, keeps the invariant, lowers the mover's watermark to `min(old, len(record))` and leaves the other colour's untouched |
| GameRules.UndoMoveSpec | backend.py:107-124 | refused with nothing changed exactly on an empty record; otherwise drops exactly the last move, resumes the game, keeps the invariant, and resets to 99999999 exactly the watermarks equal to the new record length, which can only be the new mover's |
| GameRules.AgentMoveSpec | backend.py:269-292 | refused with nothing changed on a finished game or when the colour to move has a watermark; otherwise plays the cascade's move, a legal square when the search or table chose it, keeping the invariant and both watermarks; an abort comes only from the external solver's answer |
| GameRules.UndoAfterMakeMove | backend.py:107-124 | undoing an accepted direct move restores the state before it, watermarks included |
| GameRules.UndoAfterRandomMove | backend.py:107-124 | undoing a random move restores the state before it |
| GameRules.UndoAfterAgentMove | backend.py:107-124 | undoing an accepted agent move restores the state before it |
| GameRules.UndoRestores | backend.py:115-120 | undo after one move by the colour to move restores record, board, status and watermarks |
| Session.PliesAfterAgentMove | backend.py:283 | an agent move adds no hand move to either colour |
| Session.PliesAfterHandMove | backend.py:62-63 | a hand move adds exactly one hand move, to the colour that was to move |
| Session.PliesAfterCut | backend.py:115 | cutting the record keeps the colour of every hand move before the cut |
| Session.WatermarkAfterHandMove | backend.py:62 | `min(watermark, len(record))` is the first hand move once the new one is added |
| Session.WatermarkAfterUndo | backend.py:119-120 | resetting a watermark equal to the new record length keeps it the first remaining hand move |
| Session.WatermarkIsSentinelIffNoPlies | backend.py:277 | a watermark is 99999999 exactly when its colour has no hand move |
| Session.NthSquare | backend.py:89-95 | the scan stops on the legal square with exactly k legal squares below it |
| Session.DrawsMatchSquares | backend.py:87-95 | every legal square is reached by exactly one draw below the count |
| Session.GameSession.constructor | backend.py:20-27 | the session starts in the initial state, with no hand moves, and is valid |
| Session.GameSession.MakeMove | backend.py:43-72 | updates the fields as `make_move` does, records a hand move when accepted, and keeps each watermark the first hand move of its colour |
| Session.GameSession.HandMoveValid | backend.py:62-68 | after a hand move the session is valid again |
| Session.GameSession.MakeRandomMove | backend.py:74-105 | plays a legal square as `make_random_move` does, records a hand move, keeps the session valid |
| Session.GameSession.UndoMove | backend.py:107-124 | updates the fields as `undo_move` does, forgets hand moves at or past the new length, keeps the session valid |
| Session.GameSession.DropLastMove | backend.py:115-120 | cuts the record, resumes the game, replays and releases the watermark as `undo_move` does after its check |
| Session.GameSession.UndoValid | backend.py:115-120 | after an undo the session is valid again |
| Session.GameSession.ResetGame | backend.py:126-139 | restores the initial state and forgets all hand moves |
| Session.GameSession.DoAgentMove | backend.py:269-292 | updates the fields as `do_agent_move` does; an accepted agent move was for a colour without hand moves, and adds none |
| Session.AgentAllowedIffNoHandMoves | backend.py:277-279 | in a valid session the agent may play a colour exactly when no move of that colour was played by hand |
| View.CurrentTurn | script.js:25-28 | black exactly when character 65 is 'X'; on a well-formed board text it is the backend's side to move |
| View.EmptyCellsCountsDashes | script.js:31-34 | the count is the number of positions holding a '-' |
| View.EmptyCellsAreEmptySquares | script.js:32 | on a well-formed board text the count is the number of empty squares, at most 64 |
| View.AgentStatusLineShowsGates | script.js:37-41 | two states get the same status line exactly when each colour's watermark is 99999999 in both or in neither |
| View.AgentStatusLineDecidesGate | script.js:37-41 | two games in progress with the same side to move and the same status line get the same answer from the `do_agent_move` gate |
| View.AgentLabelShowsGate | script.js:37-41 | for a game in progress, the page shows "可能" for the side to move exactly when `do_agent_move` does not refuse that side |

## Left out

- The HTTP layer is not modelled: Bottle routes, static files, JSON bodies, `get_game_state` and `run` (backend.py:1-41, backend.py:296). Each handler is modelled by its effect on the state and its error result.
- The helper library's primitives are not modelled: move generation, flipping, record replay, text codecs, symmetry reduction, base-81 encoding, final score and the initial position. They are function-valued fields of `Engine`, and only `EngineFacts` is assumed about them.
- `gamerecord_to_obf` is assumed (in `EngineFacts`) to return a well-formed board text for every record. The handlers append to the record (for example backend.py:283) before replaying it (backend.py:284), so a replay that raised on a record it rejects would leave the record and the board text out of step. The model does not capture that, and it matters only after an agent move by the opening or the external solver, whose legality is not proved.
- `str2index` and `index2str` are taken to be the front end's square naming. `str2index` on any other text is modelled as raising (`Aborted`), because its body is not part of this model.
- `read_table` reads a file. It is modelled as a fixed map from keys to the categories '0'..'4', and nothing is assumed about what a category means.
- `deploy_one_problem_to_edax` writes a file and runs an external solver. Its answer is the opaque `Engine.edax`.
- The `os.cpu_count()` worker count and the `print` diagnostics are not modelled.
- `random.randrange` is an arbitrary choice of a draw below the count of legal squares.
- GameRules.AgentMoveSpec: legality of the agent's move is proved only for search and table answers. The opening "f5" and the external solver's answer are only known to match `[a-h][1-8]`, because the initial position and the solver's body are not part of this model.
- Session.GameSession.DoAgentMove: the link between the gate and hand moves is stated for records no longer than 99999999 characters, the sentinel value.
- Session.AgentAllowedIffNoHandMoves: stated for records no longer than 99999999 characters, for the same reason.
- The DOM and fetch code of the page is not modelled: `renderBoard`, `makeMove`, `handleResponse` and the button listeners.
- The watermarks and `handPlies` are unbounded naturals. Python integers are unbounded too, so no wrap-around is modelled.
